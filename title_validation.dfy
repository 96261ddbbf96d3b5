/** Checking a proposed title for a new file on Wikimedia Commons
 *  (`ValidatorMethods.validate_title`,
 *  src/flickypedia/apis/wikimedia/validator_methods.py).
 *
 *  The local checks (length in UTF-8 bytes, a doubled filename suffix,
 *  forbidden characters) are written out; the three requests to the
 *  Commons API are oracles: the page ids found for the exact title, the
 *  `<Text>` elements of the case-insensitive search, and the answer of
 *  the title blacklist. */
module TitleValidation {
  import opened Wrappers
  import opened Text

  /** The `result` field of the answer; the explanatory `text` that goes
   *  with each failure is not modelled. */
  datatype Verdict = TooLong | Invalid | Duplicate | Blacklisted | TitleOk

  // ---------------------------------------------------------------------
  // Length in UTF-8 (RFC 3629)

  /** The number of bytes UTF-8 uses for one code point. */
  function Utf8Width(c: char): (n: nat)
    ensures 1 <= n <= 4
    ensures n == 1 <==> c as int < 0x80
  {
    if c as int < 0x80 then 1
    else if c as int < 0x800 then 2
    else if c as int < 0x10000 then 3
    else 4
  }

  /** `len(s.encode("utf8"))`. */
  function Utf8Length(s: string): (n: nat)
    ensures |s| <= n <= 4 * |s|
  {
    if s == [] then 0 else Utf8Width(s[0]) + Utf8Length(s[1..])
  }

  /** The byte length of a concatenation is the sum of the byte lengths. */
  lemma {:induction false} Utf8LengthAppend(a: string, b: string)
    ensures Utf8Length(a + b) == Utf8Length(a) + Utf8Length(b)
  {
    if a != [] {
      assert (a + b)[0] == a[0] && (a + b)[1..] == a[1..] + b;
      Utf8LengthAppend(a[1..], b);
      assert Utf8Length(a + b) == Utf8Width(a[0]) + Utf8Length(a[1..] + b);
    } else {
      assert a + b == b;
    }
  }

  /** An ASCII title has as many bytes as characters. */
  lemma {:induction false} AsciiUtf8Length(s: string)
    requires forall i :: 0 <= i < |s| ==> s[i] as int < 0x80
    ensures Utf8Length(s) == |s|
  {
    if s != [] {
      AsciiUtf8Length(s[1..]);
    }
  }

  /** `str.lower()`: Python's full Unicode lower-casing, whose tables are
   *  not part of this model (it may change a string's length). */
  type LowerOracle = string -> string

  // ---------------------------------------------------------------------
  // The local checks

  const MaxTitleBytes := 240
  const FilePrefix := "File:"

  /** `title.replace("File:", "")`. */
  function WithoutPrefix(title: string): string {
    ReplaceAll(title, FilePrefix, "")
  }

  /** `title.replace("File:", "").rsplit(".", 1)[0]`: everything before
   *  the last dot, or all of it when there is no dot. */
  function BaseName(title: string): (b: string)
    ensures '.' !in WithoutPrefix(title) ==> b == WithoutPrefix(title)
    ensures '.' in WithoutPrefix(title) ==> StartsWith(WithoutPrefix(title), b + ".")
  {
    var name := WithoutPrefix(title);
    match RSplit1(name, '.')
    case None => name
    case Some(parts) =>
      assert name[..|parts.0| + 1] == parts.0 + ".";
      parts.0
  }

  /** The base name, lower-cased, already ends in an image suffix. */
  predicate HasImageSuffix(baseName: string, lower: LowerOracle) {
    var l := lower(baseName);
    EndsWith(l, ".jpg") || EndsWith(l, ".jpeg") || EndsWith(l, ".png")
    || EndsWith(l, ".gif") || EndsWith(l, ".tif") || EndsWith(l, ".tiff")
  }

  /** The characters of `$wgIllegalFileChars` the check looks for. */
  predicate HasIllegalChar(baseName: string) {
    ':' in baseName || '/' in baseName || '\\' in baseName
  }

  /** The verdict of the local checks, if one of them fails. */
  function LocalVerdict(title: string, lower: LowerOracle): (v: Option<Verdict>)
    ensures v.Some? ==> v.value in {TooLong, Invalid}
    ensures Utf8Length(title) > MaxTitleBytes ==> v == Some(TooLong)
  {
    if Utf8Length(title) > MaxTitleBytes then Some(TooLong)
    else if HasImageSuffix(BaseName(title), lower) then Some(Invalid)
    else if HasIllegalChar(BaseName(title)) then Some(Invalid)
    else None
  }

  // ---------------------------------------------------------------------
  // The remote checks

  /** The page ids the `query` action returns for a title; a title with no
   *  page gives the single id "-1". */
  type PagesOracle = string -> set<string>

  /** The texts of the `<Text>` elements of an `opensearch` for a base
   *  title; an element without text is `None`. */
  type SearchOracle = string -> seq<Option<string>>

  /** The answer of the `titleblacklist` action: a result, or an API error
   *  with its code. */
  datatype BlacklistAnswer = BlacklistResult(result: string) | ApiError(code: string)

  type BlacklistOracle = string -> BlacklistAnswer

  /** The search hit equal to `title` ignoring case, if any: the loop over
   *  the `<Text>` elements, whose `assert` fails on an element without
   *  text. */
  function CaseInsensitiveMatch(texts: seq<Option<string>>, title: string, lower: LowerOracle): (r: Result<bool>)
    ensures r == Err(AssertionError) || r.Ok?
    ensures r == Ok(true) <==> exists i :: (0 <= i < |texts| && texts[i].Some? && lower(texts[i].value) == lower(title)
      && forall j :: 0 <= j < i ==> texts[j].Some? && lower(texts[j].value) != lower(title))
    ensures r == Ok(false) <==> forall i :: 0 <= i < |texts| ==> texts[i].Some? && lower(texts[i].value) != lower(title)
  {
    if texts == [] then Ok(false)
    else if texts[0].None? then Err(AssertionError)
    else if lower(texts[0].value) == lower(title) then Ok(true)
    else
      var r := CaseInsensitiveMatch(texts[1..], title, lower);
      assert forall i :: 0 <= i < |texts| - 1 ==> texts[1..][i] == texts[i + 1];
      assert r == Ok(true) ==> exists i :: (0 <= i < |texts| && texts[i].Some? && lower(texts[i].value) == lower(title)
        && forall j :: 0 <= j < i ==> texts[j].Some? && lower(texts[j].value) != lower(title)) by {
        if r == Ok(true) {
          var k :| 0 <= k < |texts| - 1 && texts[1..][k].Some? && lower(texts[1..][k].value) == lower(title)
            && forall j :: 0 <= j < k ==> texts[1..][j].Some? && lower(texts[1..][j].value) != lower(title);
          assert forall j :: 0 < j < k + 1 ==> texts[j] == texts[1..][j - 1];
        }
      }
      assert r == Ok(false) ==> forall i :: 0 <= i < |texts| ==> texts[i].Some? && lower(texts[i].value) != lower(title) by {
        if r == Ok(false) {
          forall i | 0 <= i < |texts|
            ensures texts[i].Some? && lower(texts[i].value) != lower(title)
          {
            if i > 0 {
              assert texts[1..][i - 1] == texts[i];
            }
          }
        }
      }
      r
  }

  /** The remote checks, once the local ones have passed. */
  function RemoteVerdict(title: string, pages: PagesOracle, search: SearchOracle, blacklist: BlacklistOracle,
                         lower: LowerOracle)
    : (r: Result<Verdict>)
  {
    if pages(title) != {"-1"} then Ok(Duplicate)
    else match RSplit1(WithoutPrefix(title), '.')
      case None => Err(ValueError)
      case Some(parts) =>
        var found :- CaseInsensitiveMatch(search(parts.0), title, lower);
        if found then Ok(Duplicate)
        else match blacklist(title)
          case ApiError(code) =>
            if code == "invalidtitle" then Ok(Invalid) else Err(UnknownWikimediaApiException)
          case BlacklistResult(result) =>
            if result != "ok" then Ok(Blacklisted) else Ok(TitleOk)
  }

  /** `validate_title`. */
  function ValidateTitle(title: string, pages: PagesOracle, search: SearchOracle, blacklist: BlacklistOracle,
                         lower: LowerOracle)
    : (r: Result<Verdict>)
    ensures !StartsWith(title, FilePrefix) ==> r == Err(AssertionError)
    ensures StartsWith(title, FilePrefix) && Utf8Length(title) > MaxTitleBytes ==> r == Ok(TooLong)
    ensures StartsWith(title, FilePrefix) && LocalVerdict(title, lower).Some? ==> r == Ok(LocalVerdict(title, lower).value)
    ensures r.Err? ==> r.error in {AssertionError, ValueError, UnknownWikimediaApiException}
  {
    if !StartsWith(title, FilePrefix) then Err(AssertionError)
    else match LocalVerdict(title, lower)
      case Some(v) => Ok(v)
      case None => RemoteVerdict(title, pages, search, blacklist, lower)
  }

  /** A title is accepted only if it passes every check: at most 240
   *  bytes, no image suffix and no forbidden character in its base name,
   *  no page with that title, a dot before its extension, no search hit
   *  equal to it ignoring case, and an "ok" from the title blacklist. */
  lemma AcceptedTitle(title: string, pages: PagesOracle, search: SearchOracle, blacklist: BlacklistOracle,
                      lower: LowerOracle)
    requires ValidateTitle(title, pages, search, blacklist, lower) == Ok(TitleOk)
    ensures StartsWith(title, FilePrefix) && Utf8Length(title) <= MaxTitleBytes
    ensures !HasImageSuffix(BaseName(title), lower) && !HasIllegalChar(BaseName(title))
    ensures pages(title) == {"-1"}
    ensures '.' in WithoutPrefix(title)
    ensures var hits := search(BaseName(title));
      forall i :: 0 <= i < |hits| ==> hits[i].Some? && lower(hits[i].value) != lower(title)
    ensures blacklist(title) == BlacklistResult("ok")
  {
    var parts := RSplit1(WithoutPrefix(title), '.').value;
    assert BaseName(title) == parts.0;
    assert CaseInsensitiveMatch(search(parts.0), title, lower) == Ok(false);
  }

  /** A duplicate is reported only for an existing page with the exact
   *  title or a search hit equal to the title ignoring case. */
  lemma DuplicateTitle(title: string, pages: PagesOracle, search: SearchOracle, blacklist: BlacklistOracle,
                       lower: LowerOracle)
    requires ValidateTitle(title, pages, search, blacklist, lower) == Ok(Duplicate)
    ensures pages(title) != {"-1"} ||
      var hits := search(BaseName(title));
      exists i :: 0 <= i < |hits| && hits[i].Some? && lower(hits[i].value) == lower(title)
  {
    if pages(title) == {"-1"} {
      var parts := RSplit1(WithoutPrefix(title), '.').value;
      assert BaseName(title) == parts.0;
      assert CaseInsensitiveMatch(search(parts.0), title, lower) == Ok(true);
    }
  }

  /** "invalid" comes from the base name's suffix or characters, or from
   *  an `invalidtitle` error of the blacklist; "blacklisted" only from a
   *  blacklist result other than "ok". */
  lemma RejectedTitle(title: string, pages: PagesOracle, search: SearchOracle, blacklist: BlacklistOracle,
                      lower: LowerOracle)
    ensures ValidateTitle(title, pages, search, blacklist, lower) == Ok(Invalid) ==>
      HasImageSuffix(BaseName(title), lower) || HasIllegalChar(BaseName(title)) || blacklist(title) == ApiError("invalidtitle")
    ensures ValidateTitle(title, pages, search, blacklist, lower) == Ok(Blacklisted) ==>
      blacklist(title).BlacklistResult? && blacklist(title).result != "ok"
  {
  }

  /** A title that fails a local check is rejected without consulting
   *  Commons: the answer does not depend on the oracles. */
  lemma LocalChecksComeFirst(title: string, pages: PagesOracle, search: SearchOracle, blacklist: BlacklistOracle,
                             pages': PagesOracle, search': SearchOracle, blacklist': BlacklistOracle,
                             lower: LowerOracle)
    requires !StartsWith(title, FilePrefix) || LocalVerdict(title, lower).Some?
    ensures ValidateTitle(title, pages, search, blacklist, lower) == ValidateTitle(title, pages', search', blacklist', lower)
  {
  }
}
