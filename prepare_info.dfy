/** The helpers behind the "prepare info" page, where a user gives each
 *  selected photo a title, a caption and categories before the upload:
 *  shortening a Flickr description for display (`truncate_description`),
 *  turning the submitted form into upload requests
 *  (`create_upload_requests`) and choosing the caption language.
 *
 *  Two generations are modelled: src/flickypedia/uploadr/views/prepare_info.py
 *  (the current one) and src/flickypedia/views/prepare_info.py (the older
 *  one). */
module PrepareInfo {
  import opened Wrappers
  import opened Text
  import Photos
  import Uploads
  import TitleValidation

  // ---------------------------------------------------------------------
  // truncate_description
  // ---------------------------------------------------------------------

  /** The thresholds of one generation of `truncate_description`: how many
   *  lines are kept, how long a text may be and still be shown whole, and
   *  where a longer text is cut. */
  datatype Limits = Limits(maxLines: nat, maxLength: nat, cutLength: nat)

  /** The current generation: four lines, 160 characters, cut at 155. */
  const CurrentLimits := Limits(4, 160, 155)

  /** The older generation: five lines, 160 + 20 characters, cut at 160 + 15. */
  const OlderLimits := Limits(5, 180, 175)

  /** A last line of at most this many characters is dropped after a cut. */
  const ShortLine := 10

  /** The mark the older generation puts after a shortened text. */
  const Ellipsis := "\U{2026}"

  /** A shortened description and whether anything was taken away. */
  datatype Truncation = Truncation(text: string, truncated: bool)

  /** No white space at either end, as `str.strip()` leaves a string. */
  predicate IsStripped(s: string) {
    s == [] || (!IsSpace(s[0]) && !IsSpace(s[|s| - 1]))
  }

  /** `d[:n]`. */
  function Prefix(d: string, n: nat): (p: string)
    ensures |p| <= n && StartsWith(d, p)
    ensures n <= |d| ==> |p| == n
    ensures |d| <= n ==> p == d
  {
    if n <= |d| then d[..n] else d
  }

  /** `d, _ = d.rsplit(" ", 1)`: everything before the last space; the
   *  unpacking fails with `ValueError` when there is no space. */
  function CutAtLastSpace(d: string): (r: Result<string>)
    ensures r.Err? <==> ' ' !in d
    ensures r.Err? ==> r.error == ValueError
    ensures r.Ok? ==> StartsWith(d, r.value) && |r.value| < |d| && d[|r.value|] == ' ' && ' ' !in d[|r.value| + 1..]
  {
    match RSplit1(d, ' ')
    case None => Err(ValueError)
    case Some(parts) =>
      assert d[..|parts.0|] == parts.0 && d[|parts.0| + 1..] == parts.1;
      Ok(parts.0)
  }

  /** The last line of a text with a line feed is short: at most
   *  `ShortLine` characters follow the last "\n". */
  predicate EndsInShortLine(d: string) {
    exists k :: 0 <= k < |d| && d[k] == '\n' && '\n' !in d[k + 1..] && |d| - k - 1 <= ShortLine
  }

  /** `remainder, last_line = d.rsplit("\n", 1)`, keeping the remainder
   *  when the last line is short and the whole text otherwise (also when
   *  there is no "\n", where the unpacking fails and is caught). */
  function DropShortLastLine(d: string): (r: string)
    ensures StartsWith(d, r)
    ensures r == d <==> !EndsInShortLine(d)
    ensures r != d ==> d[|r|] == '\n' && '\n' !in d[|r| + 1..] && |d| - |r| - 1 <= ShortLine
  {
    match RSplit1(d, '\n')
    case None => d
    case Some(parts) =>
      var k := |parts.0|;
      assert d[..k] == parts.0 && d[k + 1..] == parts.1 && d[k] == '\n';
      forall j | 0 <= j < |d| && d[j] == '\n' && '\n' !in d[j + 1..]
        ensures j == k
      {
      }
      if |parts.1| <= ShortLine then parts.0 else d
  }

  /** Splitting a line without a line boundary off the front of a text. */
  lemma SplitOffLine(x: string, rest: string)
    requires NoLineBreak(x)
    ensures SplitLines(x + "\n" + rest) == [x] + SplitLines(rest)
  {
    var s := x + "\n" + rest;
    var j := LineEnd(s, 0);
    assert s[|x|] == '\n' && IsLineBreak(s[|x|]);
    assert j == |x|;
    assert s[..j] == x && s[j + 1..] == rest;
  }

  /** Lines without line boundaries, joined with "\n", split back into at
   *  most as many lines; into the same lines when the last is not empty. */
  lemma {:induction false} JoinedLines(ls: seq<string>)
    requires forall i :: 0 <= i < |ls| ==> NoLineBreak(ls[i])
    ensures |SplitLines(Join("\n", ls))| <= |ls|
    ensures ls != [] && ls[|ls| - 1] != [] ==> SplitLines(Join("\n", ls)) == ls
    decreases |ls|
  {
    if |ls| == 1 {
      var x := ls[0];
      if x != [] {
        var j := LineEnd(x, 0);
      }
    } else if |ls| > 1 {
      JoinedLines(ls[1..]);
      SplitOffLine(ls[0], Join("\n", ls[1..]));
      assert Join("\n", ls) == ls[0] + "\n" + Join("\n", ls[1..]);
      assert [ls[0]] + ls[1..] == ls;
    }
  }

  /** `truncate_description` with the thresholds of either generation,
   *  returning the text and whether it was shortened (the current
   *  generation's result). */
  function Truncate(d: string, lim: Limits): (r: Result<Truncation>)
    ensures r.Err? ==> r.error == ValueError
    ensures (r.Ok? && !r.value.truncated) <==> (|SplitLines(d)| <= lim.maxLines && |d| <= lim.maxLength)
    ensures r.Ok? && !r.value.truncated ==> r.value.text == d
    ensures |SplitLines(d)| <= lim.maxLines && lim.maxLength < |d| ==>
      (r.Err? <==> ' ' !in Prefix(d, lim.cutLength)) &&
      (r.Ok? ==> |r.value.text| < lim.cutLength && IsStripped(r.value.text))
    decreases if |SplitLines(d)| > lim.maxLines then 1 else 0
  {
    var lines := SplitLines(d);
    if |lines| > lim.maxLines then
      JoinedLines(lines[..lim.maxLines]);
      var shorter :- Truncate(Join("\n", lines[..lim.maxLines]), lim);
      Ok(Truncation(shorter.text, true))
    else if |d| <= lim.maxLength then Ok(Truncation(d, false))
    else
      var cut :- CutAtLastSpace(Prefix(d, lim.cutLength));
      Ok(Truncation(Strip(DropShortLastLine(cut)), true))
  }

  /** The first lines of a text, joined with "\n". */
  function FirstLines(d: string, n: nat): (f: string)
    ensures |SplitLines(f)| <= n
  {
    var lines := SplitLines(d);
    if |lines| <= n then
      JoinedLines(lines);
      Join("\n", lines)
    else
      JoinedLines(lines[..n]);
      Join("\n", lines[..n])
  }

  /** A text with too many lines is shortened to its first lines: it fails
   *  or succeeds as they do, shows what they show, and counts as
   *  truncated; when the first lines are short enough they are shown
   *  whole. */
  lemma FirstLinesKept(d: string, lim: Limits)
    requires |SplitLines(d)| > lim.maxLines
    ensures Truncate(d, lim).Ok? <==> Truncate(FirstLines(d, lim.maxLines), lim).Ok?
    ensures Truncate(d, lim).Ok? ==>
      Truncate(d, lim).value == Truncation(Truncate(FirstLines(d, lim.maxLines), lim).value.text, true)
    ensures |FirstLines(d, lim.maxLines)| <= lim.maxLength ==>
      Truncate(d, lim) == Ok(Truncation(FirstLines(d, lim.maxLines), true))
  {
    var first := FirstLines(d, lim.maxLines);
    assert first == Join("\n", SplitLines(d)[..lim.maxLines]);
    assert |SplitLines(first)| <= lim.maxLines;
  }

  /** Whenever a cut is no longer than the length limit, nothing shown is
   *  longer than the limit. */
  lemma {:induction false} TruncatedLength(d: string, lim: Limits)
    requires lim.cutLength <= lim.maxLength + 1
    ensures Truncate(d, lim).Ok? ==> |Truncate(d, lim).value.text| <= lim.maxLength
  {
    if |SplitLines(d)| > lim.maxLines {
      FirstLinesKept(d, lim);
      var first := FirstLines(d, lim.maxLines);
      assert |SplitLines(first)| <= lim.maxLines;
    }
  }

  /** The current `truncate_description`. */
  function TruncateDescription(d: string): (r: Result<Truncation>)
    ensures r.Ok? ==> |r.value.text| <= CurrentLimits.maxLength
    ensures r.Err? ==> r.error == ValueError
  {
    TruncatedLength(d, CurrentLimits);
    Truncate(d, CurrentLimits)
  }

  /** What the current generation promises: a description of at most four
   *  lines and 160 characters is shown unchanged; a longer one of at most
   *  four lines is cut before its last space within the first 155
   *  characters (failing when there is none), loses a short last line
   *  and is stripped, so it has at most 154 characters. */
  lemma CurrentTruncation(d: string)
    ensures |SplitLines(d)| <= 4 && |d| <= 160 ==> TruncateDescription(d) == Ok(Truncation(d, false))
    ensures |SplitLines(d)| <= 4 && 160 < |d| ==>
      (TruncateDescription(d).Err? <==> ' ' !in d[..155])
    ensures |SplitLines(d)| <= 4 && 160 < |d| && TruncateDescription(d).Ok? ==>
      var t := TruncateDescription(d).value;
      t.truncated && |t.text| <= 154 && IsStripped(t.text)
      && t.text == Strip(DropShortLastLine(CutAtLastSpace(d[..155]).value))
  {
  }

  /** The older `truncate_description`, as written: each level of the
   *  recursion on too many lines puts its own "…" after the text. */
  function OlderTruncateDescriptionAsWritten(d: string): (r: Result<string>)
    ensures r.Err? ==> r.error == ValueError
    ensures |SplitLines(d)| <= OlderLimits.maxLines && |d| <= OlderLimits.maxLength ==> r == Ok(d)
    ensures r.Ok? && r.value != d ==> EndsWith(r.value, Ellipsis)
    decreases if |SplitLines(d)| > OlderLimits.maxLines then 1 else 0
  {
    var lines := SplitLines(d);
    if |lines| > OlderLimits.maxLines then
      JoinedLines(lines[..OlderLimits.maxLines]);
      var shorter :- OlderTruncateDescriptionAsWritten(Join("\n", lines[..OlderLimits.maxLines]));
      Ok(shorter + Ellipsis)
    else if |d| <= OlderLimits.maxLength then Ok(d)
    else
      var cut :- CutAtLastSpace(Prefix(d, OlderLimits.cutLength));
      Ok(Strip(DropShortLastLine(cut)) + Ellipsis)
  }

  /** The older `truncate_description` as evidently intended: the text is
   *  shortened once and a shortened text gets one "…". */
  function OlderTruncateDescription(d: string): (r: Result<string>)
    ensures r.Err? ==> r.error == ValueError
    ensures |SplitLines(d)| <= OlderLimits.maxLines && |d| <= OlderLimits.maxLength ==> r == Ok(d)
    ensures r.Ok? && !(|SplitLines(d)| <= OlderLimits.maxLines && |d| <= OlderLimits.maxLength) ==>
      EndsWith(r.value, Ellipsis) && |r.value| <= OlderLimits.maxLength + 1
      && Truncate(d, OlderLimits).Ok? && r.value[..|r.value| - 1] == Truncate(d, OlderLimits).value.text
  {
    TruncatedLength(d, OlderLimits);
    var t :- Truncate(d, OlderLimits);
    if t.truncated then Ok(t.text + Ellipsis) else Ok(t.text)
  }

  /** The two older versions differ exactly when a text has more than five
   *  lines and its first five lines are themselves too long: then the
   *  version as written ends in "……". */
  lemma OlderVersionsCompared(d: string)
    ensures |SplitLines(d)| <= OlderLimits.maxLines ==>
      OlderTruncateDescriptionAsWritten(d) == OlderTruncateDescription(d)
    ensures |SplitLines(d)| > OlderLimits.maxLines && |FirstLines(d, OlderLimits.maxLines)| <= OlderLimits.maxLength ==>
      OlderTruncateDescriptionAsWritten(d) == OlderTruncateDescription(d)
    ensures |SplitLines(d)| > OlderLimits.maxLines && |FirstLines(d, OlderLimits.maxLines)| > OlderLimits.maxLength ==>
      (OlderTruncateDescriptionAsWritten(d).Ok? <==> OlderTruncateDescription(d).Ok?) &&
      (OlderTruncateDescription(d).Ok? ==>
        OlderTruncateDescriptionAsWritten(d) == Ok(OlderTruncateDescription(d).value + Ellipsis))
  {
    var lim := OlderLimits;
    if |SplitLines(d)| > lim.maxLines {
      var first := FirstLines(d, lim.maxLines);
      assert first == Join("\n", SplitLines(d)[..lim.maxLines]);
      FirstLinesKept(d, lim);
      assert |SplitLines(first)| <= lim.maxLines;
      OlderWithinLines(first);
    } else {
      OlderWithinLines(d);
    }
  }

  /** On a text of at most five lines the two older versions agree, and
   *  both agree with the shared thresholds. */
  lemma OlderWithinLines(d: string)
    requires |SplitLines(d)| <= OlderLimits.maxLines
    ensures OlderTruncateDescriptionAsWritten(d) == OlderTruncateDescription(d)
    ensures Truncate(d, OlderLimits).Ok? <==> OlderTruncateDescription(d).Ok?
    ensures Truncate(d, OlderLimits).Ok? ==>
      OlderTruncateDescription(d).value ==
        if Truncate(d, OlderLimits).value.truncated then Truncate(d, OlderLimits).value.text + Ellipsis else d
  {
  }

  /** The input that shows the doubled mark: six lines of which the
   *  first five, joined, are longer than 180 characters with a space in
   *  the first 175. */
  lemma DoubledEllipsis(d: string)
    requires |SplitLines(d)| > OlderLimits.maxLines
    requires |FirstLines(d, OlderLimits.maxLines)| > OlderLimits.maxLength
    requires ' ' in FirstLines(d, OlderLimits.maxLines)[..OlderLimits.cutLength]
    ensures OlderTruncateDescriptionAsWritten(d).Ok?
    ensures EndsWith(OlderTruncateDescriptionAsWritten(d).value, Ellipsis + Ellipsis)
  {
    var first := FirstLines(d, OlderLimits.maxLines);
    assert |SplitLines(first)| <= OlderLimits.maxLines;
    assert Prefix(first, OlderLimits.cutLength) == first[..OlderLimits.cutLength];
    assert Truncate(first, OlderLimits).Ok?;
    FirstLinesKept(d, OlderLimits);
    assert OlderTruncateDescription(d).Ok?;
    OlderVersionsCompared(d);
    DoubledMark(OlderTruncateDescription(d).value);
  }

  /** A text ending in "…" with another "…" after it ends in "……". */
  lemma DoubledMark(r: string)
    requires EndsWith(r, Ellipsis)
    ensures EndsWith(r + Ellipsis, Ellipsis + Ellipsis)
  {
    var w := r + Ellipsis;
    assert w[|w| - 2..] == r[|r| - 1..] + Ellipsis;
  }

  // ---------------------------------------------------------------------
  // create_upload_requests
  // ---------------------------------------------------------------------

  /** The fields of one photo's sub-form (`WikiFieldsForm`). */
  datatype PhotoFields = PhotoFields(title: string, shortCaption: string, categories: string)

  /** A request of the current generation (`UploadRequest`); the photo and
   *  its structured data are carried through unchanged. */
  datatype UploadRequest<P, C> = UploadRequest(
    photo: P, sdc: C, title: string, caption: Uploads.Caption, categories: seq<string>, username: string)

  /** A request of the older generation: the categories are the text as
   *  typed, and there is no user name. */
  datatype OlderUploadRequest<P, C> = OlderUploadRequest(
    photo: P, sdc: C, title: string, caption: Uploads.Caption, categories: string)

  /** The form key of a photo's sub-form, `f"photo_{id}"`. */
  function FormKey(photoId: string): (k: string)
    ensures StartsWith(k, "photo_") && k[6..] == photoId
  {
    "photo_" + photoId
  }

  /** Distinct photos have distinct form keys. */
  lemma FormKeyInjective(a: string, b: string)
    requires FormKey(a) == FormKey(b)
    ensures a == b
  {
    assert a == FormKey(a)[6..];
  }

  /** The name of the new file: the title typed in the form, a dot and the
   *  photo's original format. */
  function FileName(title: string, originalFormat: string): (n: string)
    ensures |n| == |title| + 1 + |originalFormat|
    ensures StartsWith(n, title) && n[|title|] == '.' && n[|title| + 1..] == originalFormat
  {
    title + "." + originalFormat
  }

  /** The categories typed one per line: `text.strip().splitlines()`. */
  function Categories(text: string): (cs: seq<string>)
    ensures forall i :: 0 <= i < |cs| ==> NoLineBreak(cs[i])
  {
    SplitLines(Strip(text))
  }

  /** Categories typed one per line, without white space at the ends of the
   *  text, come back as typed. */
  lemma CategoriesRoundTrip(cs: seq<string>)
    requires forall i :: 0 <= i < |cs| ==> cs[i] != [] && NoLineBreak(cs[i])
    requires IsStripped(Join("\n", cs))
    ensures Categories(Join("\n", cs)) == cs
  {
    var t := Join("\n", cs);
    assert StripLeft(t) == t;
    assert StripRight(t) == t;
    if cs != [] {
      JoinedLines(cs);
    }
  }

  /** The current `create_upload_requests`, with `current_user.name` as
   *  `username` and the photo's `id` and `original_format` as accessors.
   *  A photo without a sub-form fails with `KeyError`. */
  method CreateUploadRequests<P, C>(
    photos: seq<Photos.Enriched<P, C>>, formData: map<string, PhotoFields>, language: string, username: string,
    photoId: P -> string, originalFormat: P -> string)
    returns (r: Result<seq<UploadRequest<P, C>>>)
    ensures r.Err? <==> exists i :: 0 <= i < |photos| && FormKey(photoId(photos[i].photo)) !in formData
    ensures r.Err? ==> r.error == KeyError
    ensures r.Ok? ==> |r.value| == |photos|
    ensures r.Ok? ==> forall i :: 0 <= i < |photos| ==>
      var fields := formData[FormKey(photoId(photos[i].photo))];
      r.value[i] == UploadRequest(
        photos[i].photo, photos[i].sdc, FileName(fields.title, originalFormat(photos[i].photo)),
        Uploads.Caption(language, fields.shortCaption), Categories(fields.categories), username)
  {
    var requests: seq<UploadRequest<P, C>> := [];
    for i := 0 to |photos|
      invariant |requests| == i
      invariant forall k :: 0 <= k < i ==> FormKey(photoId(photos[k].photo)) in formData
      invariant forall k :: 0 <= k < i ==>
        var fields := formData[FormKey(photoId(photos[k].photo))];
        requests[k] == UploadRequest(
          photos[k].photo, photos[k].sdc, FileName(fields.title, originalFormat(photos[k].photo)),
          Uploads.Caption(language, fields.shortCaption), Categories(fields.categories), username)
    {
      var photo := photos[i].photo;
      var key := FormKey(photoId(photo));
      if key !in formData {
        return Err(KeyError);
      }
      var fields := formData[key];
      requests := requests + [UploadRequest(
        photo, photos[i].sdc, FileName(fields.title, originalFormat(photo)),
        Uploads.Caption(language, fields.shortCaption), Categories(fields.categories), username)];
    }
    return Ok(requests);
  }

  /** The form data of the older generation: the sub-forms and the
   *  `language` select field. */
  datatype OlderFormData = OlderFormData(photos: map<string, PhotoFields>, language: string)

  /** The older `create_upload_requests`: the language comes from the form
   *  and the categories are passed on as typed. */
  method OlderCreateUploadRequests<P, C>(
    photos: seq<Photos.Enriched<P, C>>, formData: OlderFormData, photoId: P -> string, originalFormat: P -> string)
    returns (r: Result<seq<OlderUploadRequest<P, C>>>)
    ensures r.Err? <==> exists i :: 0 <= i < |photos| && FormKey(photoId(photos[i].photo)) !in formData.photos
    ensures r.Err? ==> r.error == KeyError
    ensures r.Ok? ==> |r.value| == |photos|
    ensures r.Ok? ==> forall i :: 0 <= i < |photos| ==>
      var fields := formData.photos[FormKey(photoId(photos[i].photo))];
      r.value[i] == OlderUploadRequest(
        photos[i].photo, photos[i].sdc, FileName(fields.title, originalFormat(photos[i].photo)),
        Uploads.Caption(formData.language, fields.shortCaption), fields.categories)
  {
    var requests: seq<OlderUploadRequest<P, C>> := [];
    for i := 0 to |photos|
      invariant |requests| == i
      invariant forall k :: 0 <= k < i ==> FormKey(photoId(photos[k].photo)) in formData.photos
      invariant forall k :: 0 <= k < i ==>
        var fields := formData.photos[FormKey(photoId(photos[k].photo))];
        requests[k] == OlderUploadRequest(
          photos[k].photo, photos[k].sdc, FileName(fields.title, originalFormat(photos[k].photo)),
          Uploads.Caption(formData.language, fields.shortCaption), fields.categories)
    {
      var photo := photos[i].photo;
      var key := FormKey(photoId(photo));
      if key !in formData.photos {
        return Err(KeyError);
      }
      var fields := formData.photos[key];
      requests := requests + [OlderUploadRequest(
        photo, photos[i].sdc, FileName(fields.title, originalFormat(photo)),
        Uploads.Caption(formData.language, fields.shortCaption), fields.categories)];
    }
    return Ok(requests);
  }

  // ---------------------------------------------------------------------
  // The title check of the sub-form
  // ---------------------------------------------------------------------

  /** `WikiFieldsForm.validate_title`: the title sent to Commons for
   *  checking is the request's file name behind "File:". */
  function TitleToValidate(title: string, originalFormat: string): (t: string)
    ensures StartsWith(t, TitleValidation.FilePrefix)
    ensures t[|TitleValidation.FilePrefix|..] == FileName(title, originalFormat)
  {
    TitleValidation.FilePrefix + FileName(title, originalFormat)
  }

  /** The title the form checks always has its "File:" prefix, so the
   *  check never stops at that assertion: its verdict is the local one or,
   *  failing that, the remote one. */
  lemma FormTitleIsChecked(
    title: string, originalFormat: string, pages: TitleValidation.PagesOracle,
    search: TitleValidation.SearchOracle, blacklist: TitleValidation.BlacklistOracle,
    lower: TitleValidation.LowerOracle)
    ensures var t := TitleToValidate(title, originalFormat);
      TitleValidation.ValidateTitle(t, pages, search, blacklist, lower) ==
        if TitleValidation.LocalVerdict(t, lower).Some? then Ok(TitleValidation.LocalVerdict(t, lower).value)
        else TitleValidation.RemoteVerdict(t, pages, search, blacklist, lower)
  {
  }

  // ---------------------------------------------------------------------
  // Language selection (PrepareInfoFormBase)
  // ---------------------------------------------------------------------

  /** A language picked in the JavaScript search field (`LanguageMatch`). */
  datatype LanguageMatch = LanguageMatch(id: string, languageLabel: string, matchText: Option<string>)

  /** `json.loads` followed by `validate_type(..., model=LanguageMatch)`;
   *  `None` when either raises. */
  type LanguageDecoder = string -> Option<LanguageMatch>

  /** The three language fields of the form: the hidden `js_enabled`
   *  checkbox, the no-JS select field and the JS text field (whose data
   *  may be missing). */
  datatype LanguageFields = LanguageFields(jsEnabled: bool, noJsLanguage: string, jsLanguage: Option<string>)

  /** `get_js_language`. */
  function JsLanguage(form: LanguageFields, decode: LanguageDecoder): (m: Option<LanguageMatch>)
    ensures m.Some? ==> form.jsLanguage.Some? && decode(form.jsLanguage.value) == m
  {
    if form.jsLanguage.Some? then decode(form.jsLanguage.value) else None
  }

  /** `validate_no_js_language`: the form needs a decodable JS language or
   *  a non-empty no-JS language. */
  function ValidateNoJsLanguage(form: LanguageFields, decode: LanguageDecoder): (r: Result<()>)
    ensures r.Err? <==> JsLanguage(form, decode).None? && form.noJsLanguage == ""
    ensures r.Err? ==> r.error == ValidationError
  {
    if JsLanguage(form, decode).None? && form.noJsLanguage == "" then Err(ValidationError) else Ok(())
  }

  /** The `language` property. */
  function Language(form: LanguageFields, decode: LanguageDecoder): (r: Result<string>)
    ensures form.jsEnabled ==> (r.Ok? <==> JsLanguage(form, decode).Some?)
    ensures form.jsEnabled && r.Ok? ==> r.value == JsLanguage(form, decode).value.id
    ensures !form.jsEnabled ==> r == Ok(form.noJsLanguage)
    ensures r.Err? ==> r.error == ValidationError
  {
    if form.jsEnabled then
      match JsLanguage(form, decode)
      case None => Err(ValidationError)
      case Some(m) => Ok(m.id)
    else Ok(form.noJsLanguage)
  }

  /** On a validated form the language is always there: the JS one when
   *  JavaScript is on and it decodes, the select value otherwise; that
   *  value is empty only when a decodable JS language was sent as well. */
  lemma ValidatedLanguage(form: LanguageFields, decode: LanguageDecoder)
    requires ValidateNoJsLanguage(form, decode).Ok?
    requires form.jsEnabled ==> JsLanguage(form, decode).Some?
    ensures Language(form, decode).Ok?
    ensures !form.jsEnabled ==> Language(form, decode).value == form.noJsLanguage
    ensures Language(form, decode).value == "" ==>
      JsLanguage(form, decode).Some? && (form.jsEnabled ==> JsLanguage(form, decode).value.id == "")
  {
  }
}
