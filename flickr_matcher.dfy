/** Finding the Flickr photo a Commons file was copied from, using its
 *  structured data (src/flickypedia/backfillr/flickr_matcher.py). */
module FlickrMatcher {
  import opened Wrappers
  import opened Text
  import opened Sdc
  import opened FlickrUrls
  import opened WikidataValues
  import opened Comparisons
  import WikidataProperties
  import WikidataEntities

  /** `FindResult`: a photo id and, when one was found, the best URL for it. */
  datatype FindResult = FindResult(photoId: string, url: Option<string>)

  // ---------------------------------------------------------------------
  // pick_best_url

  /** The non-None entries, in order. */
  function Present(urls: seq<Option<string>>): (r: seq<string>)
    ensures forall u :: u in r <==> Some(u) in urls
  {
    if urls == [] then []
    else
      var rest := Present(urls[1..]);
      assert forall u :: Some(u) in urls <==> Some(u) == urls[0] || Some(u) in urls[1..];
      if urls[0].Some? then [urls[0].value] + rest else rest
  }

  /** The greatest string of a non-empty list. */
  function MaxString(ss: seq<string>): (m: string)
    requires ss != []
    ensures m in ss && forall u :: u in ss ==> LexLe(u, m)
  {
    if |ss| == 1 then
      LexLeTotalOrder(ss[0], ss[0], ss[0]);
      ss[0]
    else
      var m := MaxString(ss[1..]);
      assert forall u :: u in ss ==> u == ss[0] || u in ss[1..];
      LexLeTotalOrder(ss[0], m, m);
      forall u | u in ss[1..] ensures LexLe(u, m) && (LexLe(m, ss[0]) ==> LexLe(u, ss[0])) {
        LexLeTotalOrder(u, m, ss[0]);
      }
      if LexLe(ss[0], m) then m else ss[0]
  }

  /** `pick_best_url`: the alphabetically last of the URLs that are not
   *  None; with none of them the assertion fails. */
  function PickBestUrl(urls: seq<Option<string>>): (r: Result<string>)
    ensures r.Err? <==> forall u :: u in urls ==> u.None?
    ensures r.Err? ==> r.error == AssertionError
    ensures r.Ok? ==> Some(r.value) in urls && forall u :: Some(u) in urls ==> LexLe(u, r.value)
  {
    if forall u :: u in urls ==> u.None? then Err(AssertionError)
    else
      var present := Present(urls);
      var u :| u in urls && u.Some?;
      assert u.value in present;
      Ok(MaxString(present))
  }

  /** The pick depends only on the set of URLs, not on how they were
   *  listed or repeated. */
  lemma PickBestUrlOfSet(a: seq<Option<string>>, b: seq<Option<string>>)
    requires forall u :: u in a <==> u in b
    ensures PickBestUrl(a) == PickBestUrl(b)
  {
    var ra, rb := PickBestUrl(a), PickBestUrl(b);
    if ra.Ok? && rb.Ok? {
      LexLeTotalOrder(ra.value, rb.value, rb.value);
    }
  }

  // ---------------------------------------------------------------------
  // get_single_qualifier

  /** `get_single_qualifier`: the one snak for a qualifier property, None
   *  when there is none; several raise AmbiguousStructuredData (or
   *  KeyError while building the message, for a statement without id). */
  function GetSingleQualifier(st: Statement, property: string): (r: Result<Option<Snak>>)
    ensures var snaks := ExistingSnaks(st.qualifiers.UnwrapOr([]), property);
      && (r == Ok(None) <==> snaks == [])
      && (|snaks| == 1 ==> r == Ok(Some(snaks[0])))
      && (|snaks| > 1 ==> r == Err(if st.id.Some? then AmbiguousStructuredData else KeyError))
  {
    var snaks := ExistingSnaks(st.qualifiers.UnwrapOr([]), property);
    if |snaks| == 0 then Ok(None)
    else if |snaks| != 1 then
      if st.id.Some? then Err(AmbiguousStructuredData) else Err(KeyError)
    else Ok(Some(snaks[0]))
  }

  // ---------------------------------------------------------------------
  // find_flickr_urls_in_sdc

  /** The data value `to_wikidata_entity_value(WikidataEntities.Flickr)`. */
  const FlickrEntityValue: DataValue := EntityIdValue(Some("item"), WikidataEntities.Flickr, Some(103204))

  lemma FlickrEntityValueEncoded()
    ensures ToWikidataEntityValue(WikidataEntities.Flickr) == Ok(FlickrEntityValue)
  {
    var id := WikidataEntities.Flickr;
    assert id[1..] == "103204";
    assert IsEntityId(id);
    assert EntityDigits(id) == "103204";
    assert "1"[..0] == [];
    assert DigitsToNat("1") == 1;
    assert "10"[..1] == "1";
    assert DigitsToNat("10") == 10;
    assert "103"[..2] == "10";
    assert DigitsToNat("103") == 103;
    assert "1032"[..3] == "103";
    assert DigitsToNat("1032") == 1032;
    assert "10320"[..4] == "1032";
    assert DigitsToNat("10320") == 10320;
    assert "103204"[..5] == "10320";
  }

  /** The Flickr URLs found in the optional URL qualifiers: string values
   *  that parse; non-string values are skipped, a snak without data value
   *  raises KeyError. */
  function ParsedUrls(parse: UrlParser, us: seq<Option<Snak>>): (r: Result<seq<(string, FlickrUrl)>>)
    ensures r.Ok? ==> forall e :: e in r.value ==> parse(e.0) == Parsed(e.1)
    ensures r.Err? ==> r.error == KeyError
  {
    if us == [] then Ok([])
    else
      var first: seq<(string, FlickrUrl)> :-
        match us[0]
        case None => Ok([])
        case Some(u) =>
          if u.datavalue.None? then Err(KeyError)
          else if !u.datavalue.value.StringValue? then Ok([])
          else match parse(u.datavalue.value.str)
            case Parsed(url) => Ok([(u.datavalue.value.str, url)])
            case _ => Ok([]);
      var rest :- ParsedUrls(parse, us[1..]);
      Ok(first + rest)
  }

  /** The Flickr URL one optional qualifier holds: its string value with
   *  what the parser makes of it, when the parser recognises it. */
  function UrlIn(parse: UrlParser, u: Option<Snak>): (r: seq<(string, FlickrUrl)>)
    ensures |r| <= 1
    ensures r != [] <==>
      u.Some? && u.value.datavalue.Some? && u.value.datavalue.value.StringValue?
      && parse(u.value.datavalue.value.str).Parsed?
    ensures r != [] ==> r[0] == (u.value.datavalue.value.str, parse(u.value.datavalue.value.str).url)
  {
    if u.Some? && u.value.datavalue.Some? && u.value.datavalue.value.StringValue?
       && parse(u.value.datavalue.value.str).Parsed?
    then [(u.value.datavalue.value.str, parse(u.value.datavalue.value.str).url)]
    else []
  }

  /** The qualifiers raise exactly when one of them lacks its data value;
   *  otherwise the URLs kept are exactly the Flickr URLs they hold. */
  lemma {:induction false} ParsedUrlsMeaning(parse: UrlParser, us: seq<Option<Snak>>)
    ensures ParsedUrls(parse, us).Err? <==> exists i :: 0 <= i < |us| && us[i].Some? && us[i].value.datavalue.None?
    ensures ParsedUrls(parse, us).Ok? ==>
      forall e :: e in ParsedUrls(parse, us).value <==> exists i :: 0 <= i < |us| && e in UrlIn(parse, us[i])
  {
    if us != [] {
      ParsedUrlsMeaning(parse, us[1..]);
      assert forall i :: 0 < i < |us| ==> us[i] == us[1..][i - 1];
      var r := ParsedUrls(parse, us);
      if r.Ok? {
        var rest := ParsedUrls(parse, us[1..]);
        assert r.value == UrlIn(parse, us[0]) + rest.value;
        forall e | exists i :: 0 <= i < |us| && e in UrlIn(parse, us[i])
          ensures e in r.value
        {
          var i :| 0 <= i < |us| && e in UrlIn(parse, us[i]);
          if i > 0 {
            assert e in UrlIn(parse, us[1..][i - 1]);
          }
        }
      }
    }
  }

  /** The two qualifiers of a statement give the Flickr URL of the first,
   *  then that of the second, unless one lacks its data value. */
  lemma {:induction false} ParsedUrlsPair(parse: UrlParser, a: Option<Snak>, b: Option<Snak>)
    ensures ParsedUrls(parse, [a, b]) ==
      if (a.Some? && a.value.datavalue.None?) || (b.Some? && b.value.datavalue.None?) then Err(KeyError)
      else Ok(UrlIn(parse, a) + UrlIn(parse, b))
  {
    assert [a, b][1..] == [b];
    assert [b][1..] == [];
    assert ParsedUrls(parse, []) == Ok([]);
    assert UrlIn(parse, b) + [] == UrlIn(parse, b);
    ParsedUrlsFirst(parse, [b]);
    ParsedUrlsFirst(parse, [a, b]);
  }

  /** The first qualifier raises, or contributes its Flickr URL before
   *  those of the rest. */
  lemma ParsedUrlsFirst(parse: UrlParser, us: seq<Option<Snak>>)
    requires us != []
    ensures ParsedUrls(parse, us) ==
      if us[0].Some? && us[0].value.datavalue.None? then Err(KeyError)
      else match ParsedUrls(parse, us[1..])
        case Ok(rest) => Ok(UrlIn(parse, us[0]) + rest)
        case Err(e) => Err(e)
  {
  }

  /** The URLs one "source of file" statement contributes: nothing when
   *  its operator is present and is not Flickr; otherwise its URL
   *  qualifier, then its "described at URL" qualifier. */
  function UrlsOfStatement(parse: UrlParser, st: Statement): (r: Result<seq<(string, FlickrUrl)>>)
    ensures r.Ok? ==> forall e :: e in r.value ==> parse(e.0) == Parsed(e.1)
    ensures GetSingleQualifier(st, WikidataProperties.Operator).Ok? ==>
      var op := GetSingleQualifier(st, WikidataProperties.Operator).value;
      op.Some? && op.value.datavalue.Some? && op.value.datavalue != Some(FlickrEntityValue) ==> r == Ok([])
  {
    var operator :- GetSingleQualifier(st, WikidataProperties.Operator);
    if operator.Some? && operator.value.datavalue.None? then Err(KeyError)
    else if operator.Some? && operator.value.datavalue != Some(FlickrEntityValue) then Ok([])
    else
      var url :- GetSingleQualifier(st, WikidataProperties.Url);
      var publishedAt :- GetSingleQualifier(st, WikidataProperties.DescribedAtUrl);
      ParsedUrls(parse, [url, publishedAt])
  }

  /** What `find_flickr_urls_in_sdc` returns for the statements still to
   *  be scanned, after those already found. */
  function UrlsFrom(parse: UrlParser, acc: seq<(string, FlickrUrl)>, sts: seq<Statement>): (r: Result<seq<(string, FlickrUrl)>>)
    ensures r.Ok? ==> forall e :: e in r.value ==> e in acc || parse(e.0) == Parsed(e.1)
    decreases |sts|
  {
    if sts == [] then Ok(acc)
    else
      var found :- UrlsOfStatement(parse, sts[0]);
      UrlsFrom(parse, acc + found, sts[1..])
  }

  /** A statement with no Operator qualifier, or one naming Flickr, whose
   *  URL and "described at URL" qualifiers are single and carry data
   *  values, contributes the Flickr URL of the first, then that of the
   *  second. */
  lemma UrlsOfStatementMeaning(parse: UrlParser, st: Statement, url: Option<Snak>, describedAt: Option<Snak>)
    requires GetSingleQualifier(st, WikidataProperties.Operator).Ok?
    requires var op := GetSingleQualifier(st, WikidataProperties.Operator).value;
      op.None? || op.value.datavalue == Some(FlickrEntityValue)
    requires GetSingleQualifier(st, WikidataProperties.Url) == Ok(url)
    requires GetSingleQualifier(st, WikidataProperties.DescribedAtUrl) == Ok(describedAt)
    requires url.Some? ==> url.value.datavalue.Some?
    requires describedAt.Some? ==> describedAt.value.datavalue.Some?
    ensures UrlsOfStatement(parse, st) == Ok(UrlIn(parse, url) + UrlIn(parse, describedAt))
  {
    ParsedUrlsPair(parse, url, describedAt);
  }

  /** When one statement raises: an ambiguous Operator qualifier, an
   *  Operator without data value, or, for a Flickr source, an ambiguous
   *  URL or "described at URL" qualifier or one without data value. */
  lemma UrlsOfStatementFails(parse: UrlParser, st: Statement)
    ensures var op := GetSingleQualifier(st, WikidataProperties.Operator);
      var url := GetSingleQualifier(st, WikidataProperties.Url);
      var describedAt := GetSingleQualifier(st, WikidataProperties.DescribedAtUrl);
      UrlsOfStatement(parse, st).Err? <==>
        || op.Err?
        || (op.value.Some? && op.value.value.datavalue.None?)
        || (&& (op.value.None? || op.value.value.datavalue == Some(FlickrEntityValue))
            && (|| url.Err? || describedAt.Err?
                || (url.value.Some? && url.value.value.datavalue.None?)
                || (describedAt.value.Some? && describedAt.value.value.datavalue.None?)))
  {
    var url := GetSingleQualifier(st, WikidataProperties.Url);
    var describedAt := GetSingleQualifier(st, WikidataProperties.DescribedAtUrl);
    if url.Ok? && describedAt.Ok? {
      ParsedUrlsPair(parse, url.value, describedAt.value);
    }
  }

  /** The URLs of the statements, each statement's in turn; the first
   *  statement that raises decides the exception. */
  function UrlsOfStatements(parse: UrlParser, sts: seq<Statement>): (r: Result<seq<(string, FlickrUrl)>>)
    ensures r.Ok? ==> forall e :: e in r.value ==> parse(e.0) == Parsed(e.1)
  {
    if sts == [] then Ok([])
    else
      var found :- UrlsOfStatement(parse, sts[0]);
      var rest :- UrlsOfStatements(parse, sts[1..]);
      Ok(found + rest)
  }

  /** The scan fails exactly when some statement raises, with the
   *  exception of the first one that does; otherwise it holds exactly the
   *  URLs the statements contribute. */
  lemma UrlsOfStatementsMeaning(parse: UrlParser, sts: seq<Statement>)
    ensures var r := UrlsOfStatements(parse, sts);
      && (r.Err? <==> exists i :: 0 <= i < |sts| && UrlsOfStatement(parse, sts[i]).Err?)
      && (r.Err? ==> exists i :: (0 <= i < |sts| && UrlsOfStatement(parse, sts[i]) == Err(r.error)
            && forall j :: 0 <= j < i ==> UrlsOfStatement(parse, sts[j]).Ok?))
      && (r.Ok? ==> forall e :: e in r.value <==>
            exists i :: 0 <= i < |sts| && UrlsOfStatement(parse, sts[i]).Ok? && e in UrlsOfStatement(parse, sts[i]).value)
  {
    UrlsOfStatementsFailure(parse, sts);
    UrlsOfStatementsContents(parse, sts);
  }

  /** The failing case: the exception of the first statement that raises. */
  lemma {:induction false} UrlsOfStatementsFailure(parse: UrlParser, sts: seq<Statement>)
    ensures var r := UrlsOfStatements(parse, sts);
      && (r.Err? <==> exists i :: 0 <= i < |sts| && UrlsOfStatement(parse, sts[i]).Err?)
      && (r.Err? ==> exists i :: (0 <= i < |sts| && UrlsOfStatement(parse, sts[i]) == Err(r.error)
            && forall j :: 0 <= j < i ==> UrlsOfStatement(parse, sts[j]).Ok?))
  {
    if sts != [] {
      UrlsOfStatementsFailure(parse, sts[1..]);
      assert forall i :: 0 < i < |sts| ==> sts[i] == sts[1..][i - 1];
      var r := UrlsOfStatements(parse, sts);
      var first := UrlsOfStatement(parse, sts[0]);
      if first.Ok? {
        var rest := UrlsOfStatements(parse, sts[1..]);
        if rest.Err? {
          var i :| 0 <= i < |sts[1..]| && UrlsOfStatement(parse, sts[1..][i]) == Err(rest.error)
            && forall j :: 0 <= j < i ==> UrlsOfStatement(parse, sts[1..][j]).Ok?;
          assert UrlsOfStatement(parse, sts[i + 1]) == Err(r.error);
          assert forall j :: 0 <= j < i + 1 ==> UrlsOfStatement(parse, sts[j]).Ok?;
        } else {
          assert !exists i :: 0 <= i < |sts| && UrlsOfStatement(parse, sts[i]).Err?;
        }
      }
    }
  }

  /** The succeeding case: exactly the URLs the statements contribute. */
  lemma {:induction false} UrlsOfStatementsContents(parse: UrlParser, sts: seq<Statement>)
    ensures var r := UrlsOfStatements(parse, sts);
      r.Ok? ==> forall e :: e in r.value <==>
        exists i :: 0 <= i < |sts| && UrlsOfStatement(parse, sts[i]).Ok? && e in UrlsOfStatement(parse, sts[i]).value
  {
    if sts != [] && UrlsOfStatements(parse, sts).Ok? {
      var tail := sts[1..];
      UrlsOfStatementsContents(parse, tail);
      var first := UrlsOfStatement(parse, sts[0]).value;
      var rest := UrlsOfStatements(parse, tail).value;
      assert UrlsOfStatements(parse, sts).value == first + rest;
      forall e ensures e in first + rest <==>
        exists i :: 0 <= i < |sts| && UrlsOfStatement(parse, sts[i]).Ok? && e in UrlsOfStatement(parse, sts[i]).value
      {
        ContentsStep(parse, sts, e);
      }
    }
  }

  lemma ContentsStep(parse: UrlParser, sts: seq<Statement>, e: (string, FlickrUrl))
    requires sts != [] && UrlsOfStatement(parse, sts[0]).Ok?
    requires UrlsOfStatements(parse, sts[1..]).Ok?
    requires e in UrlsOfStatements(parse, sts[1..]).value <==>
      exists i :: 0 <= i < |sts[1..]| && UrlsOfStatement(parse, sts[1..][i]).Ok? && e in UrlsOfStatement(parse, sts[1..][i]).value
    ensures e in UrlsOfStatement(parse, sts[0]).value + UrlsOfStatements(parse, sts[1..]).value <==>
      exists i :: 0 <= i < |sts| && UrlsOfStatement(parse, sts[i]).Ok? && e in UrlsOfStatement(parse, sts[i]).value
  {
    if exists i :: 0 <= i < |sts| && UrlsOfStatement(parse, sts[i]).Ok? && e in UrlsOfStatement(parse, sts[i]).value {
      var i :| 0 <= i < |sts| && UrlsOfStatement(parse, sts[i]).Ok? && e in UrlsOfStatement(parse, sts[i]).value;
      if i > 0 {
        assert sts[1..][i - 1] == sts[i];
      }
    }
    if e in UrlsOfStatements(parse, sts[1..]).value {
      var i :| 0 <= i < |sts[1..]| && UrlsOfStatement(parse, sts[1..][i]).Ok? && e in UrlsOfStatement(parse, sts[1..][i]).value;
      assert sts[1..][i] == sts[i + 1];
    }
  }

  /** The scan over the statements returns what was already found, then
   *  each statement's URLs in order, or the first exception. */
  lemma {:induction false} UrlsFromIsAccThenStatements(parse: UrlParser, acc: seq<(string, FlickrUrl)>, sts: seq<Statement>)
    ensures UrlsFrom(parse, acc, sts) ==
      match UrlsOfStatements(parse, sts)
      case Ok(found) => Ok(acc + found)
      case Err(e) => Err(e)
    decreases |sts|
  {
    if sts == [] {
      assert acc + [] == acc;
    } else {
      var first := UrlsOfStatement(parse, sts[0]);
      if first.Ok? {
        UrlsFromIsAccThenStatements(parse, acc + first.value, sts[1..]);
        var rest := UrlsOfStatements(parse, sts[1..]);
        if rest.Ok? {
          assert acc + first.value + rest.value == acc + (first.value + rest.value);
        }
      }
    }
  }

  /** Started with nothing found, the scan returns each statement's URLs
   *  in order, or the first exception. */
  lemma UrlsFromStart(parse: UrlParser, sts: seq<Statement>)
    ensures UrlsFrom(parse, [], sts) == UrlsOfStatements(parse, sts)
  {
    UrlsFromIsAccThenStatements(parse, [], sts);
    assert UrlsOfStatements(parse, sts).Ok? ==> [] + UrlsOfStatements(parse, sts).value == UrlsOfStatements(parse, sts).value;
  }

  /** `sdc.get(pid, [])`. */
  function StatementsOf(sdc: ExistingClaims, pid: string): seq<Statement> {
    if pid in sdc then sdc[pid] else []
  }

  /** The inner loop of `find_flickr_urls_in_sdc` over the URL and
   *  "described at URL" qualifiers of one statement. */
  method CollectParsedUrls(parse: UrlParser, us: seq<Option<Snak>>) returns (r: Result<seq<(string, FlickrUrl)>>)
    ensures r == ParsedUrls(parse, us)
  {
    var found: seq<(string, FlickrUrl)> := [];
    var j := 0;
    while j < |us|
      invariant 0 <= j <= |us|
      invariant ParsedUrls(parse, us).Ok? ==> ParsedUrls(parse, us[j..]).Ok? && ParsedUrls(parse, us).value == found + ParsedUrls(parse, us[j..]).value
      invariant ParsedUrls(parse, us).Err? ==> ParsedUrls(parse, us[j..]).Err?
    {
      assert us[j..][1..] == us[j + 1..];
      var u := us[j];
      j := j + 1;
      if u.None? {
        continue;
      }
      if u.value.datavalue.None? {
        return Err(KeyError);
      }
      if !u.value.datavalue.value.StringValue? {
        continue;
      }
      var value := u.value.datavalue.value.str;
      var parsed := parse(value);
      if parsed.Parsed? {
        found := found + [(value, parsed.url)];
      }
    }
    assert us[j..] == [];
    assert found + [] == found;
    return Ok(found);
  }

  /** `find_flickr_urls_in_sdc`. */
  method FindFlickrUrlsInSdc(parse: UrlParser, sdc: ExistingClaims) returns (r: Result<seq<(string, FlickrUrl)>>)
    ensures r == UrlsFrom(parse, [], StatementsOf(sdc, WikidataProperties.SourceOfFile))
    ensures r.Ok? ==> forall e :: e in r.value ==> parse(e.0) == Parsed(e.1)
  {
    var statements := StatementsOf(sdc, WikidataProperties.SourceOfFile);
    var result: seq<(string, FlickrUrl)> := [];
    var i := 0;
    while i < |statements|
      invariant 0 <= i <= |statements|
      invariant UrlsFrom(parse, result, statements[i..]) == UrlsFrom(parse, [], statements)
    {
      var statement := statements[i];
      assert statements[i..][1..] == statements[i + 1..];
      var operator := GetSingleQualifier(statement, WikidataProperties.Operator);
      if operator.Err? {
        assert UrlsOfStatement(parse, statement) == Err(operator.error);
        return Err(operator.error);
      }
      if operator.value.Some? && operator.value.value.datavalue.None? {
        assert UrlsOfStatement(parse, statement) == Err(KeyError);
        return Err(KeyError);
      }
      if operator.value.Some? && operator.value.value.datavalue != Some(FlickrEntityValue) {
        assert UrlsOfStatement(parse, statement) == Ok([]);
        assert result + [] == result;
        i := i + 1;
        continue;
      }
      var url := GetSingleQualifier(statement, WikidataProperties.Url);
      if url.Err? {
        assert UrlsOfStatement(parse, statement) == Err(url.error);
        return Err(url.error);
      }
      var publishedAt := GetSingleQualifier(statement, WikidataProperties.DescribedAtUrl);
      if publishedAt.Err? {
        assert UrlsOfStatement(parse, statement) == Err(publishedAt.error);
        return Err(publishedAt.error);
      }
      var found := CollectParsedUrls(parse, [url.value, publishedAt.value]);
      assert UrlsOfStatement(parse, statement) == found;
      if found.Err? {
        return Err(found.error);
      }
      result := result + found.value;
      i := i + 1;
    }
    assert statements[i..] == [];
    return Ok(result);
  }

  // ---------------------------------------------------------------------
  // find_flickr_photo_id_from_sdc

  type Candidates = map<string, seq<Option<string>>>

  /** `candidates[photo_id].add(url)` on a defaultdict of sets (the set is
   *  kept as the list of what was added). */
  function AddCandidate(c: Candidates, photoId: string, url: Option<string>): (r: Candidates)
    ensures r.Keys == c.Keys + {photoId}
    ensures forall k :: k in r ==> forall u :: u in r[k] <==> (k in c && u in c[k]) || (k == photoId && u == url)
  {
    c[photoId := (if photoId in c then c[photoId] else []) + [url]]
  }

  /** The first loop: every URL found must be a single photo, else the
   *  data is ambiguous. */
  function UrlCandidates(c: Candidates, found: seq<(string, FlickrUrl)>): (r: Result<Candidates>)
    ensures r.Err? <==> exists e :: e in found && !e.1.SinglePhoto?
    ensures r.Err? ==> r.error == AmbiguousStructuredData
    decreases |found|
  {
    if found == [] then Ok(c)
    else if !found[0].1.SinglePhoto? then Err(AmbiguousStructuredData)
    else
      assert forall e :: e in found <==> e == found[0] || e in found[1..];
      UrlCandidates(AddCandidate(c, found[0].1.photoId, Some(found[0].0)), found[1..])
  }

  /** The second loop: each "Flickr photo ID" statement with a string
   *  value adds that id without a URL; a main snak without data value
   *  raises KeyError. */
  function IdCandidates(c: Candidates, sts: seq<Statement>): (r: Result<Candidates>)
    ensures r.Err? <==> exists st :: st in sts && st.mainsnak.datavalue.None?
    ensures r.Err? ==> r.error == KeyError
    decreases |sts|
  {
    if sts == [] then Ok(c)
    else if sts[0].mainsnak.datavalue.None? then Err(KeyError)
    else
      assert forall st :: st in sts <==> st == sts[0] || st in sts[1..];
      var dv := sts[0].mainsnak.datavalue.value;
      IdCandidates(if dv.StringValue? then AddCandidate(c, dv.str, None) else c, sts[1..])
  }

  /** The candidate photo ids and their URLs gathered from the SDC. */
  function CandidatesOf(found: seq<(string, FlickrUrl)>, sdc: ExistingClaims): Result<Candidates> {
    var c :- UrlCandidates(map[], found);
    IdCandidates(c, StatementsOf(sdc, WikidataProperties.FlickrPhotoId))
  }

  /** The result for the gathered candidates, as `find_flickr_photo_id_from_sdc`
   *  ends: several ids are a ValueError, none gives None, and a single id
   *  comes with the best of its URLs (None when it only came from the
   *  photo-id property). */
  predicate FindsFromCandidates(c: Candidates, r: Result<Option<FindResult>>) {
    if |c| > 1 then r == Err(ValueError)
    else if c == map[] then r == Ok(None)
    else
      r.Ok? && r.value.Some? && c.Keys == {r.value.value.photoId}
      && var urls := c[r.value.value.photoId];
      && (r.value.value.url.None? <==> forall u :: u in urls ==> u.None?)
      && (r.value.value.url.Some? ==> PickBestUrl(urls) == Ok(r.value.value.url.value))
  }

  /** `find_flickr_photo_id_from_sdc`. */
  method FindFlickrPhotoIdFromSdc(parse: UrlParser, sdc: ExistingClaims) returns (r: Result<Option<FindResult>>)
    ensures FindsFromSdc(parse, sdc, r)
  {
    var found := FindFlickrUrlsInSdc(parse, sdc);
    if found.Err? {
      return Err(found.error);
    }
    var candidates: Candidates := map[];
    var i := 0;
    while i < |found.value|
      invariant 0 <= i <= |found.value|
      invariant UrlCandidates(candidates, found.value[i..]) == UrlCandidates(map[], found.value)
    {
      assert found.value[i..][1..] == found.value[i + 1..];
      var (url, parsedUrl) := found.value[i];
      if parsedUrl.SinglePhoto? {
        candidates := AddCandidate(candidates, parsedUrl.photoId, Some(url));
      } else {
        return Err(AmbiguousStructuredData);
      }
      i := i + 1;
    }
    assert found.value[i..] == [];
    var statements := StatementsOf(sdc, WikidataProperties.FlickrPhotoId);
    var j := 0;
    while j < |statements|
      invariant 0 <= j <= |statements|
      invariant IdCandidates(candidates, statements[j..]) == CandidatesOf(found.value, sdc)
    {
      assert statements[j..][1..] == statements[j + 1..];
      var datavalue := statements[j].mainsnak.datavalue;
      if datavalue.None? {
        return Err(KeyError);
      }
      if datavalue.value.StringValue? {
        candidates := AddCandidate(candidates, datavalue.value.str, None);
      }
      j := j + 1;
    }
    assert statements[j..] == [];
    if |candidates| > 1 {
      return Err(ValueError);
    }
    if candidates == map[] {
      return Ok(None);
    }
    var photoId :| photoId in candidates;
    SingletonKeys(candidates.Keys, photoId);
    var urls := candidates[photoId];
    var best := PickBestUrl(urls);
    if best.Err? {
      return Ok(Some(FindResult(photoId, None)));
    }
    return Ok(Some(FindResult(photoId, Some(best.value))));
  }

  /** A set of at most one element holding `k` is `{k}`. */
  lemma SingletonKeys(ks: set<string>, k: string)
    requires k in ks && |ks| <= 1
    ensures ks == {k}
  {
    assert ks == {k} + (ks - {k});
  }

  lemma SubsetCardinality(a: set<string>, b: set<string>)
    requires a <= b
    ensures |a| <= |b|
  {
    assert b == a + (b - a);
  }

  /** A photo id is a candidate iff it comes from a single-photo URL in a
   *  "source of file" statement or from a "Flickr photo ID" statement. */
  lemma {:induction false} UrlCandidateKeys(c: Candidates, found: seq<(string, FlickrUrl)>, k: string)
    requires UrlCandidates(c, found).Ok?
    ensures k in UrlCandidates(c, found).value <==> k in c || exists e :: e in found && e.1 == SinglePhoto(k)
    decreases |found|
  {
    if found != [] {
      UrlCandidateKeys(AddCandidate(c, found[0].1.photoId, Some(found[0].0)), found[1..], k);
      assert forall e :: e in found <==> e == found[0] || e in found[1..];
    }
  }

  /** A "Flickr photo ID" statement adds its id without a URL and adds
   *  no other id. */
  lemma {:induction false} IdCandidateKeys(c: Candidates, sts: seq<Statement>, k: string)
    requires IdCandidates(c, sts).Ok?
    ensures k in IdCandidates(c, sts).value <==>
      k in c || exists st :: st in sts && st.mainsnak.datavalue == Some(StringValue(k))
    ensures k in IdCandidates(c, sts).value && k !in c ==> None in IdCandidates(c, sts).value[k]
    ensures k in c ==> forall u :: u in c[k] ==> u in IdCandidates(c, sts).value[k]
    ensures k in IdCandidates(c, sts).value ==>
      forall u :: u in IdCandidates(c, sts).value[k] && u.Some? ==> k in c && u in c[k]
    decreases |sts|
  {
    if sts != [] {
      var dv := sts[0].mainsnak.datavalue.value;
      var c' := if dv.StringValue? then AddCandidate(c, dv.str, None) else c;
      IdCandidateKeys(c', sts[1..], k);
      assert forall st :: st in sts <==> st == sts[0] || st in sts[1..];
    }
  }

  /** A file whose structured data has no "source of file" and no "Flickr
   *  photo ID" statements (in particular, empty structured data) has no
   *  Flickr photo. */
  lemma NothingFoundInEmptySdc(parse: UrlParser, sdc: ExistingClaims, r: Result<Option<FindResult>>)
    requires WikidataProperties.SourceOfFile !in sdc && WikidataProperties.FlickrPhotoId !in sdc
    requires FindsFromCandidates(CandidatesOf([], sdc).value, r)
    ensures UrlsFrom(parse, [], StatementsOf(sdc, WikidataProperties.SourceOfFile)) == Ok([])
    ensures r == Ok(None)
  {
  }

  /** Any parsed Flickr URL that is not a single photo makes the data
   *  ambiguous. */
  lemma NonPhotoUrlIsAmbiguous(found: seq<(string, FlickrUrl)>, sdc: ExistingClaims, e: (string, FlickrUrl))
    requires e in found && !e.1.SinglePhoto?
    ensures CandidatesOf(found, sdc) == Err(AmbiguousStructuredData)
  {
  }

  /** Two different photo ids among the candidates are a ValueError. */
  lemma TwoPhotoIdsAreAnError(found: seq<(string, FlickrUrl)>, sdc: ExistingClaims, a: string, b: string, r: Result<Option<FindResult>>)
    requires CandidatesOf(found, sdc).Ok?
    requires a != b && a in CandidatesOf(found, sdc).value && b in CandidatesOf(found, sdc).value
    requires FindsFromCandidates(CandidatesOf(found, sdc).value, r)
    ensures r == Err(ValueError)
  {
    var c := CandidatesOf(found, sdc).value;
    SubsetCardinality({a, b}, c.Keys);
  }

  /** An id that only the "Flickr photo ID" property gives has no URL. */
  lemma IdOnlyFromPhotoIdProperty(sdc: ExistingClaims, r: Result<Option<FindResult>>)
    requires CandidatesOf([], sdc).Ok?
    requires FindsFromCandidates(CandidatesOf([], sdc).value, r)
    requires r.Ok? && r.value.Some?
    ensures r.value.value.url == None
  {
    var c := CandidatesOf([], sdc).value;
    var k := r.value.value.photoId;
    IdCandidateKeys(map[], StatementsOf(sdc, WikidataProperties.FlickrPhotoId), k);
  }

  /** `find_flickr_photo`: the structured data is consulted first, and the
   *  wikitext (through `fromWikitext`, which stands for fetching and
   *  scanning it) only when it yields no photo. */
  method FindFlickrPhoto(parse: UrlParser, sdc: ExistingClaims, filename: string,
                         fromWikitext: string -> Option<FindResult>)
    returns (r: Result<Option<FindResult>>, wikitextConsulted: bool)
    ensures wikitextConsulted <==> FindsFromSdc(parse, sdc, Ok(None))
    ensures wikitextConsulted ==> r == Ok(fromWikitext(filename))
    ensures !wikitextConsulted ==> FindsFromSdc(parse, sdc, r) && r != Ok(None)
  {
    var sdcResult := FindFlickrPhotoIdFromSdc(parse, sdc);
    FindsFromSdcUnique(parse, sdc, sdcResult);
    if sdcResult.Err? || sdcResult.value.Some? {
      return sdcResult, false;
    }
    return Ok(fromWikitext(filename)), true;
  }

  /** What `find_flickr_photo_id_from_sdc` may return for some structured data. */
  predicate FindsFromSdc(parse: UrlParser, sdc: ExistingClaims, r: Result<Option<FindResult>>) {
    var found := UrlsFrom(parse, [], StatementsOf(sdc, WikidataProperties.SourceOfFile));
    && (found.Err? ==> r == Err(found.error))
    && (found.Ok? && CandidatesOf(found.value, sdc).Err? ==> r == Err(CandidatesOf(found.value, sdc).error))
    && (found.Ok? && CandidatesOf(found.value, sdc).Ok? ==> FindsFromCandidates(CandidatesOf(found.value, sdc).value, r))
  }

  /** The value `find_flickr_photo_id_from_sdc` returns, as a function of
   *  the structured data; it lets callers state what a loop over many
   *  files produces. */
  ghost function FindFromSdc(parse: UrlParser, sdc: ExistingClaims): Result<Option<FindResult>> {
    var found := UrlsFrom(parse, [], StatementsOf(sdc, WikidataProperties.SourceOfFile));
    if found.Err? then Err(found.error)
    else
      var c := CandidatesOf(found.value, sdc);
      if c.Err? then Err(c.error)
      else if |c.value| > 1 then Err(ValueError)
      else if c.value == map[] then Ok(None)
      else
        var k :| k in c.value;
        var best := PickBestUrl(c.value[k]);
        Ok(Some(FindResult(k, if best.Err? then None else Some(best.value))))
  }

  /** `FindFromSdc` is what `find_flickr_photo_id_from_sdc` returns. */
  lemma FindFromSdcFinds(parse: UrlParser, sdc: ExistingClaims)
    ensures FindsFromSdc(parse, sdc, FindFromSdc(parse, sdc))
  {
    var found := UrlsFrom(parse, [], StatementsOf(sdc, WikidataProperties.SourceOfFile));
    if found.Ok? && CandidatesOf(found.value, sdc).Ok? {
      var c := CandidatesOf(found.value, sdc).value;
      if |c| == 1 {
        var k := FindFromSdc(parse, sdc).value.value.photoId;
        SingletonKeys(c.Keys, k);
      }
    }
  }

  /** The result of `find_flickr_photo_id_from_sdc` is determined by the
   *  structured data. */
  lemma FindsFromSdcUnique(parse: UrlParser, sdc: ExistingClaims, r: Result<Option<FindResult>>)
    requires FindsFromSdc(parse, sdc, r)
    ensures forall r' :: FindsFromSdc(parse, sdc, r') ==> r' == r
  {
    forall r' | FindsFromSdc(parse, sdc, r') ensures r' == r {
      var found := UrlsFrom(parse, [], StatementsOf(sdc, WikidataProperties.SourceOfFile));
      if found.Ok? && CandidatesOf(found.value, sdc).Ok? {
        var c := CandidatesOf(found.value, sdc).value;
        if |c| == 1 {
          assert r.value.value.photoId == r'.value.value.photoId by {
            assert r.value.value.photoId in c.Keys;
          }
        }
      }
    }
  }
}
