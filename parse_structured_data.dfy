/** The older Flickr photo id finder
 *  (src/flickypedia/apis/structured_data/parse_structured_data.py).
 *  Its `assert 0` branches raise AssertionError here. */
module ParseStructuredData {
  import opened Wrappers
  import opened Sdc
  import opened FlickrUrls
  import opened Comparisons
  import opened FlickrMatcher
  import WikidataProperties

  /** `get_single_qualifier`: several snaks fail `assert 0`. */
  function GetSingleQualifier(st: Statement, property: string): (r: Result<Option<Snak>>)
    ensures var snaks := ExistingSnaks(st.qualifiers.UnwrapOr([]), property);
      && (r == Ok(None) <==> snaks == [])
      && (|snaks| == 1 ==> r == Ok(Some(snaks[0])))
      && (|snaks| > 1 ==> r == Err(AssertionError))
  {
    var snaks := ExistingSnaks(st.qualifiers.UnwrapOr([]), property);
    if |snaks| == 0 then Ok(None)
    else if |snaks| != 1 then Err(AssertionError)
    else Ok(Some(snaks[0]))
  }

  /** The photo id one URL qualifier contributes: a single-photo URL gives
   *  its id, an unparseable one nothing, anything else fails. */
  function UrlCandidate(parse: UrlParser, u: Option<Snak>): (r: Result<set<string>>)
    ensures r.Ok? ==> |r.value| <= 1
    ensures r.Ok? ==> forall k :: k in r.value ==>
      (u.Some? && u.value.datavalue.Some? && u.value.datavalue.value.StringValue?
       && parse(u.value.datavalue.value.str) == Parsed(SinglePhoto(k)))
    ensures u.Some? && u.value.datavalue.Some? && u.value.datavalue.value.StringValue?
      && parse(u.value.datavalue.value.str).Parsed? && !parse(u.value.datavalue.value.str).url.SinglePhoto?
      ==> r == Err(AssertionError)
  {
    match u
    case None => Ok({})
    case Some(s) =>
      if s.datavalue.None? then Err(KeyError)
      else if !s.datavalue.value.StringValue? then Err(AssertionError)
      else match parse(s.datavalue.value.str)
        case Parsed(SinglePhoto(id)) => Ok({id})
        case Parsed(_) => Err(AssertionError)
        case _ => Ok({})
  }

  /** The photo ids one "source of file" statement contributes; its
   *  operator must be Flickr. */
  function SourceCandidates(parse: UrlParser, st: Statement): Result<set<string>> {
    var operator :- GetSingleQualifier(st, WikidataProperties.Operator);
    if operator.None? then Err(AssertionError)
    else if operator.value.datavalue.None? then Err(KeyError)
    else if operator.value.datavalue != Some(FlickrEntityValue) then Err(AssertionError)
    else
      var url :- GetSingleQualifier(st, WikidataProperties.Url);
      var publishedAt :- GetSingleQualifier(st, WikidataProperties.DescribedAtUrl);
      var a :- UrlCandidate(parse, url);
      var b :- UrlCandidate(parse, publishedAt);
      Ok(a + b)
  }

  /** The first loop of `find_flickr_photo_id`, from a set already found. */
  function SourceCandidatesFrom(parse: UrlParser, acc: set<string>, sts: seq<Statement>): (r: Result<set<string>>)
    ensures r.Ok? ==> acc <= r.value
    decreases |sts|
  {
    if sts == [] then Ok(acc)
    else
      var c :- SourceCandidates(parse, sts[0]);
      SourceCandidatesFrom(parse, acc + c, sts[1..])
  }

  /** The second loop: "Flickr photo ID" statements must hold strings. */
  function IdCandidatesFrom(acc: set<string>, sts: seq<Statement>): (r: Result<set<string>>)
    ensures r.Ok? ==> acc <= r.value
    decreases |sts|
  {
    if sts == [] then Ok(acc)
    else if sts[0].mainsnak.datavalue.None? then Err(KeyError)
    else if !sts[0].mainsnak.datavalue.value.StringValue? then Err(AssertionError)
    else IdCandidatesFrom(acc + {sts[0].mainsnak.datavalue.value.str}, sts[1..])
  }

  /** Every candidate photo id gathered from the structured data. */
  function CandidatesOf(parse: UrlParser, sdc: ExistingClaims): Result<set<string>> {
    var c :- SourceCandidatesFrom(parse, {}, StatementsOf(sdc, WikidataProperties.SourceOfFile));
    IdCandidatesFrom(c, StatementsOf(sdc, WikidataProperties.FlickrPhotoId))
  }

  /** A candidate comes from a source statement exactly when that
   *  statement contributes it. */
  lemma {:induction false} SourceCandidatesMeaning(parse: UrlParser, acc: set<string>, sts: seq<Statement>, k: string)
    requires SourceCandidatesFrom(parse, acc, sts).Ok?
    ensures k in SourceCandidatesFrom(parse, acc, sts).value <==>
      k in acc || exists i :: 0 <= i < |sts| && SourceCandidates(parse, sts[i]).Ok? && k in SourceCandidates(parse, sts[i]).value
    decreases |sts|
  {
    if sts != [] {
      var c := SourceCandidates(parse, sts[0]).value;
      SourceCandidatesMeaning(parse, acc + c, sts[1..], k);
      assert forall i :: 1 <= i < |sts| ==> sts[i] == sts[1..][i - 1];
      if exists i :: 0 <= i < |sts[1..]| && SourceCandidates(parse, sts[1..][i]).Ok? && k in SourceCandidates(parse, sts[1..][i]).value {
        var i :| 0 <= i < |sts[1..]| && SourceCandidates(parse, sts[1..][i]).Ok? && k in SourceCandidates(parse, sts[1..][i]).value;
        assert sts[i + 1] == sts[1..][i];
      }
    }
  }

  /** A candidate comes from a photo-id statement exactly when one holds it. */
  lemma {:induction false} IdCandidatesMeaning(acc: set<string>, sts: seq<Statement>, k: string)
    requires IdCandidatesFrom(acc, sts).Ok?
    ensures k in IdCandidatesFrom(acc, sts).value <==>
      k in acc || exists st :: st in sts && st.mainsnak.datavalue == Some(StringValue(k))
    decreases |sts|
  {
    if sts != [] {
      IdCandidatesMeaning(acc + {sts[0].mainsnak.datavalue.value.str}, sts[1..], k);
      assert forall st :: st in sts <==> st == sts[0] || st in sts[1..];
    }
  }

  /** How `find_flickr_photo_id` ends for a set of candidates: exactly one
   *  is the answer, several are a ValueError, none gives None. */
  predicate Outcome(c: set<string>, r: Result<Option<string>>) {
    if |c| == 1 then r.Ok? && r.value.Some? && c == {r.value.value}
    else if |c| > 1 then r == Err(ValueError)
    else r == Ok(None)
  }

  /** The URL loop for one statement. */
  method CollectCandidates(parse: UrlParser, us: seq<Option<Snak>>) returns (r: Result<set<string>>)
    requires |us| == 2
    ensures r == (var a :- UrlCandidate(parse, us[0]); var b :- UrlCandidate(parse, us[1]); Ok(a + b))
  {
    var found: set<string> := {};
    var j := 0;
    while j < |us|
      invariant 0 <= j <= 2
      invariant j == 1 ==> UrlCandidate(parse, us[0]) == Ok(found)
      invariant j == 2 ==> (var a :- UrlCandidate(parse, us[0]); var b :- UrlCandidate(parse, us[1]); Ok(a + b)) == Ok(found)
      invariant j == 0 ==> found == {}
    {
      var u := us[j];
      j := j + 1;
      if u.None? {
        continue;
      }
      if u.value.datavalue.None? {
        return Err(KeyError);
      }
      if !u.value.datavalue.value.StringValue? {
        return Err(AssertionError);
      }
      var parsed := parse(u.value.datavalue.value.str);
      if parsed.Parsed? {
        if parsed.url.SinglePhoto? {
          found := found + {parsed.url.photoId};
        } else {
          return Err(AssertionError);
        }
      }
    }
    return Ok(found);
  }

  /** `find_flickr_photo_id`. */
  method FindFlickrPhotoId(parse: UrlParser, sdc: ExistingClaims) returns (r: Result<Option<string>>)
    ensures CandidatesOf(parse, sdc).Err? ==> r == Err(CandidatesOf(parse, sdc).error)
    ensures CandidatesOf(parse, sdc).Ok? ==> Outcome(CandidatesOf(parse, sdc).value, r)
  {
    var candidates: set<string> := {};
    var sources := StatementsOf(sdc, WikidataProperties.SourceOfFile);
    var i := 0;
    while i < |sources|
      invariant 0 <= i <= |sources|
      invariant SourceCandidatesFrom(parse, candidates, sources[i..]) == SourceCandidatesFrom(parse, {}, sources)
    {
      var statement := sources[i];
      assert sources[i..][1..] == sources[i + 1..];
      var operator := GetSingleQualifier(statement, WikidataProperties.Operator);
      if operator.Err? {
        return Err(operator.error);
      }
      if operator.value.None? {
        return Err(AssertionError);
      }
      if operator.value.value.datavalue.None? {
        return Err(KeyError);
      }
      if operator.value.value.datavalue != Some(FlickrEntityValue) {
        return Err(AssertionError);
      }
      var url := GetSingleQualifier(statement, WikidataProperties.Url);
      if url.Err? {
        return Err(url.error);
      }
      var publishedAt := GetSingleQualifier(statement, WikidataProperties.DescribedAtUrl);
      if publishedAt.Err? {
        return Err(publishedAt.error);
      }
      var found := CollectCandidates(parse, [url.value, publishedAt.value]);
      assert SourceCandidates(parse, statement) == found;
      if found.Err? {
        return Err(found.error);
      }
      candidates := candidates + found.value;
      i := i + 1;
    }
    assert sources[i..] == [];
    var photoIds := StatementsOf(sdc, WikidataProperties.FlickrPhotoId);
    var j := 0;
    while j < |photoIds|
      invariant 0 <= j <= |photoIds|
      invariant IdCandidatesFrom(candidates, photoIds[j..]) == CandidatesOf(parse, sdc)
    {
      assert photoIds[j..][1..] == photoIds[j + 1..];
      var datavalue := photoIds[j].mainsnak.datavalue;
      if datavalue.None? {
        return Err(KeyError);
      }
      if !datavalue.value.StringValue? {
        return Err(AssertionError);
      }
      candidates := candidates + {datavalue.value.str};
      j := j + 1;
    }
    assert photoIds[j..] == [];
    if |candidates| == 1 {
      var photoId :| photoId in candidates;
      SingletonKeys(candidates, photoId);
      return Ok(Some(photoId));
    } else if |candidates| > 1 {
      return Err(ValueError);
    }
    return Ok(None);
  }

  /** The same photo id found both in a source URL and in the photo-id
   *  property is one candidate, so the answer is that id. */
  lemma SameIdFoundTwice(parse: UrlParser, source: Statement, photoIdStatement: Statement, id: string, r: Result<Option<string>>)
    requires SourceCandidates(parse, source) == Ok({id})
    requires photoIdStatement.mainsnak.datavalue == Some(StringValue(id))
    requires Outcome({id}, r)
    ensures CandidatesOf(parse, map[WikidataProperties.SourceOfFile := [source], WikidataProperties.FlickrPhotoId := [photoIdStatement]]) == Ok({id})
    ensures r == Ok(Some(id))
  {
    var sdc := map[WikidataProperties.SourceOfFile := [source], WikidataProperties.FlickrPhotoId := [photoIdStatement]];
    assert StatementsOf(sdc, WikidataProperties.SourceOfFile) == [source];
    assert StatementsOf(sdc, WikidataProperties.FlickrPhotoId) == [photoIdStatement];
    assert SourceCandidatesFrom(parse, {}, [source]) == Ok({id});
    assert IdCandidatesFrom({id}, [photoIdStatement]) == Ok({id});
  }
}
