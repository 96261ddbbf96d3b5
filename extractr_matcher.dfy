/** Matching the entries of a Commons snapshot to Flickr photos
 *  (src/flickypedia/extractr/matcher.py). The generator becomes a method
 *  that returns everything it would yield, and the messages it prints to
 *  standard error become a second list. */
module ExtractrMatcher {
  import opened Wrappers
  import opened Sdc
  import opened FlickrUrls
  import opened FlickrMatcher

  /** The fields of a `SnapshotEntry` the matcher reads. */
  datatype SnapshotEntry = SnapshotEntry(id: string, pageid: int, title: string, statements: ExistingClaims)

  /** `MatchedPhoto`. */
  datatype MatchedPhoto = MatchedPhoto(flickrPhotoId: string, wikimediaPageId: string, wikimediaPageTitle: string)

  /** A message printed for a skipped entry: "Ambiguity in …" when
   *  `ambiguous`, "Unable to find photo ID in …" otherwise. */
  datatype SkipNotice = SkipNotice(pageid: int, ambiguous: bool, error: Exception)

  /** What the matcher does with one entry: yield a match, print a notice,
   *  or move on silently. */
  ghost function Verdict(parse: UrlParser, e: SnapshotEntry): Result<Option<MatchedPhoto>> {
    match FindFromSdc(parse, e.statements)
    case Err(err) => Err(err)
    case Ok(None) => Ok(None)
    case Ok(Some(found)) => Ok(Some(MatchedPhoto(found.photoId, e.id, e.title)))
  }

  /** The match one entry's verdict yields. */
  function MatchPart(v: Result<Option<MatchedPhoto>>): seq<MatchedPhoto> {
    if v.Ok? && v.value.Some? then [v.value.value] else []
  }

  /** The notice one entry's verdict prints. */
  function NoticePart(e: SnapshotEntry, v: Result<Option<MatchedPhoto>>): seq<SkipNotice> {
    if v.Err? then [SkipNotice(e.pageid, v.error == AmbiguousStructuredData, v.error)] else []
  }

  /** The matches yielded for a stream of entries. */
  ghost function MatchesOf(parse: UrlParser, es: seq<SnapshotEntry>): seq<MatchedPhoto>
    decreases |es|
  {
    if es == [] then []
    else
      MatchPart(Verdict(parse, es[0])) + MatchesOf(parse, es[1..])
  }

  /** The notices printed for a stream of entries. */
  ghost function NoticesOf(parse: UrlParser, es: seq<SnapshotEntry>): seq<SkipNotice>
    decreases |es|
  {
    if es == [] then []
    else
      NoticePart(es[0], Verdict(parse, es[0])) + NoticesOf(parse, es[1..])
  }

  /** The body of the loop in `find_matched_photos` for one entry. */
  method MatchEntry(parse: UrlParser, entry: SnapshotEntry) returns (v: Result<Option<MatchedPhoto>>)
    ensures v == Verdict(parse, entry)
  {
    var photoId := FindFlickrPhotoIdFromSdc(parse, entry.statements);
    FindsFromSdcUnique(parse, entry.statements, photoId);
    FindFromSdcFinds(parse, entry.statements);
    assert photoId == FindFromSdc(parse, entry.statements);
    if photoId.Err? {
      return Err(photoId.error);
    } else if photoId.value.Some? {
      return Ok(Some(MatchedPhoto(photoId.value.value.photoId, entry.id, entry.title)));
    }
    return Ok(None);
  }

  /** One step of the loop in `find_matched_photos`. */
  lemma StreamStep(parse: UrlParser, entries: seq<SnapshotEntry>, i: nat, matches: seq<MatchedPhoto>, notices: seq<SkipNotice>)
    requires i < |entries|
    ensures matches + MatchesOf(parse, entries[i..])
         == (matches + MatchPart(Verdict(parse, entries[i]))) + MatchesOf(parse, entries[i + 1..])
    ensures notices + NoticesOf(parse, entries[i..])
         == (notices + NoticePart(entries[i], Verdict(parse, entries[i]))) + NoticesOf(parse, entries[i + 1..])
  {
    assert entries[i..][1..] == entries[i + 1..];
  }

  /** `find_matched_photos`: every entry is looked at, in order, and a
   *  failure on one entry only skips that entry. */
  method FindMatchedPhotos(parse: UrlParser, entries: seq<SnapshotEntry>)
    returns (matches: seq<MatchedPhoto>, notices: seq<SkipNotice>)
    ensures matches == MatchesOf(parse, entries)
    ensures notices == NoticesOf(parse, entries)
  {
    matches, notices := [], [];
    var i := 0;
    while i < |entries|
      invariant 0 <= i <= |entries|
      invariant matches + MatchesOf(parse, entries[i..]) == MatchesOf(parse, entries)
      invariant notices + NoticesOf(parse, entries[i..]) == NoticesOf(parse, entries)
    {
      var entry := entries[i];
      var v := MatchEntry(parse, entry);
      StreamStep(parse, entries, i, matches, notices);
      matches := matches + MatchPart(v);
      notices := notices + NoticePart(entry, v);
      i := i + 1;
    }
    assert entries[i..] == [];
  }

  /** The matcher streams: the matches for two batches of entries are
   *  those for each batch, in order. */
  lemma {:induction false} MatchesOfAppend(parse: UrlParser, a: seq<SnapshotEntry>, b: seq<SnapshotEntry>)
    ensures MatchesOf(parse, a + b) == MatchesOf(parse, a) + MatchesOf(parse, b)
    decreases |a|
  {
    if a == [] {
      assert a + b == b;
    } else {
      assert (a + b)[0] == a[0] && (a + b)[1..] == a[1..] + b;
      MatchesOfAppend(parse, a[1..], b);
      var m := MatchPart(Verdict(parse, a[0]));
      assert MatchesOf(parse, a + b) == m + MatchesOf(parse, a[1..] + b);
      assert m + (MatchesOf(parse, a[1..]) + MatchesOf(parse, b)) == (m + MatchesOf(parse, a[1..])) + MatchesOf(parse, b);
    }
  }

  /** Likewise for the notices. */
  lemma {:induction false} NoticesOfAppend(parse: UrlParser, a: seq<SnapshotEntry>, b: seq<SnapshotEntry>)
    ensures NoticesOf(parse, a + b) == NoticesOf(parse, a) + NoticesOf(parse, b)
    decreases |a|
  {
    if a == [] {
      assert a + b == b;
    } else {
      assert (a + b)[0] == a[0] && (a + b)[1..] == a[1..] + b;
      NoticesOfAppend(parse, a[1..], b);
      var n := NoticePart(a[0], Verdict(parse, a[0]));
      assert NoticesOf(parse, a + b) == n + NoticesOf(parse, a[1..] + b);
      assert n + (NoticesOf(parse, a[1..]) + NoticesOf(parse, b)) == (n + NoticesOf(parse, a[1..])) + NoticesOf(parse, b);
    }
  }

  /** Each entry gives at most one match or one notice, never both. */
  lemma {:induction false} AtMostOneOutcomePerEntry(parse: UrlParser, es: seq<SnapshotEntry>)
    ensures |MatchesOf(parse, es)| + |NoticesOf(parse, es)| <= |es|
    decreases |es|
  {
    if es != [] {
      AtMostOneOutcomePerEntry(parse, es[1..]);
    }
  }

  /** `m` is the match for a photo id found in `e`'s structured data. */
  ghost predicate MatchFrom(parse: UrlParser, e: SnapshotEntry, m: MatchedPhoto) {
    && m.wikimediaPageId == e.id && m.wikimediaPageTitle == e.title
    && FindFromSdc(parse, e.statements).Ok? && FindFromSdc(parse, e.statements).value.Some?
    && FindFromSdc(parse, e.statements).value.value.photoId == m.flickrPhotoId
  }

  /** Every match carries a photo id found in some entry's structured data,
   *  with that entry's id and title. */
  lemma {:induction false} MatchesComeFromEntries(parse: UrlParser, es: seq<SnapshotEntry>, m: MatchedPhoto)
    requires m in MatchesOf(parse, es)
    ensures exists e :: e in es && MatchFrom(parse, e, m)
    decreases |es|
  {
    var v := Verdict(parse, es[0]);
    if v.Ok? && v.value.Some? && m == v.value.value {
      assert es[0] in es;
    } else {
      MatchesComeFromEntries(parse, es[1..], m);
      var e :| e in es[1..] && MatchFrom(parse, e, m);
      assert e in es;
    }
  }

  /** An entry whose structured data is ambiguous is skipped with an
   *  "Ambiguity" notice and yields no match. */
  lemma AmbiguousEntryIsSkipped(parse: UrlParser, e: SnapshotEntry)
    requires FindFromSdc(parse, e.statements) == Err(AmbiguousStructuredData)
    ensures MatchesOf(parse, [e]) == []
    ensures NoticesOf(parse, [e]) == [SkipNotice(e.pageid, true, AmbiguousStructuredData)]
  {
  }
}
