/** Scanning a Commons structured-data snapshot for Flickr photo ids
 *  (duplicate_detection/find_flickr_ids_in_sdc_snapshot.py).
 *
 *  The bz2 file becomes its sequence of lines, `json.loads` the parameter
 *  `decode`, and the three output files (the CSV of ids, the errors and
 *  the warnings, all only ever appended to) the fields of `SnapshotScanner`. */
module SnapshotScan {
  import opened Wrappers
  import opened Text
  import opened Sdc
  import opened FlickrUrls
  import WikidataProperties
  import WikidataEntities

  /** One object of the snapshot; `title` is a key that may be absent. */
  datatype SnapshotRecord = SnapshotRecord(id: string, title: Option<string>, statements: ExistingClaims)

  /** A line of `sdc_errors.txt`: the URL the recogniser rejected, and which
   *  of its two exceptions it raised. */
  datatype ErrorRecord = ErrorRecord(title: string, flickrUrl: string, err: ParseOutcome)

  /** A line of `sdc_warnings.txt`: a Flickr URL that is not a single photo. */
  datatype WarningRecord = WarningRecord(title: string, flickrUrl: string)

  /** A row of `flickr_ids_from_sdc.csv`. */
  datatype CsvRow = CsvRow(flickrPhotoId: string, wikimediaTitle: string, wikimediaPageId: string)

  /** How the search of one record ends when nothing is raised. */
  datatype Outcome =
    | FoundId(photoId: string)
    | LoggedError(error: ErrorRecord)
    | LoggedWarning(warning: WarningRecord)
    | NoId

  /** The three output files. */
  datatype Outputs = Outputs(errors: seq<ErrorRecord>, warnings: seq<WarningRecord>, rows: seq<CsvRow>)

  // ---------------------------------------------------------------------
  // Framing the snapshot into records
  // ---------------------------------------------------------------------

  const Separator := ",\n"

  /** The text handed to `json.loads` for a line that is not the opening
   *  bracket. */
  function Unframe(line: string): string {
    ReplaceAll(line, Separator, "")
  }

  /** `pat` occurs in `s` starting at `i`. */
  predicate OccursAt(s: string, pat: string, i: nat) {
    i + |pat| <= |s| && s[i..i + |pat|] == pat
  }

  /** `pat` does not occur anywhere in `s`. */
  ghost predicate Absent(s: string, pat: string) {
    forall i: nat :: !OccursAt(s, pat, i)
  }

  lemma AbsentInTail(s: string, pat: string)
    requires s != [] && Absent(s, pat)
    ensures Absent(s[1..], pat)
  {
    forall i: nat ensures !OccursAt(s[1..], pat, i) {
      if i + |pat| <= |s[1..]| {
        assert s[1..][i..i + |pat|] == s[i + 1..i + 1 + |pat|];
        assert !OccursAt(s, pat, i + 1);
      }
    }
  }

  /** Replacing a pattern that does not occur leaves the text unchanged. */
  lemma {:induction false} ReplaceAbsent(s: string, pat: string, rep: string)
    requires pat != [] && Absent(s, pat)
    ensures ReplaceAll(s, pat, rep) == s
    decreases |s|
  {
    if |s| >= |pat| {
      assert !OccursAt(s, pat, 0);
      assert s[0..|pat|] == s[..|pat|];
      AbsentInTail(s, pat);
      ReplaceAbsent(s[1..], pat, rep);
    }
  }

  /** A snapshot line `{…},\n` whose object holds no `",\n"` unframes to the
   *  object, and the closing line `{…}` (or `]`) passes unchanged. */
  lemma {:induction false} UnframeObjectLine(obj: string)
    requires Absent(obj, Separator)
    ensures Unframe(obj + Separator) == obj
    ensures Unframe(obj) == obj
    decreases |obj|
  {
    ReplaceAbsent(obj, Separator, "");
    var s := obj + Separator;
    if |obj| == 0 {
      assert s == Separator;
      assert ReplaceAll(Separator[2..], Separator, "") == "";
    } else {
      if |obj| == 1 {
        assert s[..2] != Separator by { assert s[1] == ','; }
      } else {
        assert s[..2] != Separator by {
          assert !OccursAt(obj, Separator, 0);
          assert s[..2] == obj[0..2];
        }
      }
      AbsentInTail(obj, Separator);
      UnframeObjectLine(obj[1..]);
      assert s[1..] == obj[1..] + Separator;
    }
  }

  // ---------------------------------------------------------------------
  // Searching one record
  // ---------------------------------------------------------------------

  /** `_is_wikibase_entity`: a missing `datavalue` is a KeyError. */
  function IsWikibaseEntity(v: Snak, entityId: string): (r: Result<bool>)
    ensures r.Err? <==> v.datavalue.None?
    ensures r == Ok(true) <==> v.datavalue.Some? && v.datavalue.value.EntityIdValue? && v.datavalue.value.id == entityId
  {
    if v.datavalue.None? then Err(KeyError)
    else Ok(TypeTag(v.datavalue.value) == "wikibase-entityid" && v.datavalue.value.id == entityId)
  }

  /** `x[k][0]` on a snak list: KeyError without the key, IndexError on an
   *  empty list. */
  function FirstQualifier(qs: Option<Qualifiers>, k: string): (r: Result<Snak>)
    ensures r.Ok? ==> qs.Some? && Lookup(qs.value, k).Some? && Lookup(qs.value, k).value != []
                      && r.value == Lookup(qs.value, k).value[0]
  {
    if qs.None? then Err(KeyError)
    else
      match Lookup(qs.value, k)
      case None => Err(KeyError)
      case Some(snaks) => if snaks == [] then Err(IndexError) else Ok(snaks[0])
  }

  /** The body of the `try` in `find_flickr_photo_id_in_sdc`: only the
   *  first "source of file" statement is inspected, it must say "file
   *  available on the internet" with Flickr as its first operator, and its
   *  first "described at URL" is given to the recogniser. A URL value that
   *  is not a string yields nothing. */
  function SearchRecord(parse: UrlParser, rec: SnapshotRecord): Result<Outcome> {
    if WikidataProperties.SourceOfFile !in rec.statements then Err(KeyError)
    else if rec.statements[WikidataProperties.SourceOfFile] == [] then Err(IndexError)
    else
      var sourceOfFile := rec.statements[WikidataProperties.SourceOfFile][0];
      var available :- IsWikibaseEntity(sourceOfFile.mainsnak, WikidataEntities.FileAvailableOnInternet);
      if !available then Ok(NoId)
      else
        var operator :- FirstQualifier(sourceOfFile.qualifiers, WikidataProperties.Operator);
        var isFlickr :- IsWikibaseEntity(operator, WikidataEntities.Flickr);
        if !isFlickr then Ok(NoId)
        else
          var described :- FirstQualifier(sourceOfFile.qualifiers, WikidataProperties.DescribedAtUrl);
          if described.datavalue.None? then Err(KeyError)
          else if !described.datavalue.value.StringValue? then Ok(NoId)
          else
            var photoUrl := described.datavalue.value.str;
            match parse(photoUrl)
            case Parsed(SinglePhoto(photoId)) => Ok(FoundId(photoId))
            case Parsed(_) =>
              if rec.title.None? then Err(KeyError) else Ok(LoggedWarning(WarningRecord(rec.title.value, photoUrl)))
            case failure =>
              if rec.title.None? then Err(KeyError) else Ok(LoggedError(ErrorRecord(rec.title.value, photoUrl, failure)))
  }

  /** Everything the `try` body raises is a KeyError or an IndexError, so the
   *  `except` clause catches all of it. */
  lemma SearchRaisesOnlyLookupErrors(parse: UrlParser, rec: SnapshotRecord)
    ensures SearchRecord(parse, rec).Err? ==> SearchRecord(parse, rec).error in {KeyError, IndexError}
  {
  }

  /** `find_flickr_photo_id_in_sdc`, with the exceptions caught. */
  function FindOutcome(parse: UrlParser, rec: SnapshotRecord): Outcome {
    var r := SearchRecord(parse, rec);
    if r.Err? then NoId else r.value
  }

  /** The photo id `find_flickr_photo_id_in_sdc` returns. */
  function PhotoIdOf(o: Outcome): Option<string> {
    if o.FoundId? then Some(o.photoId) else None
  }

  /** A photo id is found exactly when the first "source of file" statement
   *  is a Flickr one whose first URL the recogniser reads as that photo. */
  lemma {:induction false} FoundIdMeaning(parse: UrlParser, rec: SnapshotRecord, photoId: string)
    ensures FindOutcome(parse, rec) == FoundId(photoId) <==>
      && WikidataProperties.SourceOfFile in rec.statements
      && rec.statements[WikidataProperties.SourceOfFile] != []
      && var st := rec.statements[WikidataProperties.SourceOfFile][0];
      && IsWikibaseEntity(st.mainsnak, WikidataEntities.FileAvailableOnInternet) == Ok(true)
      && FirstQualifier(st.qualifiers, WikidataProperties.Operator).Ok?
      && IsWikibaseEntity(FirstQualifier(st.qualifiers, WikidataProperties.Operator).value, WikidataEntities.Flickr) == Ok(true)
      && FirstQualifier(st.qualifiers, WikidataProperties.DescribedAtUrl).Ok?
      && var described := FirstQualifier(st.qualifiers, WikidataProperties.DescribedAtUrl).value;
      && described.datavalue.Some? && described.datavalue.value.StringValue?
      && parse(described.datavalue.value.str) == Parsed(SinglePhoto(photoId))
  {
  }

  /** A record is logged only when it has a title and its Flickr URL was
   *  either rejected by the recogniser (an error) or read as something
   *  other than a single photo (a warning); a record that is logged has no
   *  photo id. */
  lemma LoggedRecords(parse: UrlParser, rec: SnapshotRecord)
    ensures FindOutcome(parse, rec).LoggedError? ==>
      var e := FindOutcome(parse, rec).error;
      && rec.title == Some(e.title) && !parse(e.flickrUrl).Parsed? && e.err == parse(e.flickrUrl)
    ensures FindOutcome(parse, rec).LoggedWarning? ==>
      var w := FindOutcome(parse, rec).warning;
      && rec.title == Some(w.title) && parse(w.flickrUrl).Parsed? && !parse(w.flickrUrl).url.SinglePhoto?
  {
  }

  /** A record without a title is never logged. */
  lemma UntitledRecordsAreNotLogged(parse: UrlParser, rec: SnapshotRecord)
    requires rec.title.None?
    ensures FindOutcome(parse, rec).FoundId? || FindOutcome(parse, rec).NoId?
  {
  }

  /** What the outputs are after one record has been searched. */
  function Logged(o: Outputs, outcome: Outcome): Outputs {
    match outcome
    case LoggedError(e) => o.(errors := o.errors + [e])
    case LoggedWarning(w) => o.(warnings := o.warnings + [w])
    case _ => o
  }

  /** The driver's step for one record: a found id is written as a CSV row,
   *  reading the title, whose absence there is not caught. */
  function ScanRecord(parse: UrlParser, rec: SnapshotRecord, o: Outputs): Result<Outputs> {
    var outcome := FindOutcome(parse, rec);
    var o' := Logged(o, outcome);
    if !outcome.FoundId? then Ok(o')
    else if rec.title.None? then Err(KeyError)
    else Ok(o'.(rows := o'.rows + [CsvRow(outcome.photoId, rec.title.value, rec.id)]))
  }

  /** The whole scan: lines are read in order, the opening bracket skipped
   *  and every other line unframed and decoded; a line that does not
   *  decode, or a found id without a title, stops the scan with the
   *  outputs written so far. */
  function Scan(parse: UrlParser, decode: string -> Result<SnapshotRecord>, lines: seq<string>, o: Outputs)
    : (Outputs, Option<Exception>)
    decreases |lines|
  {
    if lines == [] then (o, None)
    else if lines[0] == "[\n" then Scan(parse, decode, lines[1..], o)
    else
      match decode(Unframe(lines[0]))
      case Err(e) => (o, Some(e))
      case Ok(rec) =>
        match ScanRecord(parse, rec, o)
        case Err(e) => (o, Some(e))
        case Ok(o') => Scan(parse, decode, lines[1..], o')
  }

  /** The outputs only grow. */
  lemma {:induction false} ScanAppends(parse: UrlParser, decode: string -> Result<SnapshotRecord>, lines: seq<string>, o: Outputs)
    ensures var o' := Scan(parse, decode, lines, o).0;
      && o.errors <= o'.errors && o.warnings <= o'.warnings && o.rows <= o'.rows
    decreases |lines|
  {
    if lines != [] && lines[0] != "[\n" && decode(Unframe(lines[0])).Ok? {
      var r := ScanRecord(parse, decode(Unframe(lines[0])).value, o);
      if r.Ok? {
        ScanAppends(parse, decode, lines[1..], r.value);
      }
    } else if lines != [] && lines[0] == "[\n" {
      ScanAppends(parse, decode, lines[1..], o);
    }
  }

  /** `line` is a record line of the snapshot that gives `row`. */
  predicate RowFromLine(parse: UrlParser, decode: string -> Result<SnapshotRecord>, line: string, row: CsvRow) {
    && line != "[\n" && decode(Unframe(line)).Ok?
    && var rec := decode(Unframe(line)).value;
    && FindOutcome(parse, rec) == FoundId(row.flickrPhotoId)
    && rec.title == Some(row.wikimediaTitle) && rec.id == row.wikimediaPageId
  }

  /** Every CSV row the scan writes comes from a line of the snapshot whose
   *  record has that photo id, title and page id. */
  lemma {:induction false} ScanRowsFromRecords(parse: UrlParser, decode: string -> Result<SnapshotRecord>,
                                               lines: seq<string>, o: Outputs, row: CsvRow)
    requires row in Scan(parse, decode, lines, o).0.rows && row !in o.rows
    ensures exists line :: line in lines && RowFromLine(parse, decode, line, row)
    decreases |lines|
  {
    assert lines != [];
    if lines[0] == "[\n" {
      ScanRowsFromRecords(parse, decode, lines[1..], o, row);
      var line :| line in lines[1..] && RowFromLine(parse, decode, line, row);
      assert line in lines;
    } else {
      var rec := decode(Unframe(lines[0])).value;
      var o' := ScanRecord(parse, rec, o).value;
      if row in o'.rows {
        assert lines[0] in lines;
      } else {
        ScanRowsFromRecords(parse, decode, lines[1..], o', row);
        var line :| line in lines[1..] && RowFromLine(parse, decode, line, row);
        assert line in lines;
      }
    }
  }

  /** At most one CSV row per line of the snapshot. */
  lemma {:induction false} ScanRowCount(parse: UrlParser, decode: string -> Result<SnapshotRecord>, lines: seq<string>, o: Outputs)
    ensures |Scan(parse, decode, lines, o).0.rows| <= |o.rows| + |lines|
    decreases |lines|
  {
    if lines != [] {
      if lines[0] == "[\n" {
        ScanRowCount(parse, decode, lines[1..], o);
      } else if decode(Unframe(lines[0])).Ok? {
        var r := ScanRecord(parse, decode(Unframe(lines[0])).value, o);
        if r.Ok? {
          ScanRowCount(parse, decode, lines[1..], r.value);
        }
      }
    }
  }

  // ---------------------------------------------------------------------
  // The scanner, writing to its output files
  // ---------------------------------------------------------------------

  class SnapshotScanner {
    /** `sdc_errors.txt`, `sdc_warnings.txt` and `flickr_ids_from_sdc.csv`. */
    var errors: seq<ErrorRecord>
    var warnings: seq<WarningRecord>
    var rows: seq<CsvRow>

    function Contents(): Outputs
      reads this
    {
      Outputs(errors, warnings, rows)
    }

    /** The CSV file is created with only its header. */
    constructor(errors: seq<ErrorRecord>, warnings: seq<WarningRecord>)
      ensures Contents() == Outputs(errors, warnings, [])
    {
      this.errors := errors;
      this.warnings := warnings;
      this.rows := [];
    }

    /** `find_flickr_photo_id_in_sdc`, appending to the error or warning
     *  file as it goes. */
    method FindFlickrPhotoIdInSdc(parse: UrlParser, rec: SnapshotRecord) returns (photoId: Option<string>)
      modifies this
      ensures photoId == PhotoIdOf(FindOutcome(parse, rec))
      ensures Contents() == Logged(old(Contents()), FindOutcome(parse, rec))
    {
      if WikidataProperties.SourceOfFile !in rec.statements || rec.statements[WikidataProperties.SourceOfFile] == [] {
        return None;
      }
      var sourceOfFile := rec.statements[WikidataProperties.SourceOfFile][0];
      var available := IsWikibaseEntity(sourceOfFile.mainsnak, WikidataEntities.FileAvailableOnInternet);
      if available != Ok(true) {
        return None;
      }
      var operator := FirstQualifier(sourceOfFile.qualifiers, WikidataProperties.Operator);
      if operator.Err? {
        return None;
      }
      var isFlickr := IsWikibaseEntity(operator.value, WikidataEntities.Flickr);
      if isFlickr != Ok(true) {
        return None;
      }
      var described := FirstQualifier(sourceOfFile.qualifiers, WikidataProperties.DescribedAtUrl);
      if described.Err? || described.value.datavalue.None? || !described.value.datavalue.value.StringValue? {
        return None;
      }
      var photoUrl := described.value.datavalue.value.str;
      var parsed := parse(photoUrl);
      if !parsed.Parsed? {
        if rec.title.Some? {
          errors := errors + [ErrorRecord(rec.title.value, photoUrl, parsed)];
        }
        return None;
      }
      if parsed.url.SinglePhoto? {
        return Some(parsed.url.photoId);
      }
      if rec.title.Some? {
        warnings := warnings + [WarningRecord(rec.title.value, photoUrl)];
      }
      return None;
    }

    /** The script's main loop over the snapshot's lines; `failure` is the
     *  exception that stopped it, if any. */
    method ScanSnapshot(parse: UrlParser, decode: string -> Result<SnapshotRecord>, lines: seq<string>)
      returns (failure: Option<Exception>)
      modifies this
      ensures (Contents(), failure) == Scan(parse, decode, lines, old(Contents()))
    {
      var i := 0;
      while i < |lines|
        invariant 0 <= i <= |lines|
        invariant Scan(parse, decode, lines[i..], Contents()) == Scan(parse, decode, lines, old(Contents()))
      {
        assert lines[i..][1..] == lines[i + 1..];
        var line := lines[i];
        if line != "[\n" {
          var rec := decode(Unframe(line));
          if rec.Err? {
            return Some(rec.error);
          }
          var photoId := FindFlickrPhotoIdInSdc(parse, rec.value);
          if photoId.Some? {
            if rec.value.title.None? {
              return Some(KeyError);
            }
            rows := rows + [CsvRow(photoId.value, rec.value.title.value, rec.value.id)];
          }
        }
        i := i + 1;
      }
      assert lines[i..] == [];
      return None;
    }
  }
}
