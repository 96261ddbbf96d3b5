/** Loading the spreadsheet of photo ids found in a snapshot into a
 *  lookup database (duplicates_from_sdc/csv_to_sqlite.py): the rows are
 *  de-duplicated by Flickr photo id, keeping the first, and the database
 *  is named after the date in the spreadsheet's file name. */
module CsvToSqlite {
  import opened Wrappers
  import opened Text
  import opened SnapshotScan

  /** A row inserted into `flickr_photos_on_wikimedia`. */
  type DbRow = (string, string, string)

  function DbRowOf(row: CsvRow): DbRow {
    (row.flickrPhotoId, row.wikimediaTitle, row.wikimediaPageId)
  }

  /** Row `i` is the first with its photo id. */
  predicate IsFirst(rows: seq<CsvRow>, i: nat)
    requires i < |rows|
  {
    forall j :: 0 <= j < i ==> rows[j].flickrPhotoId != rows[i].flickrPhotoId
  }

  /** The rows among the first `n` that are the first with their photo id,
   *  in input order. */
  function KeepFirst(rows: seq<CsvRow>, n: nat): seq<DbRow>
    requires n <= |rows|
  {
    if n == 0 then []
    else KeepFirst(rows, n - 1) + (if IsFirst(rows, n - 1) then [DbRowOf(rows[n - 1])] else [])
  }

  /** The photo ids of the first `n` rows. */
  function IdsOf(rows: seq<CsvRow>, n: nat): set<string>
    requires n <= |rows|
  {
    set j | 0 <= j < n :: rows[j].flickrPhotoId
  }

  /** `unique_rows`: a row is yielded unless its photo id has been seen. */
  method UniqueRows(rows: seq<CsvRow>) returns (r: seq<DbRow>)
    ensures r == KeepFirst(rows, |rows|)
  {
    var storedIds: set<string> := {};
    r := [];
    var i := 0;
    while i < |rows|
      invariant 0 <= i <= |rows|
      invariant storedIds == IdsOf(rows, i)
      invariant r == KeepFirst(rows, i)
    {
      var row := rows[i];
      assert IdsOf(rows, i + 1) == IdsOf(rows, i) + {row.flickrPhotoId};
      if row.flickrPhotoId in storedIds {
        assert !IsFirst(rows, i);
      } else {
        assert IsFirst(rows, i);
        storedIds := storedIds + {row.flickrPhotoId};
        r := r + [DbRowOf(row)];
      }
      i := i + 1;
    }
  }

  /** The yielded photo ids are pairwise distinct. */
  lemma {:induction false} KeepFirstDistinct(rows: seq<CsvRow>, n: nat)
    requires n <= |rows|
    ensures forall p, q :: 0 <= p < q < |KeepFirst(rows, n)| ==> KeepFirst(rows, n)[p].0 != KeepFirst(rows, n)[q].0
    ensures forall p :: 0 <= p < |KeepFirst(rows, n)| ==> KeepFirst(rows, n)[p].0 in IdsOf(rows, n)
  {
    if n > 0 {
      KeepFirstDistinct(rows, n - 1);
      var prev := KeepFirst(rows, n - 1);
      if IsFirst(rows, n - 1) {
        forall p | 0 <= p < |prev| ensures prev[p].0 != rows[n - 1].flickrPhotoId {
          var j :| 0 <= j < n - 1 && rows[j].flickrPhotoId == prev[p].0;
        }
      }
    }
  }

  /** Every photo id of the input is yielded exactly once, with the title
   *  and page id of the first row that has it. */
  lemma {:induction false} KeepFirstComplete(rows: seq<CsvRow>, n: nat, i: nat)
    requires i < n <= |rows|
    ensures exists p, j :: (0 <= p < |KeepFirst(rows, n)| && 0 <= j <= i
      && rows[j].flickrPhotoId == rows[i].flickrPhotoId && IsFirst(rows, j)
      && KeepFirst(rows, n)[p] == DbRowOf(rows[j]))
  {
    if i < n - 1 {
      KeepFirstComplete(rows, n - 1, i);
      var p, j :| 0 <= p < |KeepFirst(rows, n - 1)| && 0 <= j <= i
        && rows[j].flickrPhotoId == rows[i].flickrPhotoId && IsFirst(rows, j)
        && KeepFirst(rows, n - 1)[p] == DbRowOf(rows[j]);
      assert KeepFirst(rows, n)[p] == KeepFirst(rows, n - 1)[p];
    } else if IsFirst(rows, i) {
      assert KeepFirst(rows, n)[|KeepFirst(rows, n - 1)|] == DbRowOf(rows[i]);
    } else {
      var j :| 0 <= j < i && rows[j].flickrPhotoId == rows[i].flickrPhotoId;
      FirstOccurrence(rows, j);
      var j' :| 0 <= j' <= j && rows[j'].flickrPhotoId == rows[j].flickrPhotoId && IsFirst(rows, j');
      KeepFirstComplete(rows, n - 1, j');
      var p, j'' :| 0 <= p < |KeepFirst(rows, n - 1)| && 0 <= j'' <= j'
        && rows[j''].flickrPhotoId == rows[j'].flickrPhotoId && IsFirst(rows, j'')
        && KeepFirst(rows, n - 1)[p] == DbRowOf(rows[j'']);
      assert KeepFirst(rows, n)[p] == KeepFirst(rows, n - 1)[p];
    }
  }

  /** Every photo id has a first row. */
  lemma {:induction false} FirstOccurrence(rows: seq<CsvRow>, i: nat)
    requires i < |rows|
    ensures exists j :: 0 <= j <= i && rows[j].flickrPhotoId == rows[i].flickrPhotoId && IsFirst(rows, j)
  {
    if !IsFirst(rows, i) {
      var j :| 0 <= j < i && rows[j].flickrPhotoId == rows[i].flickrPhotoId;
      FirstOccurrence(rows, j);
    }
  }

  // ---------------------------------------------------------------------
  // The database name
  // ---------------------------------------------------------------------

  /** The length of the run of ASCII digits starting at `i`. */
  function DigitRun(s: string, i: nat): (n: nat)
    requires i <= |s|
    ensures i + n <= |s| && AllDigits(s[i..i + n]) && (i + n < |s| ==> !IsDigit(s[i + n]))
    decreases |s| - i
  {
    if i == |s| || !IsDigit(s[i]) then 0
    else
      var n := DigitRun(s, i + 1);
      assert s[i..i + 1 + n] == [s[i]] + s[i + 1..i + 1 + n];
      1 + n
  }

  /** `re.search(r"\.(\d+)\.", s)` from position `i`: the digits of the
   *  leftmost match. */
  function SearchDate(s: string, i: nat): Option<string>
    requires i <= |s|
    decreases |s| - i
  {
    if i == |s| then None
    else
      var n := if s[i] == '.' then DigitRun(s, i + 1) else 0;
      if n > 0 && i + 1 + n < |s| && s[i + 1 + n] == '.' then Some(s[i + 1..i + 1 + n])
      else SearchDate(s, i + 1)
  }

  const DefaultDbPath := "flickr_ids_from_sdc.sqlite"

  /** The name of the database built from the spreadsheet at `csvPath`. */
  function DbPath(csvPath: string): string {
    match SearchDate(csvPath, 0)
    case None => DefaultDbPath
    case Some(date) => "flickr_ids_from_sdc." + date + ".sqlite"
  }

  /** `s` has a segment `.<digits>.` with the dots at `i` and `j`. */
  predicate DateSegment(s: string, i: nat, j: nat) {
    i + 1 < j < |s| && s[i] == '.' && s[j] == '.' && AllDigits(s[i + 1..j])
  }

  /** The search finds a segment, the leftmost one at or after `k`, and only
   *  when one exists. */
  lemma {:induction false} SearchDateMeaning(s: string, k: nat)
    requires k <= |s|
    ensures SearchDate(s, k).Some? ==>
      exists i: nat, j: nat :: k <= i && DateSegment(s, i, j) && SearchDate(s, k).value == s[i + 1..j]
    ensures SearchDate(s, k).None? ==> forall i: nat, j: nat :: k <= i && DateSegment(s, i, j) ==> false
    decreases |s| - k
  {
    if k < |s| {
      SearchDateMeaning(s, k + 1);
      var n := if s[k] == '.' then DigitRun(s, k + 1) else 0;
      if n > 0 && k + 1 + n < |s| && s[k + 1 + n] == '.' {
        assert DateSegment(s, k, k + 1 + n);
      } else {
        forall j | DateSegment(s, k, j) ensures false {
          DigitRunCovers(s, k + 1, j);
        }
      }
    }
  }

  /** A run of digits ending in a non-digit is the whole digit run. */
  lemma DigitRunCovers(s: string, i: nat, j: nat)
    requires i < j < |s| && AllDigits(s[i..j]) && !IsDigit(s[j])
    ensures DigitRun(s, i) == j - i
    decreases j - i
  {
    assert IsDigit(s[i..j][0]);
    if i + 1 < j {
      assert s[i + 1..j] == s[i..j][1..];
      DigitRunCovers(s, i + 1, j);
    }
  }

  /** The dated name is used exactly when the path holds a `.<digits>.`
   *  segment, and it carries that segment's digits. */
  lemma DbPathMeaning(csvPath: string)
    ensures DbPath(csvPath) == DefaultDbPath <==> forall i: nat, j: nat :: DateSegment(csvPath, i, j) ==> false
    ensures DbPath(csvPath) != DefaultDbPath ==> exists i: nat, j: nat ::
      DateSegment(csvPath, i, j) && DbPath(csvPath) == "flickr_ids_from_sdc." + csvPath[i + 1..j] + ".sqlite"
  {
    SearchDateMeaning(csvPath, 0);
    if SearchDate(csvPath, 0).Some? {
      var d := SearchDate(csvPath, 0).value;
      assert |"flickr_ids_from_sdc." + d + ".sqlite"| != |DefaultDbPath|;
    }
  }

  /** A spreadsheet named like `flickr_ids_from_sdc.20231009.csv` (no dot
   *  before its `.<digits>.` segment) gives the dated database name. */
  lemma DatedSpreadsheetName(stem: string, date: string, ext: string)
    requires '.' !in stem && date != [] && AllDigits(date)
    ensures DbPath(stem + "." + date + "." + ext) == "flickr_ids_from_sdc." + date + ".sqlite"
  {
    var s := stem + "." + date + "." + ext;
    var i := |stem|;
    var j := |stem| + 1 + |date|;
    assert s[i + 1..j] == date;
    assert DateSegment(s, i, j);
    forall i': nat, j': nat | i' < i && DateSegment(s, i', j') ensures false {
    }
    SearchDateLeftmost(s, 0, i, j);
  }

  /** The search returns the segment whose first dot is leftmost. */
  lemma {:induction false} SearchDateLeftmost(s: string, k: nat, i: nat, j: nat)
    requires k <= i && DateSegment(s, i, j)
    requires forall i': nat, j': nat :: k <= i' < i && DateSegment(s, i', j') ==> false
    ensures SearchDate(s, k) == Some(s[i + 1..j])
    decreases i - k
  {
    if k < i {
      var n := if s[k] == '.' then DigitRun(s, k + 1) else 0;
      assert !DateSegment(s, k, k + 1 + n);
      SearchDateLeftmost(s, k + 1, i, j);
    } else {
      DigitRunCovers(s, i + 1, j);
    }
  }
}
