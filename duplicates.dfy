/** Looking up which Flickr photos are already on Commons
 *  (src/flickypedia/duplicates.py).
 *
 *  The directory of lookup databases is the sequence of its entries in
 *  the order the directory listing returns them, each a file name and,
 *  for a database, its `flickr_photos_on_wikimedia` table as a map from
 *  photo id to page id (the photo id is the table's primary key). */
module Duplicates {
  import opened Text

  type Table = map<string, string>

  /** A directory entry: a file name and the table it holds. */
  datatype DbFile = DbFile(name: string, table: Table)

  /** The rows of `table` whose photo id is among `ids`: what the `IN (…)`
   *  query fetches. */
  function Fetch(table: Table, ids: seq<string>): (rows: Table)
    ensures rows.Keys <= table.Keys && forall k :: k in rows ==> k in ids && rows[k] == table[k]
    ensures forall k :: k in table && k in ids ==> k in rows
  {
    map k | k in table && k in ids :: table[k]
  }

  /** Only files ending in `.sqlite` are opened. */
  predicate IsDatabase(f: DbFile) {
    EndsWith(f.name, ".sqlite")
  }

  /** The `result` dict after the first `n` directory entries: each database
   *  overwrites what earlier ones said about the same photo. */
  function Merged(dir: seq<DbFile>, n: nat, ids: seq<string>): Table
    requires n <= |dir|
  {
    if n == 0 then map[]
    else if IsDatabase(dir[n - 1]) then Merged(dir, n - 1, ids) + Fetch(dir[n - 1].table, ids)
    else Merged(dir, n - 1, ids)
  }

  /** The names of the databases among the first `n` directory entries,
   *  in listing order. */
  function DatabaseNames(dir: seq<DbFile>, n: nat): (names: seq<string>)
    requires n <= |dir|
    ensures forall name :: name in names ==> EndsWith(name, ".sqlite")
  {
    if n == 0 then []
    else DatabaseNames(dir, n - 1) + (if IsDatabase(dir[n - 1]) then [dir[n - 1].name] else [])
  }

  /** The photos of `ids` that `result` knows, in the order of `ids`. */
  function InInputOrder(ids: seq<string>, result: Table): (r: seq<(string, string)>)
    ensures |r| <= |ids|
    ensures forall p :: p in r ==> p.0 in ids && p.0 in result && p.1 == result[p.0]
  {
    if ids == [] then []
    else (if ids[0] in result then [(ids[0], result[ids[0]])] else []) + InInputOrder(ids[1..], result)
  }

  /** One more directory entry: a database adds its rows and its name,
   *  any other file nothing. */
  lemma MergedStep(dir: seq<DbFile>, i: nat, ids: seq<string>)
    requires i < |dir|
    ensures IsDatabase(dir[i]) ==>
      && Merged(dir, i + 1, ids) == Merged(dir, i, ids) + Fetch(dir[i].table, ids)
      && DatabaseNames(dir, i + 1) == DatabaseNames(dir, i) + [dir[i].name]
    ensures !IsDatabase(dir[i]) ==>
      && Merged(dir, i + 1, ids) == Merged(dir, i, ids)
      && DatabaseNames(dir, i + 1) == DatabaseNames(dir, i)
  {
  }

  /** `find_duplicates`; `consulted` lists the databases opened. */
  method FindDuplicates(flickrPhotoIds: seq<string>, dir: seq<DbFile>)
    returns (r: seq<(string, string)>, consulted: seq<string>)
    ensures flickrPhotoIds == [] ==> r == [] && consulted == []
    ensures flickrPhotoIds != [] ==> r == InInputOrder(flickrPhotoIds, Merged(dir, |dir|, flickrPhotoIds))
    ensures flickrPhotoIds != [] ==> consulted == DatabaseNames(dir, |dir|)
  {
    if flickrPhotoIds == [] {
      return [], [];
    }
    var result: Table := map[];
    consulted := [];
    for i := 0 to |dir|
      invariant result == Merged(dir, i, flickrPhotoIds)
      invariant consulted == DatabaseNames(dir, i)
    {
      MergedStep(dir, i, flickrPhotoIds);
      if EndsWith(dir[i].name, ".sqlite") {
        consulted := consulted + [dir[i].name];
        result := result + Fetch(dir[i].table, flickrPhotoIds);
      }
    }
    r := InInputOrder(flickrPhotoIds, result);
  }

  /** Every photo id in the merged result was asked for. */
  lemma {:induction false} MergedKeysAsked(dir: seq<DbFile>, n: nat, ids: seq<string>)
    requires n <= |dir|
    ensures forall k :: k in Merged(dir, n, ids) ==> k in ids
  {
    if n > 0 {
      MergedKeysAsked(dir, n - 1, ids);
    }
  }

  /** A photo's page id comes from the last database in the listing that
   *  has it. */
  lemma {:induction false} LaterDatabaseWins(dir: seq<DbFile>, n: nat, ids: seq<string>, k: string, i: nat)
    requires i < n <= |dir| && k in ids
    requires IsDatabase(dir[i]) && k in dir[i].table
    requires forall j :: i < j < n && IsDatabase(dir[j]) ==> k !in dir[j].table
    ensures k in Merged(dir, n, ids) && Merged(dir, n, ids)[k] == dir[i].table[k]
  {
    if i < n - 1 {
      LaterDatabaseWins(dir, n - 1, ids, k, i);
    }
  }

  /** A photo no database has is not in the result. */
  lemma {:induction false} MissingEverywhere(dir: seq<DbFile>, n: nat, ids: seq<string>, k: string)
    requires n <= |dir|
    requires forall j :: 0 <= j < n && IsDatabase(dir[j]) ==> k !in dir[j].table
    ensures k !in Merged(dir, n, ids)
  {
    if n > 0 {
      MissingEverywhere(dir, n - 1, ids, k);
    }
  }

  /** The result lists the found ids in input order: it splits as the
   *  input does. */
  lemma {:induction false} InInputOrderAppend(a: seq<string>, b: seq<string>, result: Table)
    ensures InInputOrder(a + b, result) == InInputOrder(a, result) + InInputOrder(b, result)
  {
    if a == [] {
      assert a + b == b;
    } else {
      assert (a + b)[1..] == a[1..] + b;
      InInputOrderAppend(a[1..], b, result);
    }
  }

  /** An input id that was found is in the result. */
  lemma {:induction false} FoundIdsReported(ids: seq<string>, result: Table, k: string)
    requires k in ids && k in result
    ensures (k, result[k]) in InInputOrder(ids, result)
  {
    if ids[0] != k {
      FoundIdsReported(ids[1..], result, k);
    }
  }

  // ---------------------------------------------------------------------
  // The media search link
  // ---------------------------------------------------------------------

  const MediaSearchPrefix := "https://commons.wikimedia.org/wiki/Special:MediaSearch?type=image&search=pageid:"

  /** The page ids with every `M` removed. */
  function NumericPageIds(duplicates: seq<(string, string)>): (ids: seq<string>)
    ensures |ids| == |duplicates|
    ensures forall i :: 0 <= i < |ids| ==> 'M' !in ids[i]
  {
    if duplicates == [] then []
    else
      ReplaceAllRemovesChar(duplicates[0].1, 'M');
      [ReplaceAll(duplicates[0].1, "M", "")] + NumericPageIds(duplicates[1..])
  }

  /** `create_media_search_link`. */
  function CreateMediaSearchLink(duplicates: seq<(string, string)>): (link: string)
    ensures StartsWith(link, MediaSearchPrefix)
  {
    MediaSearchPrefix + Join("|", NumericPageIds(duplicates))
  }

  /** A page id `M<digits>` becomes its digits. */
  lemma NumericPageId(digits: string)
    requires AllDigits(digits)
    ensures ReplaceAll("M" + digits, "M", "") == digits
  {
    var s := "M" + digits;
    assert s[..1] == "M";
    assert s[1..] == digits;
    NoMInDigits(digits);
  }

  /** Text without `M` is unchanged by removing `M`s. */
  lemma {:induction false} NoMInDigits(digits: string)
    requires AllDigits(digits)
    ensures ReplaceAll(digits, "M", "") == digits
    decreases |digits|
  {
    if |digits| >= 1 {
      assert digits[..1] == [digits[0]];
      assert IsDigit(digits[0]);
      NoMInDigits(digits[1..]);
    }
  }

  /** The link for the example in `find_duplicates`' documentation. */
  lemma SingleDuplicateLink()
    ensures CreateMediaSearchLink([("53240661807", "M138598125")]) == MediaSearchPrefix + "138598125"
  {
    var digits := "138598125";
    assert AllDigits(digits);
    assert "M138598125" == "M" + digits;
    NumericPageId(digits);
    var dups := [("53240661807", "M138598125")];
    assert dups[1..] == [];
    assert NumericPageIds(dups) == [digits];
    assert Join("|", [digits]) == digits;
  }
}
