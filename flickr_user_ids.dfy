/** Linking Flickr users to Wikidata entities
 *  (src/flickypedia/apis/flickr_user_ids.py).
 *
 *  The SPARQL query that lists every entity with a "Flickr user ID"
 *  (P3267) is not modelled: its decoded bindings are the input of the
 *  table builder. */
module FlickrUserIds {
  import opened Wrappers
  import opened Text

  // ---------------------------------------------------------------------
  // is_flickr_user_id

  /** `[0-9]{5,11}@N[0-9]{2}` matching the whole of `s`. */
  predicate UserIdShape(s: string) {
    9 <= |s| <= 15 && AllDigits(s[..|s| - 4]) && s[|s| - 4] == '@' && s[|s| - 3] == 'N'
    && AllDigits(s[|s| - 2..])
  }

  /** `is_flickr_user_id`: `re.match(r"^[0-9]{5,11}@N[0-9]{2}$", s)`,
   *  where `$` also matches before one final newline. */
  predicate IsFlickrUserId(s: string) {
    UserIdShape(s) || (s != [] && s[|s| - 1] == '\n' && UserIdShape(s[..|s| - 1]))
  }

  /** Every 5 to 11 digits, followed by "@N" and two digits, have the
   *  shape of a user id ... */
  lemma UserIdFromParts(digits: string, suffix: string)
    requires 5 <= |digits| <= 11 && AllDigits(digits) && |suffix| == 2 && AllDigits(suffix)
    ensures UserIdShape(digits + "@N" + suffix)
  {
    var s := digits + "@N" + suffix;
    assert s[..|s| - 4] == digits && s[|s| - 2..] == suffix;
  }

  /** ... and every string of that shape is made of such parts. */
  lemma UserIdToParts(s: string)
    requires UserIdShape(s)
    ensures var digits := s[..|s| - 4]; var suffix := s[|s| - 2..];
      && s == digits + "@N" + suffix
      && 5 <= |digits| <= 11 && AllDigits(digits) && |suffix| == 2 && AllDigits(suffix)
  {
    assert s[|s| - 4..|s| - 2] == "@N";
    assert s == s[..|s| - 4] + s[|s| - 4..|s| - 2] + s[|s| - 2..];
  }

  /** A path alias, which cannot contain "@", is never taken for a user id. */
  lemma AliasIsNotUserId(s: string)
    requires '@' !in s
    ensures !IsFlickrUserId(s)
  {
  }

  // ---------------------------------------------------------------------
  // lookup_flickr_user_in_wikidata

  /** `WikidataEntityLookup`. */
  datatype EntityLookup = EntityLookup(byUserId: map<string, string>, byPathAlias: map<string, string>)

  /** `lookup_flickr_user_in_wikidata`, given the lookup tables: the user
   *  id is tried first, then the path alias if the user has one. */
  function LookupFlickrUserInWikidata(lookup: EntityLookup, userId: string, pathAlias: Option<string>): (r: Option<string>)
    ensures userId in lookup.byUserId ==> r == Some(lookup.byUserId[userId])
    ensures userId !in lookup.byUserId && pathAlias.Some? && pathAlias.value in lookup.byPathAlias ==>
      r == Some(lookup.byPathAlias[pathAlias.value])
    ensures r.None? <==> userId !in lookup.byUserId && (pathAlias.None? || pathAlias.value !in lookup.byPathAlias)
  {
    if userId in lookup.byUserId then Some(lookup.byUserId[userId])
    else if pathAlias.Some? && pathAlias.value in lookup.byPathAlias then Some(lookup.byPathAlias[pathAlias.value])
    else None
  }

  // ---------------------------------------------------------------------
  // find_wikidata_entities_with_flickr_ids

  /** One RDF term of a SPARQL binding: its `type` and `value`. */
  datatype Term = Term(termType: string, value: string)

  /** A binding of `?item` (the entity) and `?value` (the Flickr user id
   *  or path alias stored on it). */
  datatype Binding = Binding(item: Term, value: Term)

  const EntityPrefix := "http://www.wikidata.org/entity/"

  /** The bindings the table builder keeps; the others are skipped. */
  predicate Accepted(b: Binding) {
    b.item.termType == "uri" && StartsWith(b.item.value, EntityPrefix) && b.value.termType == "literal"
  }

  /** The entity id: the URI with every occurrence of the prefix removed
   *  (`str.replace`). */
  function EntityIdOf(b: Binding): string {
    ReplaceAll(b.item.value, EntityPrefix, "")
  }

  /** What one loop iteration does to the tables. */
  function AddBinding(t: EntityLookup, b: Binding): EntityLookup {
    if !Accepted(b) then t
    else if IsFlickrUserId(b.value.value) then t.(byUserId := t.byUserId[b.value.value := EntityIdOf(b)])
    else t.(byPathAlias := t.byPathAlias[b.value.value := EntityIdOf(b)])
  }

  /** The tables after the bindings, in order. */
  function Tables(bindings: seq<Binding>): EntityLookup {
    if bindings == [] then EntityLookup(map[], map[])
    else AddBinding(Tables(bindings[..|bindings| - 1]), bindings[|bindings| - 1])
  }

  /** `find_wikidata_entities_with_flickr_ids`, from the decoded bindings. */
  method FindWikidataEntitiesWithFlickrIds(bindings: seq<Binding>) returns (result: EntityLookup)
    ensures result == Tables(bindings)
  {
    result := EntityLookup(map[], map[]);
    for i := 0 to |bindings|
      invariant result == Tables(bindings[..i])
    {
      var entity := bindings[i];
      assert bindings[..i + 1][..i] == bindings[..i];
      if !Accepted(entity) {
        continue;
      }
      var wikidataEntityId := ReplaceAll(entity.item.value, EntityPrefix, "");
      var wikidataText := entity.value.value;
      if IsFlickrUserId(wikidataText) {
        result := result.(byUserId := result.byUserId[wikidataText := wikidataEntityId]);
      } else {
        result := result.(byPathAlias := result.byPathAlias[wikidataText := wikidataEntityId]);
      }
    }
    assert bindings[..|bindings|] == bindings;
  }

  /** The last accepted binding whose value is `k`. */
  function LastFor(bindings: seq<Binding>, k: string): (r: Option<nat>)
    ensures r.Some? ==> r.value < |bindings| && Accepted(bindings[r.value]) && bindings[r.value].value.value == k
    ensures r.Some? ==> forall j :: r.value < j < |bindings| ==> !(Accepted(bindings[j]) && bindings[j].value.value == k)
    ensures r.None? <==> forall j :: 0 <= j < |bindings| ==> !(Accepted(bindings[j]) && bindings[j].value.value == k)
  {
    if bindings == [] then None
    else
      var n := |bindings| - 1;
      if Accepted(bindings[n]) && bindings[n].value.value == k then Some(n)
      else
        var r := LastFor(bindings[..n], k);
        assert forall j :: 0 <= j < n ==> bindings[..n][j] == bindings[j];
        r
  }

  /** A user-id-shaped value is found in `by_user_id`, any other in
   *  `by_pathalias`, each mapped to the entity of its last binding;
   *  skipped bindings contribute nothing. */
  lemma {:induction false} TablesMeaning(bindings: seq<Binding>, k: string)
    ensures k in Tables(bindings).byUserId <==> IsFlickrUserId(k) && LastFor(bindings, k).Some?
    ensures k in Tables(bindings).byPathAlias <==> !IsFlickrUserId(k) && LastFor(bindings, k).Some?
    ensures k in Tables(bindings).byUserId ==>
      Tables(bindings).byUserId[k] == EntityIdOf(bindings[LastFor(bindings, k).value])
    ensures k in Tables(bindings).byPathAlias ==>
      Tables(bindings).byPathAlias[k] == EntityIdOf(bindings[LastFor(bindings, k).value])
  {
    if bindings != [] {
      var n := |bindings| - 1;
      TablesMeaning(bindings[..n], k);
      assert forall j :: 0 <= j < n ==> bindings[..n][j] == bindings[j];
    }
  }

  /** Looking up a user in the built tables: the entity of the last
   *  binding for the user id, else for the path alias, else nothing. */
  lemma LookupInTables(bindings: seq<Binding>, userId: string, pathAlias: Option<string>)
    requires IsFlickrUserId(userId)
    requires pathAlias.Some? ==> '@' !in pathAlias.value
    ensures var r := LookupFlickrUserInWikidata(Tables(bindings), userId, pathAlias);
      && (LastFor(bindings, userId).Some? ==> r == Some(EntityIdOf(bindings[LastFor(bindings, userId).value])))
      && (LastFor(bindings, userId).None? && pathAlias.Some? && LastFor(bindings, pathAlias.value).Some? ==>
            r == Some(EntityIdOf(bindings[LastFor(bindings, pathAlias.value).value])))
      && (r.None? <==> LastFor(bindings, userId).None? && (pathAlias.None? || LastFor(bindings, pathAlias.value).None?))
  {
    TablesMeaning(bindings, userId);
    if pathAlias.Some? {
      AliasIsNotUserId(pathAlias.value);
      TablesMeaning(bindings, pathAlias.value);
    }
  }
}
