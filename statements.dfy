/** The builders of the statements Flickypedia writes for a photo
 *  (src/flickypedia/structured_data/statements/). Each builder is a
 *  function of the photo's metadata; the qualifiers go through
 *  `create_qualifiers`, whose result is written out here entry by entry. */
module Statements {
  import opened Wrappers
  import opened Text
  import opened Dates
  import opened Sdc
  import opened WikidataValues
  import opened QualifierDsl
  import opened FlickrUrls
  import opened FlickrMatcher
  import WP = WikidataProperties
  import WE = WikidataEntities

  // ---------------------------------------------------------------------
  // Qualifier lists whose properties are all different
  // ---------------------------------------------------------------------

  function PropertiesOf(qs: seq<QualifierValue>): (ps: seq<string>)
    ensures |ps| == |qs| && forall i :: 0 <= i < |qs| ==> ps[i] == qs[i].property
  {
    if qs == [] then [] else [qs[0].property] + PropertiesOf(qs[1..])
  }

  predicate Encodable(qs: seq<QualifierValue>) {
    forall i :: 0 <= i < |qs| ==> DataValueOf(qs[i]).Ok?
  }

  /** One single-snak entry per description, in order. */
  function Entries(qs: seq<QualifierValue>): (q: Qualifiers)
    requires Encodable(qs)
    ensures Keys(q) == PropertiesOf(qs)
    ensures forall i :: 0 <= i < |qs| ==> q[i] == (qs[i].property, SnaksFor(qs[i]))
  {
    if qs == [] then []
    else
      EncodableTail(qs);
      [(qs[0].property, SnaksFor(qs[0]))] + Entries(qs[1..])
  }

  /** Removing the first description keeps the properties distinct. */
  lemma DistinctTail(qs: seq<QualifierValue>)
    requires qs != [] && Distinct(PropertiesOf(qs))
    ensures Distinct(PropertiesOf(qs[1..])) && qs[0].property !in PropertiesOf(qs[1..])
  {
    assert PropertiesOf(qs) == [qs[0].property] + PropertiesOf(qs[1..]);
  }

  /** In the appended entries each property holds its own description's
   *  snak. */
  lemma {:induction false} EntriesLookup(qs: seq<QualifierValue>, i: nat)
    requires Encodable(qs) && Distinct(PropertiesOf(qs)) && i < |qs|
    ensures Lookup(Entries(qs), qs[i].property) == Some(SnaksFor(qs[i]))
    decreases i
  {
    if i > 0 {
      DistinctTail(qs);
      assert qs[1..][i - 1] == qs[i];
      assert qs[0].property != qs[i].property;
      EntriesLookup(qs[1..], i - 1);
    }
  }

  /** Storing a key the dict does not have appends it. */
  lemma {:induction false} PutNewKey(q: Qualifiers, k: string, v: seq<Snak>)
    requires k !in Keys(q)
    ensures Put(q, k, v) == q + [(k, v)]
  {
    if q != [] {
      assert Keys(q) == [q[0].0] + Keys(q[1..]);
      PutNewKey(q[1..], k, v);
      assert q == [q[0]] + q[1..];
    }
  }

  lemma EncodableTail(qs: seq<QualifierValue>)
    requires qs != [] && Encodable(qs)
    ensures Encodable(qs[1..])
  {
    forall i | 0 <= i < |qs[1..]| ensures DataValueOf(qs[1..][i]).Ok? {
      assert qs[1..][i] == qs[i + 1];
    }
  }

  /** A key distinct from everything after it in `ks + ps` is not in `ks`. */
  lemma NotAmongEarlier(ks: seq<string>, ps: seq<string>)
    requires ps != [] && Distinct(ks + ps)
    ensures ps[0] !in ks && Distinct((ks + [ps[0]]) + ps[1..])
  {
    forall i | 0 <= i < |ks| ensures ks[i] != ps[0] {
      assert (ks + ps)[i] == ks[i];
      assert (ks + ps)[|ks|] == ps[0];
    }
    assert (ks + [ps[0]]) + ps[1..] == ks + ps;
  }

  /** One step of `create_qualifiers` on a property not yet present. */
  lemma AddNewQualifier(acc: Qualifiers, qs: seq<QualifierValue>)
    requires qs != [] && DataValueOf(qs[0]).Ok? && qs[0].property !in Keys(acc)
    ensures AddQualifiers(acc, qs) == AddQualifiers(acc + [(qs[0].property, SnaksFor(qs[0]))], qs[1..])
  {
    PutNewKey(acc, qs[0].property, SnaksFor(qs[0]));
  }

  lemma KeysAppend(acc: Qualifiers, entry: (string, seq<Snak>))
    ensures Keys(acc + [entry]) == Keys(acc) + [entry.0]
  {
  }

  lemma PropertiesTail(qs: seq<QualifierValue>)
    requires qs != []
    ensures PropertiesOf(qs) == [qs[0].property] + PropertiesOf(qs[1..])
  {
  }

  lemma EntriesStep(acc: Qualifiers, qs: seq<QualifierValue>)
    requires qs != [] && Encodable(qs)
    ensures Encodable(qs[1..])
    ensures (acc + [(qs[0].property, SnaksFor(qs[0]))]) + Entries(qs[1..]) == acc + Entries(qs)
  {
    EncodableTail(qs);
    var entry := (qs[0].property, SnaksFor(qs[0]));
    assert Entries(qs) == [entry] + Entries(qs[1..]);
  }

  /** With no property repeated, `create_qualifiers` appends one entry per
   *  description, in order. */
  lemma {:induction false} AddDistinctQualifiers(acc: Qualifiers, qs: seq<QualifierValue>)
    requires Encodable(qs) && Distinct(Keys(acc) + PropertiesOf(qs))
    ensures AddQualifiers(acc, qs) == Ok(acc + Entries(qs))
    decreases |qs|
  {
    if qs == [] {
      assert acc + [] == acc;
    } else {
      var entry := (qs[0].property, SnaksFor(qs[0]));
      var acc' := acc + [entry];
      assert AddQualifiers(acc, qs) == AddQualifiers(acc', qs[1..])
                   && Distinct(Keys(acc') + PropertiesOf(qs[1..])) && Encodable(qs[1..]) by {
        PropertiesTail(qs);
        NotAmongEarlier(Keys(acc), PropertiesOf(qs));
        KeysAppend(acc, entry);
        AddNewQualifier(acc, qs);
        EncodableTail(qs);
      }
      assert AddQualifiers(acc', qs[1..]) == Ok(acc' + Entries(qs[1..])) by {
        AddDistinctQualifiers(acc', qs[1..]);
      }
      EntriesStep(acc, qs);
    }
  }

  /** `create_qualifiers` on descriptions of different properties. */
  function Qualify(qs: seq<QualifierValue>): (q: Qualifiers)
    requires Encodable(qs) && Distinct(PropertiesOf(qs))
    ensures AddQualifiers([], qs) == Ok(q)
    ensures q == Entries(qs) && DistinctKeys(q)
  {
    assert Keys([]) + PropertiesOf(qs) == PropertiesOf(qs);
    AddDistinctQualifiers([], qs);
    assert [] + Entries(qs) == Entries(qs);
    Entries(qs)
  }

  // ---------------------------------------------------------------------
  // Entity values of the named entities
  // ---------------------------------------------------------------------

  /** An id of the shape `Q<digits>`. */
  lemma QId(id: string)
    requires |id| >= 2 && id[0] == 'Q' && AllDigits(id[1..])
    ensures IsEntityId(id)
  {
  }

  /** The entity ids the builders name are well-formed. */
  lemma NamedEntityIds()
    ensures IsEntityId(WE.FileAvailableOnInternet) && IsEntityId(WE.Flickr)
    ensures IsEntityId(WE.Copyrighted) && IsEntityId(WE.PublicDomain)
    ensures IsEntityId(WE.DedicatedToPublicDomainByCopyrightOwner) && IsEntityId(WE.Circa)
    ensures IsEntityId(WE.UnitedStatesOfAmerica) && IsEntityId(WE.WorkOfTheFederalGovernmentOfTheUnitedStates)
    ensures IsEntityId(WE.StatedByCopyrightHolderAtSourceWebsite)
  {
    QId(WE.FileAvailableOnInternet);
    QId(WE.Flickr);
    QId(WE.Copyrighted);
    QId(WE.PublicDomain);
    QId(WE.DedicatedToPublicDomainByCopyrightOwner);
    QId(WE.Circa);
    QId(WE.UnitedStatesOfAmerica);
    QId(WE.WorkOfTheFederalGovernmentOfTheUnitedStates);
    QId(WE.StatedByCopyrightHolderAtSourceWebsite);
  }

  /** Every license in the table has a well-formed entity id. */
  lemma LicenseEntityIds(licenseId: string)
    ensures WE.License(licenseId).Some? ==> IsEntityId(WE.License(licenseId).value)
  {
    QId("Q19125117");
    QId("Q19068220");
    QId("Q20007257");
    QId("Q18199165");
    QId("Q6938433");
    QId("Q60671452");
    QId("Q19652");
  }

  /** `to_wikidata_entity_value` on a well-formed id. */
  function Entity(id: string): (v: DataValue)
    requires IsEntityId(id)
    ensures ToWikidataEntityValue(id) == Ok(v)
    ensures v.EntityIdValue? && v.id == id && v.entityType == Some("item")
  {
    ToWikidataEntityValue(id).value
  }

  /** The main snak's data value is the entity `id`. */
  predicate MainEntity(st: Statement, property: string, id: string) {
    && st.mainsnak.property == property && st.mainsnak.snaktype == ValueSnak
    && st.mainsnak.datavalue.Some? && st.mainsnak.datavalue.value.EntityIdValue?
    && st.mainsnak.datavalue.value.id == id
  }

  // ---------------------------------------------------------------------
  // Flickr photo id
  // ---------------------------------------------------------------------

  /** `create_flickr_photo_id_statement`. */
  function CreateFlickrPhotoIdStatement(photoId: string): (st: Statement)
    ensures st.mainsnak.property == WP.FlickrPhotoId && st.mainsnak.snaktype == ValueSnak
    ensures st.mainsnak.datavalue == Some(StringValue(photoId))
    ensures st.qualifiers.None? && st.qualifiersOrder.None? && st.id.None?
  {
    NewStatement(ValueSnakOf(WP.FlickrPhotoId, ToWikidataStringValue(photoId)), None, None)
  }

  /** The matcher reads a photo-id statement back as that photo, with no
   *  URL. */
  lemma PhotoIdStatementIsFound(parse: UrlParser, photoId: string)
    ensures var sdc := map[WP.FlickrPhotoId := [CreateFlickrPhotoIdStatement(photoId)]];
      FindsFromSdc(parse, sdc, Ok(Some(FindResult(photoId, None))))
  {
    var sdc := map[WP.FlickrPhotoId := [CreateFlickrPhotoIdStatement(photoId)]];
    assert StatementsOf(sdc, WP.SourceOfFile) == [];
    var st := CreateFlickrPhotoIdStatement(photoId);
    var c := map[photoId := [None]];
    assert UrlCandidates(map[], []) == Ok(map[]);
    assert StatementsOf(sdc, WP.FlickrPhotoId) == [st];
    assert IdCandidates(map[], [st]) == IdCandidates(AddCandidate(map[], photoId, None), []);
    var none: seq<Option<string>> := [None];
    assert [] + none == none;
    assert AddCandidate(map[], photoId, None) == c;
    assert CandidatesOf([], sdc) == Ok(c);
    assert c.Keys == {photoId};
    assert |c| == 1;
  }

  // ---------------------------------------------------------------------
  // Creator
  // ---------------------------------------------------------------------

  /** The fields of a Flickr user the builders read. */
  datatype FlickrUser = FlickrUser(id: string, username: string, realname: Option<string>, profileUrl: string)

  /** `user["realname"] or user["username"]`: an empty or missing real
   *  name falls back to the user name. */
  function AuthorNameOf(user: FlickrUser): (name: string)
    ensures user.realname.Some? && user.realname.value != [] ==> name == user.realname.value
    ensures user.realname.None? || user.realname.value == [] ==> name == user.username
  {
    if user.realname.Some? && user.realname.value != [] then user.realname.value else user.username
  }

  function CreatorQualifierValues(user: FlickrUser): seq<QualifierValue> {
    [ StringQualifier(WP.AuthorName, AuthorNameOf(user)),
      StringQualifier(WP.Url, user.profileUrl),
      StringQualifier(WP.FlickrUserId, user.id) ]
  }

  /** `create_flickr_creator_statement`: an unknown-value creator
   *  described by the author name, profile URL and user id. */
  function CreateFlickrCreatorStatement(user: FlickrUser): (st: Statement)
    ensures st.mainsnak == Snak(WP.Creator, SomeValue, None, None)
    ensures st.qualifiers == Some([
      (WP.AuthorName, [ValueSnakOf(WP.AuthorName, StringValue(AuthorNameOf(user)))]),
      (WP.Url, [ValueSnakOf(WP.Url, StringValue(user.profileUrl))]),
      (WP.FlickrUserId, [ValueSnakOf(WP.FlickrUserId, StringValue(user.id))])])
    ensures st.qualifiersOrder == Some([WP.FlickrUserId, WP.AuthorName, WP.Url])
  {
    var qs := CreatorQualifierValues(user);
    assert PropertiesOf(qs) == [WP.AuthorName, WP.Url, WP.FlickrUserId];
    var q := Qualify(qs);
    assert |q| == 3 && q[0] == (qs[0].property, SnaksFor(qs[0])) && q[1] == (qs[1].property, SnaksFor(qs[1]))
      && q[2] == (qs[2].property, SnaksFor(qs[2]));
    assert q == [q[0], q[1], q[2]];
    NewStatement(
      Snak(WP.Creator, SomeValue, None, None),
      Some([WP.FlickrUserId, WP.AuthorName, WP.Url]),
      Some(q))
  }

  /** The creator's qualifiers-order lists exactly its qualifier keys. */
  lemma CreatorOrderMatchesKeys(user: FlickrUser)
    ensures var st := CreateFlickrCreatorStatement(user);
      && st.qualifiers.Some? && st.qualifiersOrder.Some?
      && multiset(st.qualifiersOrder.value) == multiset(Keys(st.qualifiers.value))
  {
    var st := CreateFlickrCreatorStatement(user);
    assert Keys(st.qualifiers.value) == [WP.AuthorName, WP.Url, WP.FlickrUserId];
  }

  // ---------------------------------------------------------------------
  // Source
  // ---------------------------------------------------------------------

  function SourceQualifierValues(photoUrl: string, originalUrl: Option<string>, retrievedAt: Option<Timestamp>)
    : seq<QualifierValue>
  {
    [ StringQualifier(WP.DescribedAtUrl, photoUrl), EntityQualifier(WP.Operator, WE.Flickr) ]
    + (if originalUrl.Some? then [StringQualifier(WP.Url, originalUrl.value)] else [])
    + (if retrievedAt.Some? then [DateQualifier(WP.Retrieved, retrievedAt.value, DayPrecision)] else [])
  }

  function SourceQualifiersOrder(originalUrl: Option<string>, retrievedAt: Option<Timestamp>): seq<string> {
    [WP.DescribedAtUrl, WP.Operator]
    + (if originalUrl.Some? then [WP.Url] else [])
    + (if retrievedAt.Some? then [WP.Retrieved] else [])
  }

  /** The qualifiers-order of a source statement names each property once;
   *  the optional qualifiers appear exactly when their value is known, and
   *  the retrieval date comes last. */
  lemma SourceOrderShape(originalUrl: Option<string>, retrievedAt: Option<Timestamp>)
    ensures var order := SourceQualifiersOrder(originalUrl, retrievedAt);
      && Distinct(order) && |order| >= 2 && order[..2] == [WP.DescribedAtUrl, WP.Operator]
      && (WP.Url in order <==> originalUrl.Some?)
      && (WP.Retrieved in order <==> retrievedAt.Some?)
      && (retrievedAt.Some? ==> order[|order| - 1] == WP.Retrieved)
  {
  }

  /** The source qualifiers encode and name the properties of the order. */
  lemma SourceQualifiersEncode(photoUrl: string, originalUrl: Option<string>, retrievedAt: Option<Timestamp>)
    requires IsEntityId(WE.Flickr)
    ensures var qs := SourceQualifierValues(photoUrl, originalUrl, retrievedAt);
      Encodable(qs) && PropertiesOf(qs) == SourceQualifiersOrder(originalUrl, retrievedAt)
  {
    var qs := SourceQualifierValues(photoUrl, originalUrl, retrievedAt);
    assert DataValueOf(qs[1]).Ok?;
    var order := SourceQualifiersOrder(originalUrl, retrievedAt);
    assert |PropertiesOf(qs)| == |order|;
  }

  /** `create_source_statement`: "file available on the internet", operated
   *  by Flickr, described at the photo's URL, with the original file's
   *  URL and the retrieval date when they are known. */
  function CreateSourceStatement(photoId: string, photoUrl: string, originalUrl: Option<string>,
                                 retrievedAt: Option<Timestamp>): (st: Statement)
    ensures MainEntity(st, WP.SourceOfFile, WE.FileAvailableOnInternet)
    ensures st.qualifiersOrder == Some(SourceQualifiersOrder(originalUrl, retrievedAt))
    ensures st.qualifiers.Some? && Keys(st.qualifiers.value) == st.qualifiersOrder.value
    ensures Lookup(st.qualifiers.value, WP.DescribedAtUrl) == Some([ValueSnakOf(WP.DescribedAtUrl, StringValue(photoUrl))])
    ensures Lookup(st.qualifiers.value, WP.Operator) == Some([ValueSnakOf(WP.Operator, Entity(WE.Flickr))])
    ensures originalUrl.Some? ==>
      Lookup(st.qualifiers.value, WP.Url) == Some([ValueSnakOf(WP.Url, StringValue(originalUrl.value))])
    ensures retrievedAt.Some? ==>
      Lookup(st.qualifiers.value, WP.Retrieved)
      == Some([ValueSnakOf(WP.Retrieved, ToWikidataDateValue(retrievedAt.value, DayPrecision))])
  {
    NamedEntityIds();
    var qs := SourceQualifierValues(photoUrl, originalUrl, retrievedAt);
    var order := SourceQualifiersOrder(originalUrl, retrievedAt);
    SourceQualifiersEncode(photoUrl, originalUrl, retrievedAt);
    SourceOrderShape(originalUrl, retrievedAt);
    var q := Qualify(qs);
    SourceLookups(qs, q, photoUrl, originalUrl, retrievedAt);
    NewStatement(ValueSnakOf(WP.SourceOfFile, Entity(WE.FileAvailableOnInternet)), Some(order), Some(q))
  }

  lemma SourceLookups(qs: seq<QualifierValue>, q: Qualifiers, photoUrl: string, originalUrl: Option<string>,
                      retrievedAt: Option<Timestamp>)
    requires IsEntityId(WE.Flickr)
    requires qs == SourceQualifierValues(photoUrl, originalUrl, retrievedAt)
    requires Encodable(qs) && Distinct(PropertiesOf(qs)) && q == Entries(qs)
    ensures Lookup(q, WP.DescribedAtUrl) == Some([ValueSnakOf(WP.DescribedAtUrl, StringValue(photoUrl))])
    ensures Lookup(q, WP.Operator) == Some([ValueSnakOf(WP.Operator, Entity(WE.Flickr))])
    ensures originalUrl.Some? ==> Lookup(q, WP.Url) == Some([ValueSnakOf(WP.Url, StringValue(originalUrl.value))])
    ensures retrievedAt.Some? ==>
      Lookup(q, WP.Retrieved) == Some([ValueSnakOf(WP.Retrieved, ToWikidataDateValue(retrievedAt.value, DayPrecision))])
  {
    EntriesLookup(qs, 0);
    EntriesLookup(qs, 1);
    if originalUrl.Some? {
      EntriesLookup(qs, 2);
      if retrievedAt.Some? {
        EntriesLookup(qs, 3);
      }
    } else if retrievedAt.Some? {
      EntriesLookup(qs, 2);
    }
  }

  /** `create_source_statement` as the source runs it: the qualifier values
   *  and the qualifiers-order grow by an append for each piece that is
   *  known, and the statement is built from them at the end. */
  method BuildSourceStatement(photoId: string, photoUrl: string, originalUrl: Option<string>,
                              retrievedAt: Option<Timestamp>) returns (st: Statement)
    ensures st == CreateSourceStatement(photoId, photoUrl, originalUrl, retrievedAt)
  {
    var qualifierValues := [StringQualifier(WP.DescribedAtUrl, photoUrl), EntityQualifier(WP.Operator, WE.Flickr)];
    if originalUrl.Some? {
      qualifierValues := qualifierValues + [StringQualifier(WP.Url, originalUrl.value)];
    }
    var qualifiersOrder := [WP.DescribedAtUrl, WP.Operator];
    if originalUrl.Some? {
      qualifiersOrder := qualifiersOrder + [WP.Url];
    }
    if retrievedAt.Some? {
      qualifierValues := qualifierValues + [DateQualifier(WP.Retrieved, retrievedAt.value, DayPrecision)];
      qualifiersOrder := qualifiersOrder + [WP.Retrieved];
    }
    assert qualifierValues == SourceQualifierValues(photoUrl, originalUrl, retrievedAt);
    assert qualifiersOrder == SourceQualifiersOrder(originalUrl, retrievedAt);
    NamedEntityIds();
    SourceQualifiersEncode(photoUrl, originalUrl, retrievedAt);
    SourceOrderShape(originalUrl, retrievedAt);
    st := NewStatement(ValueSnakOf(WP.SourceOfFile, Entity(WE.FileAvailableOnInternet)), Some(qualifiersOrder),
                       Some(Qualify(qualifierValues)));
  }

  /** The photo id given to `create_source_statement` does not affect it. */
  lemma SourceIgnoresPhotoId(a: string, b: string, photoUrl: string, originalUrl: Option<string>,
                             retrievedAt: Option<Timestamp>)
    ensures CreateSourceStatement(a, photoUrl, originalUrl, retrievedAt)
         == CreateSourceStatement(b, photoUrl, originalUrl, retrievedAt)
  {
  }

  // ---------------------------------------------------------------------
  // License and copyright status
  // ---------------------------------------------------------------------

  /** `create_license_statement`: an unrecognised license is a ValueError. */
  function CreateLicenseStatement(licenseId: string): (r: Result<Statement>)
    ensures r.Err? <==> WE.License(licenseId).None?
    ensures r.Err? ==> r.error == ValueError
    ensures r.Ok? ==> MainEntity(r.value, WP.CopyrightLicense, WE.License(licenseId).value)
                      && r.value.qualifiers.None? && r.value.qualifiersOrder.None?
  {
    match WE.License(licenseId)
    case None => Err(ValueError)
    case Some(wikidataLicenseId) =>
      LicenseEntityIds(licenseId);
      Ok(NewStatement(ValueSnakOf(WP.CopyrightLicense, Entity(wikidataLicenseId)), None, None))
  }

  /** The Creative Commons licenses under which a photo stays copyrighted. */
  predicate CopyrightedLicense(licenseId: string) {
    licenseId == "cc-by-2.0" || licenseId == "cc-by-sa-2.0" || licenseId == "cc-by-4.0" || licenseId == "cc-by-sa-4.0"
  }

  /** The licenses by which the owner dedicates a photo to the public domain. */
  predicate DedicationLicense(licenseId: string) {
    licenseId == "cc0-1.0" || licenseId == "pdm"
  }

  /** A statement whose main snak names an entity and which has no
   *  qualifiers. */
  function PlainEntityStatement(property: string, id: string): (st: Statement)
    requires IsEntityId(id)
    ensures MainEntity(st, property, id) && st.qualifiers.None? && st.qualifiersOrder.None?
  {
    NewStatement(ValueSnakOf(property, Entity(id)), None, None)
  }

  /** The copyright status of a work of the US federal government: in the
   *  public domain in the United States, for that reason. */
  function UsGovCopyrightStatus(): (st: Statement)
    ensures MainEntity(st, WP.CopyrightStatus, WE.PublicDomain)
    ensures st.qualifiersOrder == Some([WP.AppliesToJurisdiction, WP.DeterminationMethod])
    ensures st.qualifiers == Some([
      (WP.AppliesToJurisdiction, [ValueSnakOf(WP.AppliesToJurisdiction, Entity(WE.UnitedStatesOfAmerica))]),
      (WP.DeterminationMethod, [ValueSnakOf(WP.DeterminationMethod, Entity(WE.WorkOfTheFederalGovernmentOfTheUnitedStates))])])
  {
    NamedEntityIds();
    EntityWithTwoQualifiers(WP.CopyrightStatus, WE.PublicDomain,
                            WP.AppliesToJurisdiction, WE.UnitedStatesOfAmerica,
                            WP.DeterminationMethod, WE.WorkOfTheFederalGovernmentOfTheUnitedStates)
  }

  /** A statement with an entity main value and two entity qualifiers. */
  function EntityWithTwoQualifiers(property: string, id: string, p1: string, e1: string, p2: string, e2: string)
    : (st: Statement)
    requires IsEntityId(id) && IsEntityId(e1) && IsEntityId(e2) && p1 != p2
    ensures MainEntity(st, property, id)
    ensures st.qualifiersOrder == Some([p1, p2])
    ensures st.qualifiers == Some([(p1, [ValueSnakOf(p1, Entity(e1))]), (p2, [ValueSnakOf(p2, Entity(e2))])])
  {
    TwoEntityQualifiers(p1, e1, p2, e2);
    NewStatement(
      ValueSnakOf(property, Entity(id)),
      Some([p1, p2]),
      Some(Qualify([EntityQualifier(p1, e1), EntityQualifier(p2, e2)])))
  }

  /** Two entity qualifiers on different properties become two one-snak
   *  entries, in order. */
  lemma TwoEntityQualifiers(p1: string, e1: string, p2: string, e2: string)
    requires IsEntityId(e1) && IsEntityId(e2) && p1 != p2
    ensures var qs := [EntityQualifier(p1, e1), EntityQualifier(p2, e2)];
      Encodable(qs) && Distinct(PropertiesOf(qs))
      && Qualify(qs) == [(p1, [ValueSnakOf(p1, Entity(e1))]), (p2, [ValueSnakOf(p2, Entity(e2))])]
  {
    var qs := [EntityQualifier(p1, e1), EntityQualifier(p2, e2)];
    assert PropertiesOf(qs) == [p1, p2];
    var q := Qualify(qs);
    assert |q| == 2 && q[0] == (qs[0].property, SnaksFor(qs[0])) && q[1] == (qs[1].property, SnaksFor(qs[1]));
    assert q == [q[0], q[1]];
  }

  /** `create_copyright_status_statement`: the licenses accepted on Commons
   *  map to a copyright status; any other is a ValueError. */
  function CreateCopyrightStatusStatement(licenseId: string): (r: Result<Statement>)
    ensures r.Ok? <==> CopyrightedLicense(licenseId) || licenseId == "usgov" || DedicationLicense(licenseId)
    ensures r.Err? ==> r.error == ValueError
    ensures CopyrightedLicense(licenseId) ==>
      r.Ok? && MainEntity(r.value, WP.CopyrightStatus, WE.Copyrighted) && r.value.qualifiers.None?
    ensures licenseId == "usgov" ==> r == Ok(UsGovCopyrightStatus())
    ensures DedicationLicense(licenseId) ==>
      r.Ok? && MainEntity(r.value, WP.CopyrightStatus, WE.DedicatedToPublicDomainByCopyrightOwner) && r.value.qualifiers.None?
  {
    if CopyrightedLicense(licenseId) then
      QId(WE.Copyrighted);
      Ok(PlainEntityStatement(WP.CopyrightStatus, WE.Copyrighted))
    else if licenseId == "usgov" then Ok(UsGovCopyrightStatus())
    else if DedicationLicense(licenseId) then
      QId(WE.DedicatedToPublicDomainByCopyrightOwner);
      Ok(PlainEntityStatement(WP.CopyrightStatus, WE.DedicatedToPublicDomainByCopyrightOwner))
    else Err(ValueError)
  }

  /** Every license the license table knows also has a copyright status, so
   *  the two statements fail together. */
  lemma LicenseAndStatusAgree(licenseId: string)
    ensures CreateLicenseStatement(licenseId).Ok? <==> CreateCopyrightStatusStatement(licenseId).Ok?
  {
  }

  // ---------------------------------------------------------------------
  // Location
  // ---------------------------------------------------------------------

  /** The fields of a Flickr location the builder reads; the coordinates
   *  are floating point in the source and only compared with 0. */
  datatype NumericLocation = NumericLocation(latitude: real, longitude: real, accuracy: int)

  /** The Wikibase precision, in degrees, for a Flickr accuracy level
   *  (1 = world … 16 = street); levels outside 1..16 are not in the table. */
  function LocationPrecision(accuracy: int): (p: Option<real>)
    ensures p.Some? <==> 1 <= accuracy <= 16
    ensures p.Some? ==> 0.0 < p.value <= 0.1
  {
    if accuracy == 16 then Some(0.00001)
    else if accuracy == 15 || accuracy == 14 then Some(0.00002777777777777778)
    else if accuracy == 13 || accuracy == 12 then Some(0.0001)
    else if accuracy == 11 then Some(0.0002777777777777778)
    else if 7 <= accuracy <= 10 then Some(0.001)
    else if accuracy == 6 then Some(0.01)
    else if accuracy == 5 || accuracy == 4 then Some(0.016666666666666666)
    else if 1 <= accuracy <= 3 then Some(0.1)
    else None
  }

  /** A more accurate Flickr location never gets a coarser precision. */
  lemma {:induction false} FinerAccuracyFinerPrecision(a: int, b: int)
    requires 1 <= a <= b <= 16
    ensures LocationPrecision(b).value <= LocationPrecision(a).value
    decreases b - a
  {
    if a < b {
      FinerAccuracyFinerPrecision(a + 1, b);
      assert LocationPrecision(a + 1).value <= LocationPrecision(a).value;
    }
  }

  const EarthGlobe := "http://www.wikidata.org/entity/Q2"

  predicate IsNullIsland(location: NumericLocation) {
    location.latitude == 0.0 && location.longitude == 0.0
  }

  /** `create_location_statement`: no location, or the null coordinates
   *  (0, 0), give no statement; an accuracy outside the table is a
   *  ValueError; otherwise the camera's coordinates on Earth, with the
   *  precision of the accuracy level and no altitude. */
  function CreateLocationStatement(location: Option<NumericLocation>): (r: Result<Option<Statement>>)
    ensures location.None? ==> r == Ok(None)
    ensures location.Some? && IsNullIsland(location.value) ==> r == Ok(None)
    ensures r.Err? <==> location.Some? && !IsNullIsland(location.value) && LocationPrecision(location.value.accuracy).None?
    ensures r.Err? ==> r.error == ValueError
    ensures r.Ok? && r.value.Some? ==>
      && location.Some? && LocationPrecision(location.value.accuracy).Some?
      && var st := r.value.value;
      && st.mainsnak.property == WP.CoordinatesOfThePointOfView && st.mainsnak.snaktype == ValueSnak
      && st.mainsnak.datavalue == Some(GlobeCoordinateValue(GlobeValue(
           location.value.latitude, location.value.longitude,
           LocationPrecision(location.value.accuracy).value, EarthGlobe, None)))
      && st.qualifiers.None? && st.qualifiersOrder.None?
  {
    if location.None? then Ok(None)
    else if IsNullIsland(location.value) then Ok(None)
    else match LocationPrecision(location.value.accuracy)
      case None => Err(ValueError)
      case Some(precision) =>
        var coord := GlobeValue(location.value.latitude, location.value.longitude, precision, EarthGlobe, None);
        Ok(Some(NewStatement(ValueSnakOf(WP.CoordinatesOfThePointOfView, GlobeCoordinateValue(coord)), None, None)))
  }

  // ---------------------------------------------------------------------
  // Date taken
  // ---------------------------------------------------------------------

  /** The date a photo was taken and Flickr's granularity for it. */
  datatype DateTaken = DateTaken(value: Timestamp, granularity: string)

  /** The Wikibase precision for a Flickr granularity. */
  function TakenPrecision(granularity: string): (p: Option<DatePrecision>)
    ensures p.Some? <==> granularity in {"second", "month", "year", "circa"}
  {
    if granularity == "second" then Some(DayPrecision)
    else if granularity == "month" then Some(MonthPrecision)
    else if granularity == "year" || granularity == "circa" then Some(YearPrecision)
    else None
  }

  /** `create_date_taken_statement`: the inception date at the precision
   *  Flickr knows it; a "circa" date is a year with the "circa" sourcing
   *  circumstance; any other granularity is a ValueError. */
  function CreateDateTakenStatement(dateTaken: DateTaken): (r: Result<Statement>)
    ensures r.Err? <==> TakenPrecision(dateTaken.granularity).None?
    ensures r.Err? ==> r.error == ValueError
    ensures r.Ok? ==>
      r.value.mainsnak
      == ValueSnakOf(WP.Inception, ToWikidataDateValue(dateTaken.value, TakenPrecision(dateTaken.granularity).value))
    ensures r.Ok? && dateTaken.granularity != "circa" ==> r.value.qualifiers.None? && r.value.qualifiersOrder.None?
    ensures r.Ok? && dateTaken.granularity == "circa" ==>
      && r.value.qualifiersOrder == Some([WP.SourcingCircumstances])
      && r.value.qualifiers == Some([(WP.SourcingCircumstances, [ValueSnakOf(WP.SourcingCircumstances, Entity(WE.Circa))])])
  {
    match TakenPrecision(dateTaken.granularity)
    case None => Err(ValueError)
    case Some(precision) =>
      var mainsnak := ValueSnakOf(WP.Inception, ToWikidataDateValue(dateTaken.value, precision));
      if dateTaken.granularity in {"second", "month", "year"} then
        Ok(NewStatement(mainsnak, None, None))
      else
        NamedEntityIds();
        var qs := [EntityQualifier(WP.SourcingCircumstances, WE.Circa)];
        assert PropertiesOf(qs) == [WP.SourcingCircumstances];
        var q := Qualify(qs);
        assert q == [q[0]];
        Ok(NewStatement(mainsnak, Some([WP.SourcingCircumstances]), Some(q)))
  }

  /** The inception date reads back as the day, month or year Flickr gave. */
  lemma DateTakenReadsBack(dateTaken: DateTaken)
    requires CreateDateTakenStatement(dateTaken).Ok? && dateTaken.value.year >= 1000
    ensures var v := CreateDateTakenStatement(dateTaken).value.mainsnak.datavalue.value;
      var p := TakenPrecision(dateTaken.granularity).value;
      v.TimeDataValue? && ParseTime(v.time.time, p) == Ok(Truncate(dateTaken.value, p))
  {
    DateValueRoundTrip(dateTaken.value, TakenPrecision(dateTaken.granularity).value);
  }

  // ---------------------------------------------------------------------
  // Published in
  // ---------------------------------------------------------------------

  /** `create_published_in_statement`: published in Flickr, on the day the
   *  photo was posted. */
  function CreatePublishedInStatement(datePosted: Timestamp): (st: Statement)
    ensures MainEntity(st, WP.PublishedIn, WE.Flickr)
    ensures st.qualifiersOrder == Some([WP.PublicationDate])
    ensures st.qualifiers == Some([(WP.PublicationDate, [ValueSnakOf(WP.PublicationDate, ToWikidataDateValue(datePosted, DayPrecision))])])
  {
    NamedEntityIds();
    var qs := [DateQualifier(WP.PublicationDate, datePosted, DayPrecision)];
    assert PropertiesOf(qs) == [WP.PublicationDate];
    var q := Qualify(qs);
    assert q == [q[0]];
    NewStatement(ValueSnakOf(WP.PublishedIn, Entity(WE.Flickr)), Some([WP.PublicationDate]), Some(q))
  }

  // ---------------------------------------------------------------------
  // BHL page id
  // ---------------------------------------------------------------------

  /** Machine tags: namespace:predicate -> values. */
  type MachineTags = map<string, seq<string>>

  const BhlPageTag := "bhl:page"

  /** The distinct `bhl:page` values of a photo. */
  function BhlCandidates(machineTags: MachineTags): set<string> {
    if BhlPageTag in machineTags then set t | t in machineTags[BhlPageTag] else {}
  }

  lemma TwoElements(s: set<string>, a: string, b: string)
    requires a in s && b in s && a != b
    ensures |s| >= 2
  {
    assert |{a, b}| == 2;
    SubsetCardinality({a, b}, s);
  }

  /** `guess_bhl_page_id`: the page id when the `bhl:page` tags name
   *  exactly one page; none when they name no page or several. The photo
   *  id only appears in the warnings. */
  function GuessBhlPageId(photoId: string, machineTags: MachineTags): (r: Option<string>)
    ensures r.Some? <==> |BhlCandidates(machineTags)| == 1
    ensures r.Some? ==> BhlCandidates(machineTags) == {r.value}
  {
    if BhlPageTag !in machineTags then None
    else
      var tags := machineTags[BhlPageTag];
      if tags == [] then
        assert BhlCandidates(machineTags) == {};
        None
      else if forall i :: 0 <= i < |tags| ==> tags[i] == tags[0] then
        assert BhlCandidates(machineTags) == {tags[0]};
        Some(tags[0])
      else
        var i :| 0 <= i < |tags| && tags[i] != tags[0];
        TwoElements(BhlCandidates(machineTags), tags[0], tags[i]);
        None
  }

  /** The Wikidata property for BHL page ids, P687. */
  const BhlPageIdProperty := "P687"

  /** `create_bhl_page_id_statement` as written: it names
   *  `WikidataProperties.BhlPageId`, which the class does not define, so
   *  the attribute lookup raises whenever a page id is found. */
  function CreateBhlPageIdStatementAsWritten(photoId: string, machineTags: MachineTags): (r: Result<Option<Statement>>)
    ensures r.Err? <==> GuessBhlPageId(photoId, machineTags).Some?
    ensures r.Err? ==> r.error == AttributeError
    ensures r.Ok? ==> r.value.None?
  {
    match GuessBhlPageId(photoId, machineTags)
    case None => Ok(None)
    case Some(bhlPageId) =>
      match WP.Attribute("BhlPageId")
      case Err(e) => Err(e)
      case Ok(property) => Ok(Some(NewStatement(ValueSnakOf(property, ToWikidataStringValue(bhlPageId)), None, None)))
  }

  /** A photo tagged `bhl:page=33665643` makes the builder as written fail
   *  instead of describing page 33665643. */
  lemma BhlPageIdAsWrittenFails()
    ensures CreateBhlPageIdStatementAsWritten("5278160019", map[BhlPageTag := ["33665643"]]) == Err(AttributeError)
  {
    assert BhlCandidates(map[BhlPageTag := ["33665643"]]) == {"33665643"};
  }

  /** `create_bhl_page_id_statement` with the property it evidently means:
   *  the page id as a string value of P687 exactly when one page id is
   *  tagged. */
  function CreateBhlPageIdStatement(photoId: string, machineTags: MachineTags): (r: Option<Statement>)
    ensures r.Some? <==> |BhlCandidates(machineTags)| == 1
    ensures r.Some? ==>
      && r.value.mainsnak.property == BhlPageIdProperty && r.value.mainsnak.snaktype == ValueSnak
      && r.value.mainsnak.datavalue.Some? && r.value.mainsnak.datavalue.value.StringValue?
      && BhlCandidates(machineTags) == {r.value.mainsnak.datavalue.value.str}
      && r.value.qualifiers.None?
  {
    match GuessBhlPageId(photoId, machineTags)
    case None => None
    case Some(bhlPageId) =>
      Some(NewStatement(ValueSnakOf(BhlPageIdProperty, ToWikidataStringValue(bhlPageId)), None, None))
  }

  /** Where the builder as written succeeds, the corrected one agrees. */
  lemma BhlCorrectionAgrees(photoId: string, machineTags: MachineTags)
    requires CreateBhlPageIdStatementAsWritten(photoId, machineTags).Ok?
    ensures CreateBhlPageIdStatement(photoId, machineTags) == None
  {
  }
}
