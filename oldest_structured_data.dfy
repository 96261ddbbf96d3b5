/** The oldest statement builders (src/flickypedia/apis/structured_data.py),
 *  which predate the qualifier DSL: a qualifier is a plain dict whose key
 *  set decides how it is encoded, and entity values carry only an `id`.
 *  Two of the builders fail on every call as written; each is modelled as
 *  written and with the evident correction. */
module OldestStructuredData {
  import opened Wrappers
  import opened Dates
  import opened Sdc
  import opened WikidataValues
  import opened ApisWikidata
  import Statements
  import WP = WikidataProperties
  import WE = WikidataEntities

  // ---------------------------------------------------------------------
  // Entity values and qualifier dicts
  // ---------------------------------------------------------------------

  /** `_wikibase_entity_value`: a value snak whose entity value names only
   *  the id, with no entity type and no numeric id. */
  function EntityValueSnak(property: string, entityId: string): (s: Snak)
    ensures s.property == property && s.snaktype == ValueSnak && s.hash.None?
    ensures s.datavalue.Some? && s.datavalue.value.EntityIdValue? && s.datavalue.value.id == entityId
    ensures s.datavalue.value.entityType.None? && s.datavalue.value.numericId.None?
  {
    ValueSnakOf(property, EntityIdValue(None, entityId, None))
  }

  /** A qualifier dict: each field is a key that may be absent. */
  datatype OldQualifier = OldQualifier(
    property: Option<string>,
    value: Option<string>,
    entityId: Option<string>,
    date: Option<Timestamp>,
    precision: Option<string>)

  function StringDict(property: string, value: string): OldQualifier {
    OldQualifier(Some(property), Some(value), None, None, None)
  }

  function EntityDict(property: string, entityId: string): OldQualifier {
    OldQualifier(Some(property), None, Some(entityId), None, None)
  }

  function DateDict(property: string, date: Timestamp, precision: string): OldQualifier {
    OldQualifier(Some(property), None, None, Some(date), Some(precision))
  }

  /** The key set of a dict that has a "property" key, as far as the
   *  encoder tells them apart: {property, value}, {property, entity_id},
   *  {property, date, precision}, or any other set. */
  datatype Shape = StringShape | EntityShape | DateShape | OtherShape

  function ShapeOf(q: OldQualifier): (s: Shape)
    ensures s == StringShape <==> q.value.Some? && q.entityId.None? && q.date.None? && q.precision.None?
    ensures s == EntityShape <==> q.value.None? && q.entityId.Some? && q.date.None? && q.precision.None?
    ensures s == DateShape <==> q.value.None? && q.entityId.None? && q.date.Some? && q.precision.Some?
  {
    if q.value.Some? && q.entityId.None? && q.date.None? && q.precision.None? then StringShape
    else if q.value.None? && q.entityId.Some? && q.date.None? && q.precision.None? then EntityShape
    else if q.value.None? && q.entityId.None? && q.date.Some? && q.precision.Some? then DateShape
    else OtherShape
  }

  /** The snak one qualifier dict becomes: a dict with another key set is
   *  a ValueError, and so is a date with a precision `to_wikidata_date`
   *  does not know. */
  function QualifierSnak(q: OldQualifier): (r: Result<Snak>)
    requires q.property.Some?
    ensures r.Err? <==> ShapeOf(q) == OtherShape || (ShapeOf(q) == DateShape && ToWikidataDate(q.date.value, q.precision.value).Err?)
    ensures r.Err? ==> r.error == ValueError
    ensures r.Ok? ==> r.value.property == q.property.value && r.value.snaktype == ValueSnak
    ensures ShapeOf(q) == StringShape ==> r == Ok(ValueSnakOf(q.property.value, StringValue(q.value.value)))
    ensures ShapeOf(q) == EntityShape ==> r == Ok(EntityValueSnak(q.property.value, q.entityId.value))
    ensures ShapeOf(q) == DateShape && r.Ok? ==>
      r.value == ValueSnakOf(q.property.value, ToWikidataDate(q.date.value, q.precision.value).value)
  {
    match ShapeOf(q)
    case StringShape => Ok(ValueSnakOf(q.property.value, StringValue(q.value.value)))
    case EntityShape => Ok(EntityValueSnak(q.property.value, q.entityId.value))
    case DateShape =>
      (match ToWikidataDate(q.date.value, q.precision.value)
       case Err(e) => Err(e)
       case Ok(dv) => Ok(ValueSnakOf(q.property.value, dv)))
    case OtherShape => Err(ValueError)
  }

  /** A dict the encoder accepts. */
  predicate Encodes(q: OldQualifier) {
    q.property.Some? && QualifierSnak(q).Ok?
  }

  /** What `_create_qualifiers` computes from an initial dict `acc`; a dict
   *  without a "property" key is a KeyError. */
  function AddOldQualifiers(acc: Qualifiers, qs: seq<OldQualifier>): Result<Qualifiers>
    decreases |qs|
  {
    if qs == [] then Ok(acc)
    else if qs[0].property.None? then Err(KeyError)
    else
      match QualifierSnak(qs[0])
      case Err(e) => Err(e)
      case Ok(s) => AddOldQualifiers(Put(acc, qs[0].property.value, [s]), qs[1..])
  }

  /** `_create_qualifiers`. */
  method CreateQualifiers(qualifierValues: seq<OldQualifier>) returns (r: Result<Qualifiers>)
    ensures r == AddOldQualifiers([], qualifierValues)
  {
    var result: Qualifiers := [];
    var i := 0;
    while i < |qualifierValues|
      invariant 0 <= i <= |qualifierValues|
      invariant AddOldQualifiers([], qualifierValues) == AddOldQualifiers(result, qualifierValues[i..])
    {
      var qualifier := qualifierValues[i];
      assert qualifierValues[i..][1..] == qualifierValues[i + 1..];
      if qualifier.property.None? {
        return Err(KeyError);
      }
      var propertyId := qualifier.property.value;
      var snak := QualifierSnak(qualifier);
      if snak.Err? {
        return Err(snak.error);
      }
      result := Put(result, propertyId, [snak.value]);
      i := i + 1;
    }
    assert qualifierValues[i..] == [];
    return Ok(result);
  }

  /** The fold succeeds exactly when every dict encodes; otherwise it
   *  fails with a KeyError or a ValueError. */
  lemma {:induction false} OldQualifiersFail(acc: Qualifiers, qs: seq<OldQualifier>)
    ensures AddOldQualifiers(acc, qs).Ok? <==> forall j :: 0 <= j < |qs| ==> Encodes(qs[j])
    ensures AddOldQualifiers(acc, qs).Err? ==> AddOldQualifiers(acc, qs).error in {KeyError, ValueError}
    decreases |qs|
  {
    if qs != [] {
      AddOldStep(acc, qs);
      if Encodes(qs[0]) {
        OldQualifiersFail(Put(acc, qs[0].property.value, [QualifierSnak(qs[0]).value]), qs[1..]);
        assert forall j :: 1 <= j < |qs| ==> qs[j] == qs[1..][j - 1];
      }
    }
  }

  /** One step of the fold: a dict that does not encode stops it with a
   *  KeyError or a ValueError, one that does is put and the fold goes on. */
  lemma AddOldStep(acc: Qualifiers, qs: seq<OldQualifier>)
    requires qs != []
    ensures !Encodes(qs[0]) ==>
      AddOldQualifiers(acc, qs).Err? && AddOldQualifiers(acc, qs).error in {KeyError, ValueError}
    ensures Encodes(qs[0]) ==>
      AddOldQualifiers(acc, qs) == AddOldQualifiers(Put(acc, qs[0].property.value, [QualifierSnak(qs[0]).value]), qs[1..])
  {
  }

  /** The index of the last dict naming property `k`, if any. */
  function LastNaming(qs: seq<OldQualifier>, k: string): (r: Option<nat>)
    ensures r.Some? ==> r.value < |qs| && qs[r.value].property == Some(k)
    ensures r.Some? ==> forall j :: r.value < j < |qs| ==> qs[j].property != Some(k)
    ensures r.None? <==> forall j :: 0 <= j < |qs| ==> qs[j].property != Some(k)
  {
    if qs == [] then None
    else match LastNaming(qs[1..], k)
      case Some(j) => Some(j + 1)
      case None => if qs[0].property == Some(k) then Some(0) else None
  }

  /** Property `k` is a key of the result iff it was already one or some
   *  dict names it. */
  lemma {:induction false} OldQualifiersKeys(acc: Qualifiers, qs: seq<OldQualifier>, k: string)
    requires AddOldQualifiers(acc, qs).Ok?
    ensures k in Keys(AddOldQualifiers(acc, qs).value) <==>
      k in Keys(acc) || exists j :: 0 <= j < |qs| && qs[j].property == Some(k)
    decreases |qs|
  {
    if qs != [] {
      var acc' := Put(acc, qs[0].property.value, [QualifierSnak(qs[0]).value]);
      OldQualifiersKeys(acc', qs[1..], k);
      assert k in Keys(acc') <==> k in Keys(acc) || qs[0].property == Some(k);
      if exists j :: 0 <= j < |qs[1..]| && qs[1..][j].property == Some(k) {
        var j :| 0 <= j < |qs[1..]| && qs[1..][j].property == Some(k);
        assert qs[j + 1].property == Some(k);
      }
      if exists j :: 0 <= j < |qs| && qs[j].property == Some(k) {
        var j :| 0 <= j < |qs| && qs[j].property == Some(k);
        if j > 0 {
          assert qs[1..][j - 1].property == Some(k);
        }
      }
    }
  }

  /** The list under `k` holds the snak of the LAST dict naming `k`; a
   *  property no dict names keeps its earlier list. */
  lemma {:induction false} OldQualifiersLastWins(acc: Qualifiers, qs: seq<OldQualifier>, k: string)
    requires AddOldQualifiers(acc, qs).Ok?
    ensures LastNaming(qs, k).Some? ==>
      Encodes(qs[LastNaming(qs, k).value]) &&
      Lookup(AddOldQualifiers(acc, qs).value, k) == Some([QualifierSnak(qs[LastNaming(qs, k).value]).value])
    ensures LastNaming(qs, k).None? ==> Lookup(AddOldQualifiers(acc, qs).value, k) == Lookup(acc, k)
    decreases |qs|
  {
    if qs != [] {
      var acc' := Put(acc, qs[0].property.value, [QualifierSnak(qs[0]).value]);
      OldQualifiersLastWins(acc', qs[1..], k);
    }
  }

  /** The fold never repeats a key. */
  lemma {:induction false} OldQualifiersDistinct(acc: Qualifiers, qs: seq<OldQualifier>)
    requires DistinctKeys(acc) && AddOldQualifiers(acc, qs).Ok?
    ensures DistinctKeys(AddOldQualifiers(acc, qs).value)
    decreases |qs|
  {
    if qs != [] {
      var s := [QualifierSnak(qs[0]).value];
      PutKeepsDistinct(acc, qs[0].property.value, s);
      OldQualifiersDistinct(Put(acc, qs[0].property.value, s), qs[1..]);
    }
  }

  // ---------------------------------------------------------------------
  // Flickr URLs
  // ---------------------------------------------------------------------

  const FlickrPhotosPrefix := "https://www.flickr.com/photos/"

  /** A Flickr user's profile page, `https://www.flickr.com/photos/{user_id}/`. */
  function ProfileUrl(userId: string): string {
    FlickrPhotosPrefix + userId + "/"
  }

  /** A photo's page, `https://www.flickr.com/photos/{user_id}/{photo_id}/`. */
  function PhotoPageUrl(userId: string, photoId: string): string {
    FlickrPhotosPrefix + userId + "/" + photoId + "/"
  }

  /** The photo page lies below the owner's profile page. */
  lemma PhotoPageBelowProfile(userId: string, photoId: string)
    ensures var profile := ProfileUrl(userId);
      var page := PhotoPageUrl(userId, photoId);
      |profile| < |page| && page[..|profile|] == profile && page[|profile|..] == photoId + "/"
  {
    var profile := ProfileUrl(userId);
    var page := PhotoPageUrl(userId, photoId);
    assert page == profile + (photoId + "/");
  }

  // ---------------------------------------------------------------------
  // Three-string-qualifier statements
  // ---------------------------------------------------------------------

  /** The entry a dict that encodes adds to the qualifiers. */
  function Entry(q: OldQualifier): (string, seq<Snak>)
    requires Encodes(q)
  {
    (q.property.value, [QualifierSnak(q).value])
  }

  /** Three dicts on different properties become three one-snak entries,
   *  in order. */
  lemma ThreeQualifiers(qs: seq<OldQualifier>)
    requires |qs| == 3 && Encodes(qs[0]) && Encodes(qs[1]) && Encodes(qs[2])
    requires qs[0].property != qs[1].property && qs[0].property != qs[2].property
    requires qs[1].property != qs[2].property
    ensures AddOldQualifiers([], qs) == Ok([Entry(qs[0]), Entry(qs[1]), Entry(qs[2])])
  {
    ThreeFirst(qs);
    ThreeSecond(qs);
    ThreeThird(qs);
  }

  /** The first of three dicts on different properties. */
  lemma ThreeFirst(qs: seq<OldQualifier>)
    requires |qs| == 3 && Encodes(qs[0]) && Encodes(qs[1]) && Encodes(qs[2])
    requires qs[0].property != qs[1].property && qs[0].property != qs[2].property
    requires qs[1].property != qs[2].property
    ensures AddOldQualifiers([], qs) == AddOldQualifiers([Entry(qs[0])], qs[1..])
  {
    AddEntry([], qs);
    assert [] + [Entry(qs[0])] == [Entry(qs[0])];
  }
  /** The second, after the first's entry. */
  lemma ThreeSecond(qs: seq<OldQualifier>)
    requires |qs| == 3 && Encodes(qs[0]) && Encodes(qs[1]) && Encodes(qs[2])
    requires qs[0].property != qs[1].property && qs[0].property != qs[2].property
    requires qs[1].property != qs[2].property
    ensures AddOldQualifiers([Entry(qs[0])], qs[1..]) == AddOldQualifiers([Entry(qs[0]), Entry(qs[1])], qs[2..])
  {
    var e1, e2 := Entry(qs[0]), Entry(qs[1]);
    var r1 := qs[1..];
    assert r1[0] == qs[1] && r1[1..] == qs[2..];
    assert Keys([e1]) == [e1.0];
    AddEntry([e1], r1);
    assert [e1] + [e2] == [e1, e2];
  }
  /** The third, after the first two entries. */
  lemma ThreeThird(qs: seq<OldQualifier>)
    requires |qs| == 3 && Encodes(qs[0]) && Encodes(qs[1]) && Encodes(qs[2])
    requires qs[0].property != qs[1].property && qs[0].property != qs[2].property
    requires qs[1].property != qs[2].property
    ensures AddOldQualifiers([Entry(qs[0]), Entry(qs[1])], qs[2..]) == Ok([Entry(qs[0]), Entry(qs[1]), Entry(qs[2])])
  {
    var e1, e2, e3 := Entry(qs[0]), Entry(qs[1]), Entry(qs[2]);
    var r2 := qs[2..];
    assert r2[0] == qs[2] && r2[1..] == [];
    assert Keys([e1, e2]) == [e1.0, e2.0];
    AddEntry([e1, e2], r2);
    assert [e1, e2] + [e3] == [e1, e2, e3];
  }

  /** One step of the fold on a dict that encodes and names a property
   *  not yet present: its entry is appended. */
  lemma AddEntry(acc: Qualifiers, qs: seq<OldQualifier>)
    requires qs != [] && Encodes(qs[0]) && qs[0].property.value !in Keys(acc)
    ensures AddOldQualifiers(acc, qs) == AddOldQualifiers(acc + [Entry(qs[0])], qs[1..])
  {
    AddOldStep(acc, qs);
    Statements.PutNewKey(acc, qs[0].property.value, [QualifierSnak(qs[0]).value]);
  }

  /** A single dict becomes a single one-snak entry. */
  lemma OneQualifier(q: OldQualifier)
    requires Encodes(q)
    ensures AddOldQualifiers([], [q]) == Ok([(q.property.value, [QualifierSnak(q).value])])
  {
    assert [q][1..] == [];
  }

  // ---------------------------------------------------------------------
  // Creator
  // ---------------------------------------------------------------------

  /** The Wikidata search for a Flickr user, by user id and user name; the
   *  SPARQL request behind it is not modelled. */
  type UserLookup = (string, string) -> Option<string>

  /** Calling `lookup_flickr_user_in_wikidata(user_id, username)` with the
   *  user id passed under the keyword `keyword`: a keyword that names no
   *  parameter is a TypeError before the lookup runs. */
  function CallLookup(lookup: UserLookup, keyword: string, userId: string, username: string): (r: Result<Option<string>>)
    ensures r.Err? <==> keyword != "user_id"
    ensures r.Err? ==> r.error == TypeError
    ensures r.Ok? ==> r.value == lookup(userId, username)
  {
    if keyword != "user_id" then Err(TypeError) else Ok(lookup(userId, username))
  }

  function CreatorDicts(userId: string, username: string, realname: Option<string>): seq<OldQualifier> {
    [ StringDict(WP.AuthorName, Statements.AuthorNameOf(Statements.FlickrUser(userId, username, realname, ProfileUrl(userId)))),
      StringDict(WP.Url, ProfileUrl(userId)),
      StringDict(WP.FlickrUserId, userId) ]
  }

  /** The creator statement with the user id passed under `keyword`. */
  function CreatorDataWith(lookup: UserLookup, keyword: string, userId: string, username: string,
                           realname: Option<string>): Result<Statement>
  {
    match CallLookup(lookup, keyword, userId, username)
    case Err(e) => Err(e)
    case Ok(wikidataId) =>
      if wikidataId.Some? then Ok(NewStatement(EntityValueSnak(WP.Creator, wikidataId.value), None, None))
      else
        match AddOldQualifiers([], CreatorDicts(userId, username, realname))
        case Err(e) => Err(e)
        case Ok(q) =>
          Ok(NewStatement(Snak(WP.Creator, SomeValue, None, None),
                          Some([WP.FlickrUserId, WP.AuthorName, WP.Url]), Some(q)))
  }

  /** `create_flickr_creator_data` as written: it passes the user id as
   *  `id=`, which `lookup_flickr_user_in_wikidata(user_id, username)` does
   *  not accept, so every call raises TypeError. */
  function CreateFlickrCreatorDataAsWritten(lookup: UserLookup, userId: string, username: string,
                                            realname: Option<string>): (r: Result<Statement>)
    ensures r == Err(TypeError)
  {
    CreatorDataWith(lookup, "id", userId, username, realname)
  }

  /** The creator's qualifiers: author name (real name, else user name),
   *  profile URL and user id. */
  lemma CreatorQualifiers(userId: string, username: string, realname: Option<string>)
    ensures AddOldQualifiers([], CreatorDicts(userId, username, realname)) == Ok([
      (WP.AuthorName, [ValueSnakOf(WP.AuthorName, StringValue(
        Statements.AuthorNameOf(Statements.FlickrUser(userId, username, realname, ProfileUrl(userId)))))]),
      (WP.Url, [ValueSnakOf(WP.Url, StringValue(ProfileUrl(userId)))]),
      (WP.FlickrUserId, [ValueSnakOf(WP.FlickrUserId, StringValue(userId))])])
  {
    var qs := CreatorDicts(userId, username, realname);
    ThreeQualifiers(qs);
    assert qs == [qs[0], qs[1], qs[2]];
  }

  /** `create_flickr_creator_data` with the keyword it evidently means: a
   *  user Wikidata knows is a link to their entity with no qualifiers;
   *  anyone else is an unknown-value creator described by name, profile
   *  URL and user id, with the user id first in the order. */
  function CreateFlickrCreatorData(lookup: UserLookup, userId: string, username: string,
                                   realname: Option<string>): (r: Result<Statement>)
    ensures r.Ok?
    ensures lookup(userId, username).Some? ==>
      r.value == NewStatement(EntityValueSnak(WP.Creator, lookup(userId, username).value), None, None)
    ensures lookup(userId, username).None? ==>
      && r.value.mainsnak == Snak(WP.Creator, SomeValue, None, None)
      && r.value.qualifiersOrder == Some([WP.FlickrUserId, WP.AuthorName, WP.Url])
      && r.value.qualifiers == Some([
        (WP.AuthorName, [ValueSnakOf(WP.AuthorName, StringValue(
          Statements.AuthorNameOf(Statements.FlickrUser(userId, username, realname, ProfileUrl(userId)))))]),
        (WP.Url, [ValueSnakOf(WP.Url, StringValue(ProfileUrl(userId)))]),
        (WP.FlickrUserId, [ValueSnakOf(WP.FlickrUserId, StringValue(userId))])])
  {
    CreatorQualifiers(userId, username, realname);
    CreatorDataWith(lookup, "user_id", userId, username, realname)
  }

  /** With a lookup that finds nobody, the builder as written raises where
   *  the corrected one describes the user. */
  lemma CreatorAsWrittenFails(userId: string, username: string)
    ensures var nobody: UserLookup := (u, n) => None;
      && CreateFlickrCreatorDataAsWritten(nobody, userId, username, None) == Err(TypeError)
      && CreateFlickrCreatorData(nobody, userId, username, None).Ok?
      && CreateFlickrCreatorData(nobody, userId, username, None).value.qualifiers.Some?
  {
  }

  // ---------------------------------------------------------------------
  // Copyright status, source, license, date uploaded
  // ---------------------------------------------------------------------

  /** `create_copyright_status_data`: only "copyrighted" is accepted. */
  function CreateCopyrightStatusData(status: string): (r: Result<Statement>)
    ensures r.Ok? <==> status == "copyrighted"
    ensures r.Err? ==> r.error == ValueError
    ensures r.Ok? ==> r.value == NewStatement(EntityValueSnak(WP.CopyrightStatus, WE.Copyrighted), None, None)
  {
    if status != "copyrighted" then Err(ValueError)
    else Ok(NewStatement(EntityValueSnak(WP.CopyrightStatus, WE.Copyrighted), None, None))
  }

  function SourceDicts(userId: string, photoId: string, jpegUrl: string): seq<OldQualifier> {
    [ StringDict(WP.DescribedAtUrl, PhotoPageUrl(userId, photoId)),
      EntityDict(WP.Operator, WE.Flickr),
      StringDict(WP.Url, jpegUrl) ]
  }

  /** `create_source_data_for_photo`: a file available on the internet,
   *  described at the photo's page (built from the user and photo ids),
   *  operated by Flickr, at the JPEG's URL; the qualifiers-order lists the
   *  qualifier keys in the same order. */
  function CreateSourceDataForPhoto(userId: string, photoId: string, jpegUrl: string): (st: Statement)
    ensures st.mainsnak == EntityValueSnak(WP.SourceOfFile, WE.FileAvailableOnInternet)
    ensures st.qualifiersOrder == Some([WP.DescribedAtUrl, WP.Operator, WP.Url])
    ensures st.qualifiers.Some? && Keys(st.qualifiers.value) == st.qualifiersOrder.value
    ensures st.qualifiers == Some([
      (WP.DescribedAtUrl, [ValueSnakOf(WP.DescribedAtUrl, StringValue(PhotoPageUrl(userId, photoId)))]),
      (WP.Operator, [EntityValueSnak(WP.Operator, WE.Flickr)]),
      (WP.Url, [ValueSnakOf(WP.Url, StringValue(jpegUrl))])])
  {
    var qs := SourceDicts(userId, photoId, jpegUrl);
    ThreeQualifiers(qs);
    assert qs == [qs[0], qs[1], qs[2]];
    var q := AddOldQualifiers([], qs).value;
    assert Keys(q) == [WP.DescribedAtUrl, WP.Operator, WP.Url];
    NewStatement(EntityValueSnak(WP.SourceOfFile, WE.FileAvailableOnInternet),
                 Some([WP.DescribedAtUrl, WP.Operator, WP.Url]), Some(q))
  }

  /** `create_license_statement`: a license outside the five-entry table
   *  is a ValueError. */
  function CreateLicenseStatement(licenseId: string): (r: Result<Statement>)
    ensures r.Err? <==> WE.LicenseV2(licenseId).None?
    ensures r.Err? ==> r.error == ValueError
    ensures r.Ok? ==> r.value == NewStatement(EntityValueSnak(WP.CopyrightLicense, WE.LicenseV2(licenseId).value), None, None)
  {
    match WE.LicenseV2(licenseId)
    case None => Err(ValueError)
    case Some(wikidataLicenseId) =>
      Ok(NewStatement(EntityValueSnak(WP.CopyrightLicense, wikidataLicenseId), None, None))
  }

  /** `create_uploaded_to_flickr_statement`: published in Flickr, with the
   *  upload date at day precision as the publication date. */
  function CreateUploadedToFlickrStatement(uploadedDate: Timestamp): (st: Statement)
    ensures st.mainsnak == EntityValueSnak(WP.PublishedIn, WE.Flickr)
    ensures st.qualifiersOrder == Some([WP.PublicationDate])
    ensures st.qualifiers == Some([(WP.PublicationDate,
      [ValueSnakOf(WP.PublicationDate, ToWikidataDateValue(uploadedDate, DayPrecision))])])
  {
    var q := DateDict(WP.PublicationDate, uploadedDate, "day");
    PrecisionNameRoundTrip(DayPrecision);
    OneQualifier(q);
    NewStatement(EntityValueSnak(WP.PublishedIn, WE.Flickr), Some([WP.PublicationDate]),
                 Some(AddOldQualifiers([], [q]).value))
  }

  // ---------------------------------------------------------------------
  // Date taken
  // ---------------------------------------------------------------------

  /** `getattr(TakenDateGranularity, name)`: the class defines Second = 0,
   *  Month = 4, Year = 6 and Circa = 8 (src/flickypedia/apis/flickr.py). */
  function Granularity(name: string): (r: Result<int>)
    ensures r.Err? ==> r.error == AttributeError
    ensures name == "Second" ==> r == Ok(0)
    ensures name == "Month" ==> r == Ok(4)
    ensures name == "Year" ==> r == Ok(6)
    ensures name == "Circa" ==> r == Ok(8)
    ensures r.Ok? <==> name == "Second" || name == "Month" || name == "Year" || name == "Circa"
  {
    if name == "Second" then Ok(0)
    else if name == "Month" then Ok(4)
    else if name == "Year" then Ok(6)
    else if name == "Circa" then Ok(8)
    else Err(AttributeError)
  }

  /** The precision name the corrected table gives a granularity. */
  function TakenPrecisionName(granularity: int): (p: Option<string>)
    ensures p.Some? <==> granularity in {0, 4, 6, 8}
  {
    if granularity == 0 then Some("day")
    else if granularity == 4 then Some("month")
    else if granularity == 6 || granularity == 8 then Some("year")
    else None
  }

  /** The same precisions as Wikibase precisions. */
  function TakenPrecision(granularity: int): (p: Option<DatePrecision>)
    ensures p.Some? <==> TakenPrecisionName(granularity).Some?
    ensures p.Some? ==> PrecisionName(p.value) == TakenPrecisionName(granularity).value
  {
    if granularity == 0 then Some(DayPrecision)
    else if granularity == 4 then Some(MonthPrecision)
    else if granularity == 6 || granularity == 8 then Some(YearPrecision)
    else None
  }

  /** `create_date_taken_statement` with its first table key read as the
   *  attribute `dayName`: the table's keys are looked up first, then the
   *  granularity in the table, then the date is encoded. */
  function DateTakenWith(dayName: string, dateTaken: Timestamp, granularity: int): Result<Statement> {
    match Granularity(dayName)
    case Err(e) => Err(e)
    case Ok(day) =>
      var precision :=
        if granularity == day then Some("day")
        else if granularity == 4 then Some("month")
        else if granularity == 6 || granularity == 8 then Some("year")
        else None;
      if precision.None? then Err(ValueError)
      else
        match ToWikidataDate(dateTaken, precision.value)
        case Err(e) => Err(e)
        case Ok(dv) =>
          var mainsnak := ValueSnakOf(WP.Inception, dv);
          if granularity == day || granularity == 4 || granularity == 6 then
            Ok(NewStatement(mainsnak, None, None))
          else
            match AddOldQualifiers([], [EntityDict(WP.SourcingCircumstances, WE.Circa)])
            case Err(e) => Err(e)
            case Ok(q) => Ok(NewStatement(mainsnak, Some([WP.SourcingCircumstances]), Some(q)))
  }

  /** `create_date_taken_statement` as written: its table names
   *  `TakenDateGranularity.Day`, which the class does not define, so every
   *  call raises AttributeError. */
  function CreateDateTakenStatementAsWritten(dateTaken: Timestamp, granularity: int): (r: Result<Statement>)
    ensures r == Err(AttributeError)
  {
    DateTakenWith("Day", dateTaken, granularity)
  }

  /** `create_date_taken_statement` with `TakenDateGranularity.Second`,
   *  the evident meaning: the inception date at the precision of the
   *  granularity; a circa date is a year with the "circa" sourcing
   *  circumstance; any other granularity is a ValueError. */
  function CreateDateTakenStatement(dateTaken: Timestamp, granularity: int): (r: Result<Statement>)
    ensures r.Err? <==> TakenPrecision(granularity).None?
    ensures r.Err? ==> r.error == ValueError
    ensures r.Ok? ==>
      r.value.mainsnak == ValueSnakOf(WP.Inception, ToWikidataDateValue(dateTaken, TakenPrecision(granularity).value))
    ensures r.Ok? && granularity != 8 ==> r.value.qualifiers.None? && r.value.qualifiersOrder.None?
    ensures r.Ok? && granularity == 8 ==>
      && r.value.qualifiersOrder == Some([WP.SourcingCircumstances])
      && r.value.qualifiers == Some([(WP.SourcingCircumstances, [EntityValueSnak(WP.SourcingCircumstances, WE.Circa)])])
  {
    PrecisionNameRoundTrip(DayPrecision);
    PrecisionNameRoundTrip(MonthPrecision);
    PrecisionNameRoundTrip(YearPrecision);
    OneQualifier(EntityDict(WP.SourcingCircumstances, WE.Circa));
    DateTakenWith("Second", dateTaken, granularity)
  }

  /** A photo taken on a known day (granularity 0): the builder as written
   *  raises where the corrected one writes the day. */
  lemma DateTakenAsWrittenFails(dateTaken: Timestamp)
    ensures CreateDateTakenStatementAsWritten(dateTaken, 0) == Err(AttributeError)
    ensures CreateDateTakenStatement(dateTaken, 0).Ok?
    ensures CreateDateTakenStatement(dateTaken, 0).value.mainsnak.datavalue == Some(ToWikidataDateValue(dateTaken, DayPrecision))
  {
  }

  /** The inception date reads back as the day, month or year Flickr gave. */
  lemma DateTakenReadsBack(dateTaken: Timestamp, granularity: int)
    requires CreateDateTakenStatement(dateTaken, granularity).Ok? && dateTaken.year >= 1000
    ensures var v := CreateDateTakenStatement(dateTaken, granularity).value.mainsnak.datavalue.value;
      var p := TakenPrecision(granularity).value;
      v.TimeDataValue? && ParseTime(v.time.time, p) == Ok(Truncate(dateTaken, p))
  {
    DateValueRoundTrip(dateTaken, TakenPrecision(granularity).value);
  }
}
