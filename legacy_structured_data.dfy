/** The builders of src/flickypedia/structured_data/structured_data.py and
 *  the claims they make up for a new photo. The creator is the one of
 *  `ApisStructuredData` (a link to the entity Wikidata knows, else the
 *  current unknown-value creator) and the date posted is the current
 *  published-in statement. What differs: the public-domain dedications
 *  map to "public domain", the source statement has four qualifiers, the
 *  license carries how it was determined, a date Flickr marks unknown is
 *  left out, and there is no location statement. */
module LegacyStructuredData {
  import opened Wrappers
  import opened Dates
  import opened Sdc
  import opened WikidataValues
  import opened QualifierDsl
  import opened Statements
  import opened FlickrUserIds
  import Claims
  import ApisStructuredData
  import WP = WikidataProperties
  import WE = WikidataEntities

  // ---------------------------------------------------------------------
  // Creator
  // ---------------------------------------------------------------------

  /** `create_flickr_creator_statement`: a user Wikidata knows gets a value
   *  snak pointing at their entity and no qualifiers; anyone else an
   *  unknown-value snak described by three qualifiers, ordered user id,
   *  author name, profile URL. */
  lemma CreatorLinkOrSomeValue(lookup: EntityLookup, user: FlickrUser, pathAlias: Option<string>)
    requires ApisStructuredData.CreateFlickrCreatorStatement(lookup, user, pathAlias).Ok?
    ensures var st := ApisStructuredData.CreateFlickrCreatorStatement(lookup, user, pathAlias).value;
      var id := LookupFlickrUserInWikidata(lookup, user.id, pathAlias);
      && st.mainsnak.property == WP.Creator
      && (id.Some? ==> MainEntity(st, WP.Creator, id.value) && st.qualifiers.None?)
      && (id.None? ==>
            && st.mainsnak.snaktype == SomeValue && st.mainsnak.datavalue.None?
            && st.qualifiersOrder == Some([WP.FlickrUserId, WP.AuthorName, WP.Url])
            && st.qualifiers.Some? && Keys(st.qualifiers.value) == [WP.AuthorName, WP.Url, WP.FlickrUserId])
  {
    var id := LookupFlickrUserInWikidata(lookup, user.id, pathAlias);
    if id.None? {
      var q := Statements.CreateFlickrCreatorStatement(user).qualifiers.value;
      assert Keys(q) == [q[0].0, q[1].0, q[2].0];
    }
  }

  // ---------------------------------------------------------------------
  // Copyright status and license
  // ---------------------------------------------------------------------

  /** `create_copyright_status_statement`: the 2.0 licenses are
   *  copyrighted, a US government work is in the public domain for that
   *  reason, the dedications are in the public domain with no qualifier,
   *  and any other license is a ValueError. */
  function CreateCopyrightStatusStatement(licenseId: string): (r: Result<Statement>)
    ensures r.Ok? <==> ApisStructuredData.CopyrightedLicenseV2(licenseId) || licenseId == "usgov" || DedicationLicense(licenseId)
    ensures r.Err? ==> r.error == ValueError
    ensures ApisStructuredData.CopyrightedLicenseV2(licenseId) ==>
      r == Ok(PlainEntityStatement(WP.CopyrightStatus, WE.Copyrighted))
    ensures licenseId == "usgov" ==> r == Ok(UsGovCopyrightStatus())
    ensures DedicationLicense(licenseId) ==> r == Ok(PlainEntityStatement(WP.CopyrightStatus, WE.PublicDomain))
  {
    if ApisStructuredData.CopyrightedLicenseV2(licenseId) then
      QId(WE.Copyrighted);
      Ok(PlainEntityStatement(WP.CopyrightStatus, WE.Copyrighted))
    else if licenseId == "usgov" then Ok(UsGovCopyrightStatus())
    else if DedicationLicense(licenseId) then
      QId(WE.PublicDomain);
      Ok(PlainEntityStatement(WP.CopyrightStatus, WE.PublicDomain))
    else Err(ValueError)
  }

  /** Against the later 2.0-era builder, only the dedications differ: here
   *  they are "public domain", there "dedicated to the public domain by
   *  the copyright owner". */
  lemma DedicationsDiffer(licenseId: string)
    ensures !DedicationLicense(licenseId) ==>
      CreateCopyrightStatusStatement(licenseId) == ApisStructuredData.CreateCopyrightStatusStatement(licenseId)
    ensures DedicationLicense(licenseId) ==>
      && MainEntity(CreateCopyrightStatusStatement(licenseId).value, WP.CopyrightStatus, WE.PublicDomain)
      && MainEntity(ApisStructuredData.CreateCopyrightStatusStatement(licenseId).value,
                    WP.CopyrightStatus, WE.DedicatedToPublicDomainByCopyrightOwner)
  {
  }

  /** `create_license_statement`: the license's entity from the 2.0-era
   *  table, stated by the copyright holder on the source website; an
   *  unknown license is a ValueError. */
  function CreateLicenseStatement(licenseId: string): (r: Result<Statement>)
    ensures r.Err? <==> WE.LicenseV2(licenseId).None?
    ensures r.Err? ==> r.error == ValueError
    ensures r.Ok? ==> MainEntity(r.value, WP.CopyrightLicense, WE.LicenseV2(licenseId).value)
    ensures r.Ok? ==> r.value.qualifiersOrder == Some([WP.DeterminationMethod])
    ensures r.Ok? ==> r.value.qualifiers == Some([(WP.DeterminationMethod,
      [ValueSnakOf(WP.DeterminationMethod, Entity(WE.StatedByCopyrightHolderAtSourceWebsite))])])
  {
    match WE.LicenseV2(licenseId)
    case None => Err(ValueError)
    case Some(wikidataLicenseId) =>
      ApisStructuredData.LicenseV2EntityIds(licenseId);
      QId(WE.StatedByCopyrightHolderAtSourceWebsite);
      var qs := [EntityQualifier(WP.DeterminationMethod, WE.StatedByCopyrightHolderAtSourceWebsite)];
      assert PropertiesOf(qs) == [WP.DeterminationMethod];
      var q := Qualify(qs);
      assert q == [q[0]];
      Ok(NewStatement(ValueSnakOf(WP.CopyrightLicense, Entity(wikidataLicenseId)), Some([WP.DeterminationMethod]), Some(q)))
  }

  /** The license statement names the license the later builder names and
   *  adds the determination method; both fail on the same licenses, and
   *  exactly where the copyright status fails. */
  lemma LicenseAddsDetermination(licenseId: string)
    ensures CreateLicenseStatement(licenseId).Ok? <==> ApisStructuredData.CreateLicenseStatement(licenseId).Ok?
    ensures CreateLicenseStatement(licenseId).Ok? <==> CreateCopyrightStatusStatement(licenseId).Ok?
    ensures CreateLicenseStatement(licenseId).Ok? ==>
      CreateLicenseStatement(licenseId).value.mainsnak == ApisStructuredData.CreateLicenseStatement(licenseId).value.mainsnak
  {
  }

  // ---------------------------------------------------------------------
  // Source
  // ---------------------------------------------------------------------

  function SourceQualifierValues(photoId: string, photoUrl: string, originalUrl: string): seq<QualifierValue> {
    [ StringQualifier(WP.FlickrPhotoId, photoId),
      StringQualifier(WP.DescribedAtUrl, photoUrl),
      EntityQualifier(WP.Operator, WE.Flickr),
      StringQualifier(WP.Url, originalUrl) ]
  }

  const SourceOrder := [WP.FlickrPhotoId, WP.DescribedAtUrl, WP.Operator, WP.Url]

  lemma SourceOrderDistinct()
    ensures Distinct(SourceOrder)
  {
    var o := SourceOrder;
    assert o[0] == "P12120" && o[1] == "P973" && o[2] == "P137" && o[3] == "P2699";
    assert o[0] != o[1] && o[0] != o[2] && o[0] != o[3];
    assert o[1][2] == '7' && o[2][2] == '3' && o[3][2] == '6';
  }

  lemma SourceQualifiersEncode(photoId: string, photoUrl: string, originalUrl: string)
    requires IsEntityId(WE.Flickr)
    ensures var qs := SourceQualifierValues(photoId, photoUrl, originalUrl);
      Encodable(qs) && PropertiesOf(qs) == SourceOrder
  {
    var qs := SourceQualifierValues(photoId, photoUrl, originalUrl);
    assert DataValueOf(qs[2]).Ok?;
    assert |PropertiesOf(qs)| == 4;
  }

  /** The entries of the four source qualifiers, written out. */
  lemma SourceEntries(photoId: string, photoUrl: string, originalUrl: string)
    requires IsEntityId(WE.Flickr)
    requires Encodable(SourceQualifierValues(photoId, photoUrl, originalUrl))
    ensures Entries(SourceQualifierValues(photoId, photoUrl, originalUrl)) == [
      (WP.FlickrPhotoId, [ValueSnakOf(WP.FlickrPhotoId, StringValue(photoId))]),
      (WP.DescribedAtUrl, [ValueSnakOf(WP.DescribedAtUrl, StringValue(photoUrl))]),
      (WP.Operator, [ValueSnakOf(WP.Operator, Entity(WE.Flickr))]),
      (WP.Url, [ValueSnakOf(WP.Url, StringValue(originalUrl))])]
  {
    var q := Entries(SourceQualifierValues(photoId, photoUrl, originalUrl));
    assert q == [q[0], q[1], q[2], q[3]];
  }

  /** `create_source_data_for_photo`: a file available on the internet with
   *  four qualifiers in a fixed order: the Flickr photo id, the photo's
   *  page, Flickr as operator and the original file's URL. */
  function CreateSourceDataForPhoto(photoId: string, photoUrl: string, originalUrl: string): (st: Statement)
    ensures MainEntity(st, WP.SourceOfFile, WE.FileAvailableOnInternet)
    ensures st.qualifiersOrder == Some(SourceOrder)
    ensures st.qualifiers.Some? && Keys(st.qualifiers.value) == SourceOrder
    ensures st.qualifiers.value == [
      (WP.FlickrPhotoId, [ValueSnakOf(WP.FlickrPhotoId, StringValue(photoId))]),
      (WP.DescribedAtUrl, [ValueSnakOf(WP.DescribedAtUrl, StringValue(photoUrl))]),
      (WP.Operator, [ValueSnakOf(WP.Operator, Entity(WE.Flickr))]),
      (WP.Url, [ValueSnakOf(WP.Url, StringValue(originalUrl))])]
  {
    QId(WE.Flickr);
    QId(WE.FileAvailableOnInternet);
    SourceOrderDistinct();
    SourceQualifiersEncode(photoId, photoUrl, originalUrl);
    SourceEntries(photoId, photoUrl, originalUrl);
    NewStatement(ValueSnakOf(WP.SourceOfFile, Entity(WE.FileAvailableOnInternet)), Some(SourceOrder),
                 Some(Qualify(SourceQualifierValues(photoId, photoUrl, originalUrl))))
  }

  /** The later source statement is this one with the retrieval day
   *  appended. */
  lemma SourceThenRetrieved(photoId: string, photoUrl: string, originalUrl: string, retrievedAt: Timestamp)
    ensures ApisStructuredData.CreateSourceDataForPhoto(photoId, photoUrl, originalUrl, retrievedAt).qualifiers.value
         == CreateSourceDataForPhoto(photoId, photoUrl, originalUrl).qualifiers.value
            + [(WP.Retrieved, [ValueSnakOf(WP.Retrieved, ToWikidataDateValue(retrievedAt, DayPrecision))])]
    ensures ApisStructuredData.SourceOrder == SourceOrder + [WP.Retrieved]
  {
  }

  // ---------------------------------------------------------------------
  // Date taken
  // ---------------------------------------------------------------------

  /** The date a photo was taken as Flickr reports it, with its flag for a
   *  date Flickr does not know. */
  datatype TakenDate = TakenDate(value: Timestamp, granularity: string, unknown: bool)

  /** `create_date_taken_statement`: a date marked unknown fails the
   *  assertion; a known one gets the statement the current builder
   *  writes. */
  function CreateDateTakenStatement(dateTaken: TakenDate): (r: Result<Statement>)
    ensures dateTaken.unknown ==> r == Err(AssertionError)
    ensures !dateTaken.unknown ==> r == Statements.CreateDateTakenStatement(DateTaken(dateTaken.value, dateTaken.granularity))
    ensures r.Err? <==> dateTaken.unknown || TakenPrecision(dateTaken.granularity).None?
    ensures r.Ok? ==> r.value.mainsnak.property == WP.Inception
  {
    if dateTaken.unknown then Err(AssertionError)
    else Statements.CreateDateTakenStatement(DateTaken(dateTaken.value, dateTaken.granularity))
  }

  // ---------------------------------------------------------------------
  // create_sdc_claims_for_flickr_photo
  // ---------------------------------------------------------------------

  /** The fields of a `SinglePhoto` this version reads. */
  datatype Photo = Photo(
    id: string,
    owner: FlickrUser,
    ownerPathAlias: Option<string>,
    sizes: seq<Claims.Size>,
    url: string,
    licenseId: string,
    dateTaken: TakenDate,
    datePosted: Timestamp)

  /** The five statements every photo gets: creator, copyright status,
   *  source, license, date posted. A missing Original size is an
   *  IndexError. */
  function HeadStatements(lookup: EntityLookup, photo: Photo): Result<seq<Statement>> {
    match ApisStructuredData.CreateFlickrCreatorStatement(lookup, photo.owner, photo.ownerPathAlias)
    case Err(e) => Err(e)
    case Ok(creator) =>
      match CreateCopyrightStatusStatement(photo.licenseId)
      case Err(e) => Err(e)
      case Ok(copyright) =>
        if Claims.OriginalSizes(photo.sizes) == [] then Err(IndexError)
        else
          var source := CreateSourceDataForPhoto(photo.id, photo.url, Claims.OriginalSizes(photo.sizes)[0].source);
          match CreateLicenseStatement(photo.licenseId)
          case Err(e) => Err(e)
          case Ok(license) => Ok([creator, copyright, source, license, CreatePublishedInStatement(photo.datePosted)])
  }

  /** The date-taken statement, unless Flickr marks the date unknown. */
  function DateTakenPart(photo: Photo): Result<seq<Statement>> {
    if photo.dateTaken.unknown then Ok([])
    else match CreateDateTakenStatement(photo.dateTaken)
      case Err(e) => Err(e)
      case Ok(st) => Ok([st])
  }

  function ClaimsFor(lookup: EntityLookup, photo: Photo): Result<seq<Statement>> {
    match HeadStatements(lookup, photo)
    case Err(e) => Err(e)
    case Ok(head) => ApisStructuredData.Extend(head, DateTakenPart(photo))
  }

  /** The five statements, each builder in turn. */
  method CreateHeadStatements(lookup: EntityLookup, photo: Photo) returns (r: Result<seq<Statement>>)
    ensures r == HeadStatements(lookup, photo)
  {
    var creatorStatement := ApisStructuredData.CreateFlickrCreatorStatement(lookup, photo.owner, photo.ownerPathAlias);
    if creatorStatement.Err? {
      return Err(creatorStatement.error);
    }
    var copyrightStatement := CreateCopyrightStatusStatement(photo.licenseId);
    if copyrightStatement.Err? {
      return Err(copyrightStatement.error);
    }
    var originals := Claims.OriginalSizes(photo.sizes);
    if originals == [] {
      return Err(IndexError);
    }
    var sourceStatement := CreateSourceDataForPhoto(photo.id, photo.url, originals[0].source);
    var licenseStatement := CreateLicenseStatement(photo.licenseId);
    if licenseStatement.Err? {
      return Err(licenseStatement.error);
    }
    var datePostedStatement := CreatePublishedInStatement(photo.datePosted);
    return Ok([creatorStatement.value, copyrightStatement.value, sourceStatement, licenseStatement.value,
               datePostedStatement]);
  }

  /** `create_sdc_claims_for_flickr_photo`: the five statements, then the
   *  date taken unless it is unknown. */
  method CreateSdcClaimsForFlickrPhoto(lookup: EntityLookup, photo: Photo) returns (r: Result<seq<Statement>>)
    ensures r == ClaimsFor(lookup, photo)
  {
    var statements := CreateHeadStatements(lookup, photo);
    if statements.Err? {
      return statements;
    }
    if !photo.dateTaken.unknown {
      var dateTaken := CreateDateTakenStatement(photo.dateTaken);
      if dateTaken.Err? {
        return Err(dateTaken.error);
      }
      return Ok(statements.value + [dateTaken.value]);
    }
    assert statements.value + [] == statements.value;
    return statements;
  }

  // ---------------------------------------------------------------------
  // What the claims promise
  // ---------------------------------------------------------------------

  /** The five statements, when none of their builders fails. */
  lemma HeadValue(lookup: EntityLookup, photo: Photo)
    requires HeadStatements(lookup, photo).Ok?
    ensures ApisStructuredData.CreateFlickrCreatorStatement(lookup, photo.owner, photo.ownerPathAlias).Ok?
    ensures CreateCopyrightStatusStatement(photo.licenseId).Ok? && CreateLicenseStatement(photo.licenseId).Ok?
    ensures Claims.OriginalSizes(photo.sizes) != []
    ensures HeadStatements(lookup, photo).value == [
      ApisStructuredData.CreateFlickrCreatorStatement(lookup, photo.owner, photo.ownerPathAlias).value,
      CreateCopyrightStatusStatement(photo.licenseId).value,
      CreateSourceDataForPhoto(photo.id, photo.url, Claims.OriginalSizes(photo.sizes)[0].source),
      CreateLicenseStatement(photo.licenseId).value,
      CreatePublishedInStatement(photo.datePosted)]
  {
  }

  /** Every photo's claims begin with creator, copyright status, source,
   *  license and date posted, in that order. */
  lemma HeadOrder(lookup: EntityLookup, photo: Photo)
    requires HeadStatements(lookup, photo).Ok?
    ensures Claims.MainProperties(HeadStatements(lookup, photo).value) == ApisStructuredData.HeadProperties
  {
    HeadValue(lookup, photo);
    var a := ApisStructuredData.CreateFlickrCreatorStatement(lookup, photo.owner, photo.ownerPathAlias).value;
    var b := CreateCopyrightStatusStatement(photo.licenseId).value;
    var c := CreateSourceDataForPhoto(photo.id, photo.url, Claims.OriginalSizes(photo.sizes)[0].source);
    var d := CreateLicenseStatement(photo.licenseId).value;
    var e := CreatePublishedInStatement(photo.datePosted);
    ApisStructuredData.FiveProperties(a, b, c, d, e);
  }

  /** The property the date-taken part adds: the inception date, exactly
   *  when the date is known. */
  lemma DateTakenPartProperties(photo: Photo)
    requires DateTakenPart(photo).Ok?
    ensures Claims.MainProperties(DateTakenPart(photo).value)
         == if photo.dateTaken.unknown then [] else [WP.Inception]
  {
  }

  /** The claims are the five head statements, then the inception date
   *  exactly when the date taken is known. */
  lemma ClaimsOrder(lookup: EntityLookup, photo: Photo)
    requires ClaimsFor(lookup, photo).Ok?
    ensures Claims.MainProperties(ClaimsFor(lookup, photo).value)
         == ApisStructuredData.HeadProperties + (if photo.dateTaken.unknown then [] else [WP.Inception])
  {
    HeadOrder(lookup, photo);
    DateTakenPartProperties(photo);
    ApisStructuredData.ExtendProperties(HeadStatements(lookup, photo).value, DateTakenPart(photo));
  }

  /** None of the properties the claims can hold is the location's. */
  lemma NotCoordinates(ps: seq<string>)
    requires ps == ApisStructuredData.HeadProperties || ps == ApisStructuredData.HeadProperties + [WP.Inception]
    ensures WP.CoordinatesOfThePointOfView !in ps
  {
    var c := WP.CoordinatesOfThePointOfView;
    assert |c| == 5 && c[1] == '1' && c[2] == '2';
    var h := ApisStructuredData.HeadProperties;
    assert |h[0]| == 4 && |h[3]| == 4 && |WP.Inception| == 4;
    assert h[1][1] == '6' && h[2][1] == '7' && h[4][2] == '4';
    assert ps == [h[0], h[1], h[2], h[3], h[4]] || ps == [h[0], h[1], h[2], h[3], h[4], WP.Inception];
  }

  /** This version never writes a location statement. */
  lemma NoLocation(lookup: EntityLookup, photo: Photo)
    requires ClaimsFor(lookup, photo).Ok?
    ensures WP.CoordinatesOfThePointOfView !in Claims.MainProperties(ClaimsFor(lookup, photo).value)
  {
    ClaimsOrder(lookup, photo);
    NotCoordinates(Claims.MainProperties(ClaimsFor(lookup, photo).value));
  }

  /** Claims fail exactly when a builder raises: the creator's entity id
   *  is malformed (AssertionError), the license has no copyright status
   *  (ValueError), Flickr offers no Original size (IndexError), or a
   *  known date has an unknown granularity (ValueError). */
  lemma ClaimsFailures(lookup: EntityLookup, photo: Photo)
    ensures ClaimsFor(lookup, photo).Err? <==>
      || ApisStructuredData.CreateFlickrCreatorStatement(lookup, photo.owner, photo.ownerPathAlias).Err?
      || CreateCopyrightStatusStatement(photo.licenseId).Err?
      || Claims.OriginalSizes(photo.sizes) == []
      || (!photo.dateTaken.unknown && TakenPrecision(photo.dateTaken.granularity).None?)
    ensures ClaimsFor(lookup, photo).Err? ==> ClaimsFor(lookup, photo).error in {AssertionError, ValueError, IndexError}
  {
    LicenseAddsDetermination(photo.licenseId);
  }
}
