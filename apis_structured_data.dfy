/** The older statement builders of
 *  src/flickypedia/apis/structured_data/structured_data.py and the claims
 *  they make up for a new photo. Most builders write what the current ones
 *  write; the differences are the link to a creator Wikidata knows, the
 *  five source qualifiers (the photo id among them), the 2.0-era license
 *  list and a location filter on accuracy 0. */
module ApisStructuredData {
  import opened Wrappers
  import opened Dates
  import opened Sdc
  import opened WikidataValues
  import opened QualifierDsl
  import opened Statements
  import opened FlickrUserIds
  import Claims
  import WP = WikidataProperties
  import WE = WikidataEntities

  // ---------------------------------------------------------------------
  // Creator
  // ---------------------------------------------------------------------

  /** `create_flickr_creator_statement`: a user Wikidata knows (by user id,
   *  then by path alias) is a link to their entity, whose id must have
   *  the shape `Q<digits>`; anyone else gets the statement the current
   *  builder writes. */
  function CreateFlickrCreatorStatement(lookup: EntityLookup, user: FlickrUser, pathAlias: Option<string>)
    : (r: Result<Statement>)
    ensures var id := LookupFlickrUserInWikidata(lookup, user.id, pathAlias);
      && (id.None? ==> r == Ok(Statements.CreateFlickrCreatorStatement(user)))
      && (id.Some? ==> (r.Ok? <==> IsEntityId(id.value)))
      && (r.Err? ==> r.error == AssertionError)
      && (id.Some? && r.Ok? ==> r.value == PlainEntityStatement(WP.Creator, id.value))
  {
    match LookupFlickrUserInWikidata(lookup, user.id, pathAlias)
    case None => Ok(Statements.CreateFlickrCreatorStatement(user))
    case Some(wikidataId) =>
      match ToWikidataEntityValue(wikidataId)
      case Err(e) => Err(e)
      case Ok(v) => Ok(NewStatement(ValueSnakOf(WP.Creator, v), None, None))
  }

  // ---------------------------------------------------------------------
  // Copyright status and license
  // ---------------------------------------------------------------------

  /** The 2.0 Creative Commons licenses, under which a photo stays
   *  copyrighted. */
  predicate CopyrightedLicenseV2(licenseId: string) {
    licenseId == "cc-by-2.0" || licenseId == "cc-by-sa-2.0"
  }

  /** `create_copyright_status_statement`: the five licenses accepted on
   *  Commons map to a copyright status; any other is a ValueError. */
  function CreateCopyrightStatusStatement(licenseId: string): (r: Result<Statement>)
    ensures r.Ok? <==> CopyrightedLicenseV2(licenseId) || licenseId == "usgov" || DedicationLicense(licenseId)
    ensures r.Err? ==> r.error == ValueError
    ensures CopyrightedLicenseV2(licenseId) ==> r == Ok(PlainEntityStatement(WP.CopyrightStatus, WE.Copyrighted))
    ensures licenseId == "usgov" ==> r == Ok(UsGovCopyrightStatus())
    ensures DedicationLicense(licenseId) ==>
      r == Ok(PlainEntityStatement(WP.CopyrightStatus, WE.DedicatedToPublicDomainByCopyrightOwner))
  {
    if CopyrightedLicenseV2(licenseId) then
      QId(WE.Copyrighted);
      Ok(PlainEntityStatement(WP.CopyrightStatus, WE.Copyrighted))
    else if licenseId == "usgov" then Ok(UsGovCopyrightStatus())
    else if DedicationLicense(licenseId) then
      QId(WE.DedicatedToPublicDomainByCopyrightOwner);
      Ok(PlainEntityStatement(WP.CopyrightStatus, WE.DedicatedToPublicDomainByCopyrightOwner))
    else Err(ValueError)
  }

  /** Where both know a license, the older copyright status is the current
   *  one. */
  lemma CopyrightStatusAsCurrent(licenseId: string)
    requires CreateCopyrightStatusStatement(licenseId).Ok?
    ensures Statements.CreateCopyrightStatusStatement(licenseId) == CreateCopyrightStatusStatement(licenseId)
  {
    NamedEntityIds();
  }

  /** Every license in the older table has a well-formed entity id. */
  lemma LicenseV2EntityIds(licenseId: string)
    ensures WE.LicenseV2(licenseId).Some? ==> IsEntityId(WE.LicenseV2(licenseId).value)
  {
    QId("Q19125117");
    QId("Q19068220");
    QId("Q6938433");
    QId("Q60671452");
    QId("Q19652");
  }

  /** `create_license_statement` over the five-entry table: an unknown
   *  license is a ValueError. */
  function CreateLicenseStatement(licenseId: string): (r: Result<Statement>)
    ensures r.Err? <==> WE.LicenseV2(licenseId).None?
    ensures r.Err? ==> r.error == ValueError
    ensures r.Ok? ==> r.value == PlainEntityStatement(WP.CopyrightLicense, WE.LicenseV2(licenseId).value)
  {
    match WE.LicenseV2(licenseId)
    case None => Err(ValueError)
    case Some(wikidataLicenseId) =>
      LicenseV2EntityIds(licenseId);
      Ok(PlainEntityStatement(WP.CopyrightLicense, wikidataLicenseId))
  }

  /** The license table and the copyright status accept the same five
   *  licenses, so once the status is written the license never fails. */
  lemma LicenseFollowsCopyright(licenseId: string)
    ensures CreateLicenseStatement(licenseId).Ok? <==> CreateCopyrightStatusStatement(licenseId).Ok?
  {
  }

  // ---------------------------------------------------------------------
  // Source
  // ---------------------------------------------------------------------

  function SourceQualifierValues(photoId: string, photoUrl: string, originalUrl: string, retrievedAt: Timestamp)
    : seq<QualifierValue>
  {
    [ StringQualifier(WP.FlickrPhotoId, photoId),
      StringQualifier(WP.DescribedAtUrl, photoUrl),
      EntityQualifier(WP.Operator, WE.Flickr),
      StringQualifier(WP.Url, originalUrl),
      DateQualifier(WP.Retrieved, retrievedAt, DayPrecision) ]
  }

  const SourceOrder := [WP.FlickrPhotoId, WP.DescribedAtUrl, WP.Operator, WP.Url, WP.Retrieved]

  lemma SourceOrderDistinct()
    ensures Distinct(SourceOrder)
  {
    var o := SourceOrder;
    assert o[0] == "P12120" && o[1] == "P973" && o[2] == "P137" && o[3] == "P2699" && o[4] == "P813";
    assert o[0] != o[1] && o[0] != o[2] && o[0] != o[3] && o[0] != o[4];
    assert o[1][2] == '7' && o[2][2] == '3' && o[3][2] == '6' && o[4][2] == '1';
  }

  lemma SourceQualifiersEncode(photoId: string, photoUrl: string, originalUrl: string, retrievedAt: Timestamp)
    requires IsEntityId(WE.Flickr)
    ensures var qs := SourceQualifierValues(photoId, photoUrl, originalUrl, retrievedAt);
      Encodable(qs) && PropertiesOf(qs) == SourceOrder
  {
    var qs := SourceQualifierValues(photoId, photoUrl, originalUrl, retrievedAt);
    assert DataValueOf(qs[2]).Ok?;
    assert |PropertiesOf(qs)| == 5;
  }

  /** The entries of the five source qualifiers, written out. */
  lemma SourceEntries(photoId: string, photoUrl: string, originalUrl: string, retrievedAt: Timestamp)
    requires IsEntityId(WE.Flickr)
    requires Encodable(SourceQualifierValues(photoId, photoUrl, originalUrl, retrievedAt))
    ensures Entries(SourceQualifierValues(photoId, photoUrl, originalUrl, retrievedAt)) == [
      (WP.FlickrPhotoId, [ValueSnakOf(WP.FlickrPhotoId, StringValue(photoId))]),
      (WP.DescribedAtUrl, [ValueSnakOf(WP.DescribedAtUrl, StringValue(photoUrl))]),
      (WP.Operator, [ValueSnakOf(WP.Operator, Entity(WE.Flickr))]),
      (WP.Url, [ValueSnakOf(WP.Url, StringValue(originalUrl))]),
      (WP.Retrieved, [ValueSnakOf(WP.Retrieved, ToWikidataDateValue(retrievedAt, DayPrecision))])]
  {
    var qs := SourceQualifierValues(photoId, photoUrl, originalUrl, retrievedAt);
    var q := Entries(qs);
    assert q == [q[0], q[1], q[2], q[3], q[4]];
  }

  /** `create_source_data_for_photo`: a file available on the internet
   *  with five qualifiers in a fixed order: the Flickr photo id, the
   *  photo's page, Flickr as operator, the original file's URL and the
   *  retrieval day. */
  function CreateSourceDataForPhoto(photoId: string, photoUrl: string, originalUrl: string, retrievedAt: Timestamp)
    : (st: Statement)
    ensures MainEntity(st, WP.SourceOfFile, WE.FileAvailableOnInternet)
    ensures st.qualifiersOrder == Some(SourceOrder)
    ensures st.qualifiers.Some? && Keys(st.qualifiers.value) == SourceOrder
    ensures st.qualifiers.value == [
      (WP.FlickrPhotoId, [ValueSnakOf(WP.FlickrPhotoId, StringValue(photoId))]),
      (WP.DescribedAtUrl, [ValueSnakOf(WP.DescribedAtUrl, StringValue(photoUrl))]),
      (WP.Operator, [ValueSnakOf(WP.Operator, Entity(WE.Flickr))]),
      (WP.Url, [ValueSnakOf(WP.Url, StringValue(originalUrl))]),
      (WP.Retrieved, [ValueSnakOf(WP.Retrieved, ToWikidataDateValue(retrievedAt, DayPrecision))])]
  {
    NamedEntityIds();
    SourceOrderDistinct();
    SourceQualifiersEncode(photoId, photoUrl, originalUrl, retrievedAt);
    SourceEntries(photoId, photoUrl, originalUrl, retrievedAt);
    NewStatement(ValueSnakOf(WP.SourceOfFile, Entity(WE.FileAvailableOnInternet)), Some(SourceOrder),
                 Some(Qualify(SourceQualifierValues(photoId, photoUrl, originalUrl, retrievedAt))))
  }

  // ---------------------------------------------------------------------
  // Location, date posted, date taken
  // ---------------------------------------------------------------------

  /** `create_location_statement`: no location, or accuracy 0, gives no
   *  statement; an accuracy outside 1..16 is a ValueError; otherwise the
   *  camera's coordinates with the precision of the accuracy level. */
  function CreateLocationStatement(location: Option<NumericLocation>): (r: Result<Option<Statement>>)
    ensures location.None? || location.value.accuracy == 0 ==> r == Ok(None)
    ensures r.Err? <==> location.Some? && location.value.accuracy != 0 && LocationPrecision(location.value.accuracy).None?
    ensures r.Err? ==> r.error == ValueError
    ensures r.Ok? && r.value.Some? ==>
      && location.Some? && LocationPrecision(location.value.accuracy).Some?
      && var st := r.value.value;
      && st.mainsnak.property == WP.CoordinatesOfThePointOfView && st.mainsnak.snaktype == ValueSnak
      && st.mainsnak.datavalue == Some(GlobeCoordinateValue(GlobeValue(
           location.value.latitude, location.value.longitude,
           LocationPrecision(location.value.accuracy).value, EarthGlobe, None)))
      && st.qualifiers.None? && st.qualifiersOrder.None?
  {
    if location.None? then Ok(None)
    else if location.value.accuracy == 0 then Ok(None)
    else match LocationPrecision(location.value.accuracy)
      case None => Err(ValueError)
      case Some(precision) =>
        var coord := GlobeValue(location.value.latitude, location.value.longitude, precision, EarthGlobe, None);
        Ok(Some(NewStatement(ValueSnakOf(WP.CoordinatesOfThePointOfView, GlobeCoordinateValue(coord)), None, None)))
  }

  /** The accuracy-0 filter and the null-island filter of the current
   *  builder disagree: a located photo with accuracy 0 at (1, 1) gets no
   *  statement here and a ValueError from the current builder. */
  lemma LocationFiltersDiffer()
    ensures var loc := Some(NumericLocation(1.0, 1.0, 0));
      CreateLocationStatement(loc) == Ok(None) && Statements.CreateLocationStatement(loc) == Err(ValueError)
  {
  }

  /** `create_posted_to_flickr_statement`: the statement the current
   *  builder writes, published in Flickr on the day of posting. */
  function CreatePostedToFlickrStatement(datePosted: Timestamp): (st: Statement)
    ensures st == CreatePublishedInStatement(datePosted)
    ensures MainEntity(st, WP.PublishedIn, WE.Flickr)
  {
    CreatePublishedInStatement(datePosted)
  }

  /** `create_date_taken_statement`: an unknown date fails the assertion;
   *  a known one gets the statement the current builder writes. */
  function CreateDateTakenStatement(dateTaken: Option<DateTaken>): (r: Result<Statement>)
    ensures dateTaken.None? ==> r == Err(AssertionError)
    ensures dateTaken.Some? ==> r == Statements.CreateDateTakenStatement(dateTaken.value)
    ensures r.Ok? ==> r.value.mainsnak.property == WP.Inception
  {
    if dateTaken.None? then Err(AssertionError)
    else Statements.CreateDateTakenStatement(dateTaken.value)
  }

  // ---------------------------------------------------------------------
  // create_sdc_claims_for_flickr_photo
  // ---------------------------------------------------------------------

  /** The fields of a `SinglePhoto` this version reads; a date taken of
   *  None is one Flickr marks unknown. */
  datatype Photo = Photo(
    id: string,
    owner: FlickrUser,
    ownerPathAlias: Option<string>,
    sizes: seq<Claims.Size>,
    url: string,
    licenseId: string,
    location: Option<NumericLocation>,
    dateTaken: Option<DateTaken>,
    datePosted: Timestamp)

  /** The first five statements: creator, copyright status, source,
   *  license, date posted. A missing Original size is an IndexError. */
  function HeadStatements(lookup: EntityLookup, photo: Photo, retrievedAt: Timestamp): Result<seq<Statement>> {
    match CreateFlickrCreatorStatement(lookup, photo.owner, photo.ownerPathAlias)
    case Err(e) => Err(e)
    case Ok(creator) =>
      match CreateCopyrightStatusStatement(photo.licenseId)
      case Err(e) => Err(e)
      case Ok(copyright) =>
        if Claims.OriginalSizes(photo.sizes) == [] then Err(IndexError)
        else
          var source := CreateSourceDataForPhoto(photo.id, photo.url, Claims.OriginalSizes(photo.sizes)[0].source, retrievedAt);
          match CreateLicenseStatement(photo.licenseId)
          case Err(e) => Err(e)
          case Ok(license) => Ok([creator, copyright, source, license, CreatePostedToFlickrStatement(photo.datePosted)])
  }

  /** The date-taken statement, when the date is known. */
  function DateTakenPart(photo: Photo): Result<seq<Statement>> {
    if photo.dateTaken.None? then Ok([])
    else match CreateDateTakenStatement(photo.dateTaken)
      case Err(e) => Err(e)
      case Ok(st) => Ok([st])
  }

  /** The location statement, when there is one. */
  function LocationPart(photo: Photo): Result<seq<Statement>> {
    match CreateLocationStatement(photo.location)
    case Err(e) => Err(e)
    case Ok(None) => Ok([])
    case Ok(Some(st)) => Ok([st])
  }

  /** `part` appended to `sts`, or the error that computing it raised. */
  function Extend(sts: seq<Statement>, part: Result<seq<Statement>>): Result<seq<Statement>> {
    match part
    case Err(e) => Err(e)
    case Ok(more) => Ok(sts + more)
  }

  function ClaimsFor(lookup: EntityLookup, photo: Photo, retrievedAt: Timestamp): Result<seq<Statement>> {
    match HeadStatements(lookup, photo, retrievedAt)
    case Err(e) => Err(e)
    case Ok(head) =>
      match Extend(head, DateTakenPart(photo))
      case Err(e) => Err(e)
      case Ok(sts) => Extend(sts, LocationPart(photo))
  }

  /** The first half of `create_sdc_claims_for_flickr_photo`: the five
   *  statements every photo gets, each builder in turn. */
  method CreateHeadStatements(lookup: EntityLookup, photo: Photo, retrievedAt: Timestamp)
    returns (r: Result<seq<Statement>>)
    ensures r == HeadStatements(lookup, photo, retrievedAt)
  {
    var creatorStatement := CreateFlickrCreatorStatement(lookup, photo.owner, photo.ownerPathAlias);
    if creatorStatement.Err? {
      return Err(creatorStatement.error);
    }
    var copyrightStatement := CreateCopyrightStatusStatement(photo.licenseId);
    if copyrightStatement.Err? {
      return Err(copyrightStatement.error);
    }
    var originals := Claims.OriginalSizes(photo.sizes);
    if originals == [] {
      return Err(IndexError);
    }
    var sourceStatement := CreateSourceDataForPhoto(photo.id, photo.url, originals[0].source, retrievedAt);
    var licenseStatement := CreateLicenseStatement(photo.licenseId);
    if licenseStatement.Err? {
      return Err(licenseStatement.error);
    }
    var datePostedStatement := CreatePostedToFlickrStatement(photo.datePosted);
    return Ok([creatorStatement.value, copyrightStatement.value, sourceStatement, licenseStatement.value,
               datePostedStatement]);
  }

  /** `statements.append(create_date_taken_statement(...))` for a known
   *  date. */
  method AppendDateTaken(photo: Photo, statements: seq<Statement>) returns (r: Result<seq<Statement>>)
    ensures r == Extend(statements, DateTakenPart(photo))
  {
    if photo.dateTaken.Some? {
      var dateTaken := CreateDateTakenStatement(photo.dateTaken);
      if dateTaken.Err? {
        return Err(dateTaken.error);
      }
      return Ok(statements + [dateTaken.value]);
    }
    assert statements + [] == statements;
    return Ok(statements);
  }

  /** `statements.append(location_statement)` when there is one. */
  method AppendLocation(photo: Photo, statements: seq<Statement>) returns (r: Result<seq<Statement>>)
    ensures r == Extend(statements, LocationPart(photo))
  {
    var location := CreateLocationStatement(photo.location);
    if location.Err? {
      return Err(location.error);
    }
    if location.value.Some? {
      return Ok(statements + [location.value.value]);
    }
    assert statements + [] == statements;
    return Ok(statements);
  }

  /** `create_sdc_claims_for_flickr_photo`. */
  method CreateSdcClaimsForFlickrPhoto(lookup: EntityLookup, photo: Photo, retrievedAt: Timestamp)
    returns (r: Result<seq<Statement>>)
    ensures r == ClaimsFor(lookup, photo, retrievedAt)
  {
    var statements := CreateHeadStatements(lookup, photo, retrievedAt);
    if statements.Err? {
      return statements;
    }
    statements := AppendDateTaken(photo, statements.value);
    if statements.Err? {
      return statements;
    }
    r := AppendLocation(photo, statements.value);
  }

  // ---------------------------------------------------------------------
  // What the claims promise
  // ---------------------------------------------------------------------

  const HeadProperties := [WP.Creator, WP.CopyrightStatus, WP.SourceOfFile, WP.CopyrightLicense, WP.PublishedIn]

  /** Five statements whose main snaks name the head properties in order. */
  lemma FiveProperties(a: Statement, b: Statement, c: Statement, d: Statement, e: Statement)
    requires a.mainsnak.property == WP.Creator && b.mainsnak.property == WP.CopyrightStatus
    requires c.mainsnak.property == WP.SourceOfFile && d.mainsnak.property == WP.CopyrightLicense
    requires e.mainsnak.property == WP.PublishedIn
    ensures Claims.MainProperties([a, b, c, d, e]) == HeadProperties
  {
  }

  /** The five statements, when none of their builders fails. */
  lemma HeadValue(lookup: EntityLookup, photo: Photo, retrievedAt: Timestamp)
    requires HeadStatements(lookup, photo, retrievedAt).Ok?
    ensures CreateFlickrCreatorStatement(lookup, photo.owner, photo.ownerPathAlias).Ok?
    ensures CreateCopyrightStatusStatement(photo.licenseId).Ok? && CreateLicenseStatement(photo.licenseId).Ok?
    ensures Claims.OriginalSizes(photo.sizes) != []
    ensures HeadStatements(lookup, photo, retrievedAt).value == [
      CreateFlickrCreatorStatement(lookup, photo.owner, photo.ownerPathAlias).value,
      CreateCopyrightStatusStatement(photo.licenseId).value,
      CreateSourceDataForPhoto(photo.id, photo.url, Claims.OriginalSizes(photo.sizes)[0].source, retrievedAt),
      CreateLicenseStatement(photo.licenseId).value,
      CreatePostedToFlickrStatement(photo.datePosted)]
  {
  }

  /** Every photo's claims begin with these five statements, in order. */
  lemma HeadOrder(lookup: EntityLookup, photo: Photo, retrievedAt: Timestamp)
    requires HeadStatements(lookup, photo, retrievedAt).Ok?
    ensures Claims.MainProperties(HeadStatements(lookup, photo, retrievedAt).value) == HeadProperties
  {
    HeadValue(lookup, photo, retrievedAt);
    var a := CreateFlickrCreatorStatement(lookup, photo.owner, photo.ownerPathAlias).value;
    var b := CreateCopyrightStatusStatement(photo.licenseId).value;
    var c := CreateSourceDataForPhoto(photo.id, photo.url, Claims.OriginalSizes(photo.sizes)[0].source, retrievedAt);
    var d := CreateLicenseStatement(photo.licenseId).value;
    var e := CreatePostedToFlickrStatement(photo.datePosted);
    FiveProperties(a, b, c, d, e);
  }

  /** The main properties of a list grown by `Extend`. */
  lemma ExtendProperties(sts: seq<Statement>, part: Result<seq<Statement>>)
    requires part.Ok?
    ensures Extend(sts, part).Ok?
    ensures Claims.MainProperties(Extend(sts, part).value) == Claims.MainProperties(sts) + Claims.MainProperties(part.value)
  {
    Claims.MainPropertiesAppend(sts, part.value);
  }

  /** The property the date-taken part adds: the inception date, exactly
   *  when the date is known. */
  lemma DateTakenPartProperties(photo: Photo)
    requires DateTakenPart(photo).Ok?
    ensures Claims.MainProperties(DateTakenPart(photo).value) == if photo.dateTaken.Some? then [WP.Inception] else []
  {
  }

  /** The property the location part adds: the camera's coordinates,
   *  exactly when there is a location whose accuracy is not 0. */
  lemma LocationPartProperties(photo: Photo)
    requires LocationPart(photo).Ok?
    ensures Claims.MainProperties(LocationPart(photo).value)
         == if photo.location.Some? && photo.location.value.accuracy != 0 then [WP.CoordinatesOfThePointOfView] else []
  {
  }

  /** The claims are creator, copyright status, source, license and date
   *  posted, then the date taken if it is known, then the location if
   *  there is one with a non-zero accuracy. */
  lemma ClaimsOrder(lookup: EntityLookup, photo: Photo, retrievedAt: Timestamp)
    requires ClaimsFor(lookup, photo, retrievedAt).Ok?
    ensures Claims.MainProperties(ClaimsFor(lookup, photo, retrievedAt).value)
         == HeadProperties
            + (if photo.dateTaken.Some? then [WP.Inception] else [])
            + (if photo.location.Some? && photo.location.value.accuracy != 0 then [WP.CoordinatesOfThePointOfView] else [])
  {
    var head := HeadStatements(lookup, photo, retrievedAt).value;
    HeadOrder(lookup, photo, retrievedAt);
    ExtendProperties(head, DateTakenPart(photo));
    DateTakenPartProperties(photo);
    var sts := Extend(head, DateTakenPart(photo)).value;
    ExtendProperties(sts, LocationPart(photo));
    LocationPartProperties(photo);
  }

  /** The first five statements fail only with the creator's assertion,
   *  a ValueError for the license, or an IndexError for a photo without
   *  an Original size. */
  lemma HeadFailures(lookup: EntityLookup, photo: Photo, retrievedAt: Timestamp)
    ensures Claims.OriginalSizes(photo.sizes) == [] ==> HeadStatements(lookup, photo, retrievedAt).Err?
    ensures HeadStatements(lookup, photo, retrievedAt).Err? ==>
      HeadStatements(lookup, photo, retrievedAt).error in {AssertionError, ValueError, IndexError}
  {
  }

  /** The statements after the head fail only with a ValueError. */
  lemma TailFailures(photo: Photo)
    ensures DateTakenPart(photo).Err? ==> DateTakenPart(photo).error == ValueError
    ensures LocationPart(photo).Err? ==> LocationPart(photo).error == ValueError
  {
  }

  /** A photo without an Original size has no claims; claims fail only with
   *  the creator's assertion, a ValueError (an unknown license, granularity
   *  or accuracy) or that IndexError. */
  lemma ClaimsFailures(lookup: EntityLookup, photo: Photo, retrievedAt: Timestamp)
    ensures Claims.OriginalSizes(photo.sizes) == [] ==> ClaimsFor(lookup, photo, retrievedAt).Err?
    ensures ClaimsFor(lookup, photo, retrievedAt).Err? ==>
      ClaimsFor(lookup, photo, retrievedAt).error in {AssertionError, ValueError, IndexError}
  {
    HeadFailures(lookup, photo, retrievedAt);
    TailFailures(photo);
  }
}
