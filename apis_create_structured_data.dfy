/** The all-in-one builders of
 *  src/flickypedia/apis/structured_data/create_structured_data.py and the
 *  claims they make up for a new or an existing photo. The photo-id,
 *  creator, source, date-taken and date-posted builders there write what
 *  the builders of `Statements` write; the copyright status and the
 *  license follow the 2.0-era tables of `ApisStructuredData`; the location
 *  builder has no filter on the null coordinates; and a photo already on
 *  Commons keeps the URL of its Original size when Flickr offers one. */
module ApisCreateStructuredData {
  import opened Wrappers
  import opened Dates
  import opened Sdc
  import opened WikidataValues
  import opened Statements
  import Claims
  import ApisStructuredData
  import WP = WikidataProperties
  import WE = WikidataEntities

  // ---------------------------------------------------------------------
  // Builders that differ from the current ones
  // ---------------------------------------------------------------------

  /** The five licenses `create_copyright_status_statement` maps; any
   *  other is a ValueError. */
  lemma CopyrightStatusLicenses(licenseId: string)
    ensures ApisStructuredData.CreateCopyrightStatusStatement(licenseId).Ok?
        <==> licenseId in {"cc-by-2.0", "cc-by-sa-2.0", "usgov", "cc0-1.0", "pdm"}
    ensures ApisStructuredData.CreateCopyrightStatusStatement(licenseId).Err? ==>
      ApisStructuredData.CreateCopyrightStatusStatement(licenseId).error == ValueError
  {
  }

  /** `create_location_statement`: the camera's coordinates on Earth at the
   *  precision of the accuracy level, with no altitude; an accuracy outside
   *  1..16 is a ValueError. Nothing filters out the null coordinates. */
  function CreateLocationStatement(location: NumericLocation): (r: Result<Statement>)
    ensures r.Err? <==> LocationPrecision(location.accuracy).None?
    ensures r.Err? ==> r.error == ValueError
    ensures r.Ok? ==>
      && r.value.mainsnak == ValueSnakOf(WP.CoordinatesOfThePointOfView, GlobeCoordinateValue(GlobeValue(
           location.latitude, location.longitude, LocationPrecision(location.accuracy).value, EarthGlobe, None)))
      && r.value.qualifiers.None? && r.value.qualifiersOrder.None?
  {
    match LocationPrecision(location.accuracy)
    case None => Err(ValueError)
    case Some(precision) =>
      var coord := GlobeValue(location.latitude, location.longitude, precision, EarthGlobe, None);
      Ok(NewStatement(ValueSnakOf(WP.CoordinatesOfThePointOfView, GlobeCoordinateValue(coord)), None, None))
  }

  /** Away from the null coordinates the current builder writes the same
   *  statement and fails alike; at (0, 0) it writes none, where this one
   *  still writes one. */
  lemma NullCoordinatesKept(location: NumericLocation)
    ensures !IsNullIsland(location) ==>
      Statements.CreateLocationStatement(Some(location))
      == (match CreateLocationStatement(location) case Err(e) => Err(e) case Ok(st) => Ok(Some(st)))
    ensures IsNullIsland(location) ==> Statements.CreateLocationStatement(Some(location)) == Ok(None)
    ensures IsNullIsland(location) && 1 <= location.accuracy <= 16 ==> CreateLocationStatement(location).Ok?
  {
  }

  // ---------------------------------------------------------------------
  // The parts of the claims
  // ---------------------------------------------------------------------

  /** The source statement: with the first Original size's URL and the
   *  retrieval date when Flickr offers an Original size, in either mode;
   *  with neither for a photo already on Commons that has none; a new
   *  photo without one is an IndexError. */
  function SourceFor(photo: Claims.SinglePhoto, mode: Claims.Mode, retrievedAt: Option<Timestamp>)
    : (r: Result<Statement>)
    ensures r.Err? <==> mode == Claims.NewPhoto && Claims.OriginalSizes(photo.sizes) == []
    ensures r.Err? ==> r.error == IndexError
    ensures r.Ok? ==> MainEntity(r.value, WP.SourceOfFile, WE.FileAvailableOnInternet)
  {
    var originals := Claims.OriginalSizes(photo.sizes);
    if originals == [] then
      if mode == Claims.NewPhoto then Err(IndexError)
      else Ok(CreateSourceStatement(photo.id, photo.url, None, None))
    else Ok(CreateSourceStatement(photo.id, photo.url, Some(originals[0].source), retrievedAt))
  }

  /** Without an Original size the source statement of a photo already on
   *  Commons names only the photo's page and Flickr as operator. */
  lemma SourceWithoutOriginal(photo: Claims.SinglePhoto, retrievedAt: Option<Timestamp>)
    requires Claims.OriginalSizes(photo.sizes) == []
    ensures var st := SourceFor(photo, Claims.ExistingPhoto, retrievedAt).value;
      && st.qualifiersOrder == Some([WP.DescribedAtUrl, WP.Operator])
      && st.qualifiers.Some?
      && Lookup(st.qualifiers.value, WP.Url).None? && Lookup(st.qualifiers.value, WP.Retrieved).None?
  {
    SourceOrderShape(None, None);
  }

  /** With an Original size the source statement names its URL, in either
   *  mode, and carries the retrieval date exactly when one is given. */
  lemma SourceWithOriginal(photo: Claims.SinglePhoto, mode: Claims.Mode, retrievedAt: Option<Timestamp>)
    requires Claims.OriginalSizes(photo.sizes) != []
    ensures SourceFor(photo, mode, retrievedAt).Ok?
    ensures var st := SourceFor(photo, mode, retrievedAt).value;
      && st.qualifiers.Some? && st.qualifiersOrder.Some?
      && Lookup(st.qualifiers.value, WP.Url)
         == Some([ValueSnakOf(WP.Url, StringValue(Claims.OriginalSizes(photo.sizes)[0].source))])
      && (WP.Retrieved in st.qualifiersOrder.value <==> retrievedAt.Some?)
      && (retrievedAt.Some? ==>
            Lookup(st.qualifiers.value, WP.Retrieved)
            == Some([ValueSnakOf(WP.Retrieved, ToWikidataDateValue(retrievedAt.value, DayPrecision))]))
  {
    SourceOrderShape(Some(Claims.OriginalSizes(photo.sizes)[0].source), retrievedAt);
  }

  /** The license and copyright-status statements, in that order, written
   *  only for a new photo. */
  function LicensingStatements(photo: Claims.SinglePhoto, mode: Claims.Mode): (r: Result<seq<Statement>>)
    ensures mode == Claims.ExistingPhoto ==> r == Ok([])
    ensures mode == Claims.NewPhoto ==> (r.Err? <==> WE.LicenseV2(photo.licenseId).None?)
    ensures r.Err? ==> r.error == ValueError
    ensures mode == Claims.NewPhoto && r.Ok? ==>
      r.value == [ApisStructuredData.CreateLicenseStatement(photo.licenseId).value,
                  ApisStructuredData.CreateCopyrightStatusStatement(photo.licenseId).value]
    ensures r.Ok? ==> Claims.MainProperties(r.value) == Claims.LicensingProperties(mode)
  {
    if mode == Claims.ExistingPhoto then Ok([])
    else
      ApisStructuredData.LicenseFollowsCopyright(photo.licenseId);
      match ApisStructuredData.CreateLicenseStatement(photo.licenseId)
      case Err(e) => Err(e)
      case Ok(license) =>
        var sts := [license, ApisStructuredData.CreateCopyrightStatusStatement(photo.licenseId).value];
        Claims.MainPropertiesPair(sts[0], sts[1]);
        Ok(sts)
  }

  /** The property the location part contributes: the camera's
   *  coordinates, whenever the photo has a location. */
  function LocationProperty(photo: Claims.SinglePhoto): seq<string> {
    if photo.location.Some? then [WP.CoordinatesOfThePointOfView] else []
  }

  /** The location statement, for every photo that has a location. */
  function LocationStatements(photo: Claims.SinglePhoto): (r: Result<seq<Statement>>)
    ensures photo.location.None? ==> r == Ok([])
    ensures r.Err? <==> photo.location.Some? && LocationPrecision(photo.location.value.accuracy).None?
    ensures r.Err? ==> r.error == ValueError
    ensures photo.location.Some? && r.Ok? ==> r.value == [CreateLocationStatement(photo.location.value).value]
    ensures r.Ok? ==> Claims.MainProperties(r.value) == LocationProperty(photo)
  {
    if photo.location.None? then Ok([])
    else
      var st :- CreateLocationStatement(photo.location.value);
      assert Claims.MainProperties([st]) == [st.mainsnak.property];
      Ok([st])
  }

  // ---------------------------------------------------------------------
  // _create_sdc_claims_for_flickr_photo
  // ---------------------------------------------------------------------

  /** What `_create_sdc_claims_for_flickr_photo` returns or raises. The
   *  exceptions come in the order the builders run: the missing Original
   *  size of a new photo, then the license, the location and the date
   *  taken. Each stage below takes the statements gathered so far. */
  function ClaimsFor(photo: Claims.SinglePhoto, mode: Claims.Mode, retrievedAt: Option<Timestamp>)
    : Result<seq<Statement>>
  {
    WithSource(photo, mode, retrievedAt,
      [CreateFlickrPhotoIdStatement(photo.id), CreateFlickrCreatorStatement(photo.owner)])
  }

  function WithSource(photo: Claims.SinglePhoto, mode: Claims.Mode, retrievedAt: Option<Timestamp>,
                      sts: seq<Statement>): Result<seq<Statement>>
  {
    match SourceFor(photo, mode, retrievedAt)
    case Err(e) => Err(e)
    case Ok(source) => WithLicensing(photo, mode, sts + [source])
  }

  function WithLicensing(photo: Claims.SinglePhoto, mode: Claims.Mode, sts: seq<Statement>)
    : Result<seq<Statement>>
  {
    match LicensingStatements(photo, mode)
    case Err(e) => Err(e)
    case Ok(licensing) => WithLocation(photo, sts + licensing)
  }

  function WithLocation(photo: Claims.SinglePhoto, sts: seq<Statement>): Result<seq<Statement>> {
    match LocationStatements(photo)
    case Err(e) => Err(e)
    case Ok(location) => WithDateTaken(photo, sts + location)
  }

  function WithDateTaken(photo: Claims.SinglePhoto, sts: seq<Statement>): Result<seq<Statement>> {
    match Claims.DateTakenStatements(photo)
    case Err(e) => Err(e)
    case Ok(dateTaken) => Ok(sts + dateTaken + [CreatePublishedInStatement(photo.datePosted)])
  }

  /** `_create_sdc_claims_for_flickr_photo`: the photo id and the creator,
   *  then the source statement, then the rest. */
  method CreateSdcClaimsForFlickrPhoto(photo: Claims.SinglePhoto, mode: Claims.Mode, retrievedAt: Option<Timestamp>)
    returns (r: Result<seq<Statement>>)
    ensures r == ClaimsFor(photo, mode, retrievedAt)
  {
    var statements := [CreateFlickrPhotoIdStatement(photo.id), CreateFlickrCreatorStatement(photo.owner)];
    var originals := Claims.OriginalSizes(photo.sizes);
    if originals == [] {
      if mode == Claims.NewPhoto {
        return Err(IndexError);
      }
      statements := statements + [CreateSourceStatement(photo.id, photo.url, None, None)];
    } else {
      statements := statements + [CreateSourceStatement(photo.id, photo.url, Some(originals[0].source), retrievedAt)];
    }
    r := AppendLicensingOnwards(photo, mode, statements);
  }

  /** The license and copyright status of a new photo, then the rest. */
  method AppendLicensingOnwards(photo: Claims.SinglePhoto, mode: Claims.Mode, statements: seq<Statement>)
    returns (r: Result<seq<Statement>>)
    ensures r == WithLicensing(photo, mode, statements)
  {
    var sts := statements;
    if mode == Claims.NewPhoto {
      var license := ApisStructuredData.CreateLicenseStatement(photo.licenseId);
      if license.Err? {
        return Err(license.error);
      }
      ApisStructuredData.LicenseFollowsCopyright(photo.licenseId);
      var copyright := ApisStructuredData.CreateCopyrightStatusStatement(photo.licenseId);
      sts := sts + [license.value, copyright.value];
    } else {
      assert sts + [] == sts;
    }
    r := AppendLocationOnwards(photo, sts);
  }

  /** The location, the date taken and the date posted. */
  method AppendLocationOnwards(photo: Claims.SinglePhoto, statements: seq<Statement>)
    returns (r: Result<seq<Statement>>)
    ensures r == WithLocation(photo, statements)
  {
    var sts := statements;
    if photo.location.Some? {
      var location := CreateLocationStatement(photo.location.value);
      if location.Err? {
        return Err(location.error);
      }
      sts := sts + [location.value];
    } else {
      assert sts + [] == sts;
    }
    assert WithLocation(photo, statements) == WithDateTaken(photo, sts);
    if photo.dateTaken.Some? {
      var dateTaken := CreateDateTakenStatement(photo.dateTaken.value);
      if dateTaken.Err? {
        return Err(dateTaken.error);
      }
      sts := sts + [dateTaken.value];
    } else {
      assert sts + [] == sts;
    }
    sts := sts + [CreatePublishedInStatement(photo.datePosted)];
    return Ok(sts);
  }

  /** `create_sdc_claims_for_new_flickr_photo`. */
  method CreateSdcClaimsForNewFlickrPhoto(photo: Claims.SinglePhoto, retrievedAt: Timestamp)
    returns (r: Result<seq<Statement>>)
    ensures r == ClaimsFor(photo, Claims.NewPhoto, Some(retrievedAt))
  {
    r := CreateSdcClaimsForFlickrPhoto(photo, Claims.NewPhoto, Some(retrievedAt));
  }

  /** `create_sdc_claims_for_existing_flickr_photo`: no retrieval date. */
  method CreateSdcClaimsForExistingFlickrPhoto(photo: Claims.SinglePhoto)
    returns (r: Result<seq<Statement>>)
    ensures r == ClaimsFor(photo, Claims.ExistingPhoto, None)
  {
    r := CreateSdcClaimsForFlickrPhoto(photo, Claims.ExistingPhoto, None);
  }

  // ---------------------------------------------------------------------
  // What the claims promise
  // ---------------------------------------------------------------------

  /** The main properties each stage contributes, from that stage to the
   *  end of the list. */
  function DateTakenOnwards(photo: Claims.SinglePhoto): seq<string> {
    Claims.DateTakenProperty(photo) + [WP.PublishedIn]
  }

  function LocationOnwards(photo: Claims.SinglePhoto): seq<string> {
    LocationProperty(photo) + DateTakenOnwards(photo)
  }

  function LicensingOnwards(photo: Claims.SinglePhoto, mode: Claims.Mode): seq<string> {
    Claims.LicensingProperties(mode) + LocationOnwards(photo)
  }

  lemma DateTakenStage(photo: Claims.SinglePhoto, sts: seq<Statement>, out: seq<Statement>)
    requires WithDateTaken(photo, sts) == Ok(out)
    ensures |out| >= |sts| + 1 && out[..|sts|] == sts
    ensures Claims.MainProperties(out) == Claims.MainProperties(sts) + DateTakenOnwards(photo)
    ensures out[|out| - 1] == CreatePublishedInStatement(photo.datePosted)
  {
    var dateTaken := Claims.DateTakenStatements(photo).value;
    var tail := [CreatePublishedInStatement(photo.datePosted)];
    assert out == sts + dateTaken + tail;
    assert Claims.MainProperties(tail) == [WP.PublishedIn];
    Claims.StageEnd(sts, dateTaken, tail, out, Claims.DateTakenProperty(photo), [WP.PublishedIn], tail[0]);
  }

  lemma LocationStage(photo: Claims.SinglePhoto, sts: seq<Statement>, out: seq<Statement>)
    requires WithLocation(photo, sts) == Ok(out)
    ensures |out| >= |sts| + 1 && out[..|sts|] == sts
    ensures Claims.MainProperties(out) == Claims.MainProperties(sts) + LocationOnwards(photo)
    ensures out[|out| - 1] == CreatePublishedInStatement(photo.datePosted)
  {
    var location := LocationStatements(photo).value;
    DateTakenStage(photo, sts + location, out);
    Claims.StageStep(out, sts, location, LocationProperty(photo), DateTakenOnwards(photo), 1);
  }

  lemma LicensingStage(photo: Claims.SinglePhoto, mode: Claims.Mode, sts: seq<Statement>, out: seq<Statement>)
    requires WithLicensing(photo, mode, sts) == Ok(out)
    ensures |out| >= |sts| + 1 && out[..|sts|] == sts
    ensures Claims.MainProperties(out) == Claims.MainProperties(sts) + LicensingOnwards(photo, mode)
    ensures out[|out| - 1] == CreatePublishedInStatement(photo.datePosted)
  {
    var licensing := LicensingStatements(photo, mode).value;
    LocationStage(photo, sts + licensing, out);
    Claims.StageStep(out, sts, licensing, Claims.LicensingProperties(mode), LocationOnwards(photo), 1);
  }

  lemma SourceStage(photo: Claims.SinglePhoto, mode: Claims.Mode, retrievedAt: Option<Timestamp>,
                    sts: seq<Statement>, out: seq<Statement>)
    requires WithSource(photo, mode, retrievedAt, sts) == Ok(out)
    ensures |out| >= |sts| + 2 && out[..|sts|] == sts
    ensures out[|sts|] == SourceFor(photo, mode, retrievedAt).value
    ensures Claims.MainProperties(out) == Claims.MainProperties(sts) + ([WP.SourceOfFile] + LicensingOnwards(photo, mode))
    ensures out[|out| - 1] == CreatePublishedInStatement(photo.datePosted)
  {
    var source := [SourceFor(photo, mode, retrievedAt).value];
    LicensingStage(photo, mode, sts + source, out);
    assert Claims.MainProperties(source) == [WP.SourceOfFile];
    Claims.StageStep(out, sts, source, [WP.SourceOfFile], LicensingOnwards(photo, mode), 1);
    assert out[|sts|] == out[..|sts + source|][|sts|];
  }

  /** The properties of the statements written, in order: photo id,
   *  creator and source; license and copyright status for a new photo;
   *  the location whenever there is one; the date taken when known; and
   *  published in Flickr, always last. */
  lemma ClaimsProperties(photo: Claims.SinglePhoto, mode: Claims.Mode, retrievedAt: Option<Timestamp>,
                         sts: seq<Statement>)
    requires ClaimsFor(photo, mode, retrievedAt) == Ok(sts)
    ensures Claims.MainProperties(sts)
      == [WP.FlickrPhotoId, WP.Creator, WP.SourceOfFile] + Claims.LicensingProperties(mode)
         + LocationProperty(photo) + Claims.DateTakenProperty(photo) + [WP.PublishedIn]
    ensures |sts| >= 4 && sts[|sts| - 1] == CreatePublishedInStatement(photo.datePosted)
  {
    var head := [CreateFlickrPhotoIdStatement(photo.id), CreateFlickrCreatorStatement(photo.owner)];
    SourceStage(photo, mode, retrievedAt, head, sts);
    Claims.MainPropertiesPair(head[0], head[1]);
    PropertiesInOrder(photo, mode);
  }

  /** The properties in the order the stages write them. */
  lemma PropertiesInOrder(photo: Claims.SinglePhoto, mode: Claims.Mode)
    ensures [WP.FlickrPhotoId, WP.Creator] + ([WP.SourceOfFile] + LicensingOnwards(photo, mode))
      == [WP.FlickrPhotoId, WP.Creator, WP.SourceOfFile] + Claims.LicensingProperties(mode)
         + LocationProperty(photo) + Claims.DateTakenProperty(photo) + [WP.PublishedIn]
  {
  }

  /** The statements begin with the photo id, the creator and the source
   *  statement. */
  lemma ClaimsBegin(photo: Claims.SinglePhoto, mode: Claims.Mode, retrievedAt: Option<Timestamp>,
                    sts: seq<Statement>)
    requires ClaimsFor(photo, mode, retrievedAt) == Ok(sts)
    ensures |sts| >= 4
    ensures sts[0] == CreateFlickrPhotoIdStatement(photo.id) && sts[1] == CreateFlickrCreatorStatement(photo.owner)
    ensures sts[2] == SourceFor(photo, mode, retrievedAt).value
  {
    var head := [CreateFlickrPhotoIdStatement(photo.id), CreateFlickrCreatorStatement(photo.owner)];
    SourceStage(photo, mode, retrievedAt, head, sts);
    assert sts[0] == sts[..2][0] && sts[1] == sts[..2][1];
  }

  /** The assembly fails exactly when a builder it calls raises: a new
   *  photo without an Original size (re-raised), a new photo under a
   *  license outside the 2.0-era table, a location whose accuracy is
   *  outside 1..16, or an unknown date-taken granularity. */
  lemma ClaimsFailures(photo: Claims.SinglePhoto, mode: Claims.Mode, retrievedAt: Option<Timestamp>)
    ensures ClaimsFor(photo, mode, retrievedAt).Err? <==>
      || (mode == Claims.NewPhoto && Claims.OriginalSizes(photo.sizes) == [])
      || (mode == Claims.NewPhoto && WE.LicenseV2(photo.licenseId).None?)
      || (photo.location.Some? && LocationPrecision(photo.location.value.accuracy).None?)
      || (photo.dateTaken.Some? && TakenPrecision(photo.dateTaken.value.granularity).None?)
  {
  }

  /** A failure is an IndexError exactly when a new photo has no Original
   *  size, and a ValueError otherwise. */
  lemma ClaimsFailureKinds(photo: Claims.SinglePhoto, mode: Claims.Mode, retrievedAt: Option<Timestamp>)
    ensures var r := ClaimsFor(photo, mode, retrievedAt);
      && (r.Err? ==> (r.error == IndexError <==> mode == Claims.NewPhoto && Claims.OriginalSizes(photo.sizes) == []))
      && (r.Err? && r.error != IndexError ==> r.error == ValueError)
  {
    var source := SourceFor(photo, mode, retrievedAt);
    if source.Ok? {
      LicensingStageError(photo, mode,
        [CreateFlickrPhotoIdStatement(photo.id), CreateFlickrCreatorStatement(photo.owner)] + [source.value]);
    }
  }

  /** The stages after the source statement fail only with a ValueError. */
  lemma LicensingStageError(photo: Claims.SinglePhoto, mode: Claims.Mode, sts: seq<Statement>)
    ensures WithLicensing(photo, mode, sts).Err? ==> WithLicensing(photo, mode, sts).error == ValueError
  {
    var licensing := LicensingStatements(photo, mode);
    if licensing.Ok? {
      assert WithLocation(photo, sts + licensing.value).Err? ==>
        WithLocation(photo, sts + licensing.value).error == ValueError;
    }
  }

  /** A photo already on Commons without an Original size gets a source
   *  statement with neither the original file's URL nor a retrieval date,
   *  and no license or copyright-status statement. */
  lemma ExistingPhotoClaims(photo: Claims.SinglePhoto, retrievedAt: Option<Timestamp>, sts: seq<Statement>)
    requires Claims.OriginalSizes(photo.sizes) == []
    requires ClaimsFor(photo, Claims.ExistingPhoto, retrievedAt) == Ok(sts)
    ensures |sts| >= 3 && sts[2].qualifiersOrder == Some([WP.DescribedAtUrl, WP.Operator])
    ensures sts[2].qualifiers.Some?
    ensures Lookup(sts[2].qualifiers.value, WP.Url).None? && Lookup(sts[2].qualifiers.value, WP.Retrieved).None?
  {
    ClaimsBegin(photo, Claims.ExistingPhoto, retrievedAt, sts);
    SourceWithoutOriginal(photo, retrievedAt);
  }

  /** With an Original size, the source statement names its URL in both
   *  modes and carries the retrieval date exactly when one is given. */
  lemma OriginalSizeClaims(photo: Claims.SinglePhoto, mode: Claims.Mode, retrievedAt: Option<Timestamp>,
                           sts: seq<Statement>)
    requires Claims.OriginalSizes(photo.sizes) != []
    requires ClaimsFor(photo, mode, retrievedAt) == Ok(sts)
    ensures |sts| >= 3 && sts[2].qualifiers.Some? && sts[2].qualifiersOrder.Some?
    ensures Lookup(sts[2].qualifiers.value, WP.Url)
      == Some([ValueSnakOf(WP.Url, StringValue(Claims.OriginalSizes(photo.sizes)[0].source))])
    ensures WP.Retrieved in sts[2].qualifiersOrder.value <==> retrievedAt.Some?
  {
    ClaimsBegin(photo, mode, retrievedAt, sts);
    SourceWithOriginal(photo, mode, retrievedAt);
  }
}
