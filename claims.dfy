/** Assembling the structured data Flickypedia writes for a Flickr photo
 *  (src/flickypedia/structured_data/claims.py). The list of statements is
 *  grown step by step; a builder that raises ends the assembly with its
 *  exception. The BHL page-id statement comes from the corrected builder
 *  (see `Statements.CreateBhlPageIdStatement`). */
module Claims {
  import opened Wrappers
  import opened Dates
  import opened Sdc
  import opened Statements
  import WikidataValues
  import WP = WikidataProperties
  import WE = WikidataEntities

  /** One of the sizes Flickr offers for a photo. */
  datatype Size = Size(sizeLabel: string, source: string)

  /** The fields of a `SinglePhoto` the assembly reads. */
  datatype SinglePhoto = SinglePhoto(
    id: string,
    owner: FlickrUser,
    sizes: seq<Size>,
    url: string,
    licenseId: string,
    location: Option<NumericLocation>,
    dateTaken: Option<DateTaken>,
    datePosted: Timestamp,
    machineTags: MachineTags)

  /** Whether the photo is a new upload or already on Commons. */
  datatype Mode = NewPhoto | ExistingPhoto

  /** `[s for s in sizes if s["label"] == "Original"]`. */
  function OriginalSizes(sizes: seq<Size>): (r: seq<Size>)
    ensures forall s :: s in r <==> s in sizes && s.sizeLabel == "Original"
  {
    if sizes == [] then []
    else (if sizes[0].sizeLabel == "Original" then [sizes[0]] else []) + OriginalSizes(sizes[1..])
  }

  /** The first Original size is the first size labelled "Original". */
  lemma {:induction false} FirstOriginalSize(sizes: seq<Size>, i: nat)
    requires i < |sizes| && sizes[i].sizeLabel == "Original"
    requires forall j :: 0 <= j < i ==> sizes[j].sizeLabel != "Original"
    ensures OriginalSizes(sizes) != [] && OriginalSizes(sizes)[0] == sizes[i]
  {
    if i > 0 {
      FirstOriginalSize(sizes[1..], i - 1);
    }
  }

  /** The URL written as the original file: only for new photos, where a
   *  missing Original size is an IndexError. */
  function OriginalUrl(photo: SinglePhoto, mode: Mode): (r: Result<Option<string>>)
    ensures mode == ExistingPhoto ==> r == Ok(None)
    ensures mode == NewPhoto ==> (r.Err? <==> OriginalSizes(photo.sizes) == [])
    ensures r.Err? ==> r.error == IndexError
    ensures mode == NewPhoto && r.Ok? ==> r.value == Some(OriginalSizes(photo.sizes)[0].source)
  {
    if mode == ExistingPhoto then Ok(None)
    else if OriginalSizes(photo.sizes) == [] then Err(IndexError)
    else Ok(Some(OriginalSizes(photo.sizes)[0].source))
  }

  /** The main-snak properties of a list of statements, in order. */
  function MainProperties(sts: seq<Statement>): (ps: seq<string>)
    ensures |ps| == |sts| && forall i :: 0 <= i < |sts| ==> ps[i] == sts[i].mainsnak.property
  {
    if sts == [] then [] else [sts[0].mainsnak.property] + MainProperties(sts[1..])
  }

  lemma MainPropertiesAppend(a: seq<Statement>, b: seq<Statement>)
    ensures MainProperties(a + b) == MainProperties(a) + MainProperties(b)
  {
    var l, r := MainProperties(a + b), MainProperties(a) + MainProperties(b);
    assert |l| == |r|;
    forall i | 0 <= i < |l| ensures l[i] == r[i] {
      if i < |a| {
        assert (a + b)[i] == a[i];
      } else {
        assert (a + b)[i] == b[i - |a|];
      }
    }
  }

  /** The property each optional statement contributes when it is written. */
  function LicensingProperties(mode: Mode): seq<string> {
    if mode == NewPhoto then [WP.CopyrightLicense, WP.CopyrightStatus] else []
  }

  function LocationProperty(photo: SinglePhoto): seq<string> {
    if photo.location.Some? && !IsNullIsland(photo.location.value) then [WP.CoordinatesOfThePointOfView] else []
  }

  function DateTakenProperty(photo: SinglePhoto): seq<string> {
    if photo.dateTaken.Some? then [WP.Inception] else []
  }

  function BhlProperty(photo: SinglePhoto, bioDivLibrary: string): seq<string> {
    if photo.owner.id == bioDivLibrary && |BhlCandidates(photo.machineTags)| == 1 then [BhlPageIdProperty] else []
  }

  /** The license and copyright-status statements, written only for new
   *  photos. */
  function LicensingStatements(photo: SinglePhoto, mode: Mode): (r: Result<seq<Statement>>)
    ensures mode == ExistingPhoto ==> r == Ok([])
    ensures mode == NewPhoto ==> (r.Err? <==> WE.License(photo.licenseId).None?)
    ensures r.Err? ==> r.error == ValueError
    ensures mode == NewPhoto && r.Ok? ==>
      r.value == [CreateLicenseStatement(photo.licenseId).value, CreateCopyrightStatusStatement(photo.licenseId).value]
    ensures r.Ok? ==> MainProperties(r.value) == LicensingProperties(mode)
  {
    if mode == ExistingPhoto then Ok([])
    else
      LicenseAndStatusAgree(photo.licenseId);
      match CreateLicenseStatement(photo.licenseId)
      case Err(e) => Err(e)
      case Ok(license) =>
        var sts := [license, CreateCopyrightStatusStatement(photo.licenseId).value];
        assert MainProperties(sts) == [sts[0].mainsnak.property, sts[1].mainsnak.property];
        Ok(sts)
  }

  /** The location statement, if the builder gives one. */
  function LocationStatements(photo: SinglePhoto): (r: Result<seq<Statement>>)
    ensures r.Err? <==> CreateLocationStatement(photo.location).Err?
    ensures r.Err? ==> r.error == ValueError
    ensures r.Ok? ==> |r.value| <= 1
    ensures r.Ok? && r.value != [] ==> CreateLocationStatement(photo.location) == Ok(Some(r.value[0]))
    ensures r.Ok? && r.value == [] ==> CreateLocationStatement(photo.location) == Ok(None)
    ensures r.Ok? ==> MainProperties(r.value) == LocationProperty(photo)
  {
    var location :- CreateLocationStatement(photo.location);
    if location.Some? then
      assert MainProperties([location.value]) == [location.value.mainsnak.property];
      Ok([location.value])
    else Ok([])
  }

  /** The date-taken statement, when the date is known. */
  function DateTakenStatements(photo: SinglePhoto): (r: Result<seq<Statement>>)
    ensures photo.dateTaken.None? ==> r == Ok([])
    ensures r.Err? <==> photo.dateTaken.Some? && CreateDateTakenStatement(photo.dateTaken.value).Err?
    ensures r.Err? ==> r.error == ValueError
    ensures photo.dateTaken.Some? && r.Ok? ==> r.value == [CreateDateTakenStatement(photo.dateTaken.value).value]
    ensures r.Ok? ==> MainProperties(r.value) == DateTakenProperty(photo)
  {
    if photo.dateTaken.None? then Ok([])
    else
      var st :- CreateDateTakenStatement(photo.dateTaken.value);
      assert MainProperties([st]) == [st.mainsnak.property];
      Ok([st])
  }

  /** The BHL page-id statement, for photos of the BHL account only. */
  function BhlStatements(photo: SinglePhoto, bioDivLibrary: string): (r: seq<Statement>)
    ensures |r| <= 1
    ensures r != [] <==> photo.owner.id == bioDivLibrary && |BhlCandidates(photo.machineTags)| == 1
    ensures r != [] ==> Some(r[0]) == CreateBhlPageIdStatement(photo.id, photo.machineTags)
  {
    if photo.owner.id == bioDivLibrary then
      match CreateBhlPageIdStatement(photo.id, photo.machineTags)
      case None => []
      case Some(st) => [st]
    else []
  }

  /** The statements that always close the list: published in, then the
   *  BHL page for the BHL account's photos. */
  function TailStatements(photo: SinglePhoto, bioDivLibrary: string): (sts: seq<Statement>)
    ensures |sts| >= 1 && sts[0] == CreatePublishedInStatement(photo.datePosted)
    ensures MainProperties(sts) == [WP.PublishedIn] + BhlProperty(photo, bioDivLibrary)
  {
    var published := [CreatePublishedInStatement(photo.datePosted)];
    var bhl := BhlStatements(photo, bioDivLibrary);
    MainPropertiesAppend(published, bhl);
    assert bhl != [] ==> MainProperties(bhl) == [bhl[0].mainsnak.property];
    published + bhl
  }

  /** What `_create_sdc_claims_for_flickr_photo` returns or raises. The
   *  exceptions come in the order the builders run: the missing Original
   *  size, then the license, the location and the date taken. The id of
   *  the BHL account is a parameter (src/flickypedia/structured_data/
   *  flickr_users.py is not part of this model). Each stage below takes
   *  the statements gathered so far. */
  function ClaimsFor(photo: SinglePhoto, mode: Mode, retrievedAt: Option<Timestamp>, bioDivLibrary: string)
    : Result<seq<Statement>>
  {
    WithSource(photo, mode, retrievedAt,
      [CreateFlickrPhotoIdStatement(photo.id), CreateFlickrCreatorStatement(photo.owner)], bioDivLibrary)
  }

  function WithSource(photo: SinglePhoto, mode: Mode, retrievedAt: Option<Timestamp>, sts: seq<Statement>,
                      bioDivLibrary: string): Result<seq<Statement>>
  {
    match OriginalUrl(photo, mode)
    case Err(e) => Err(e)
    case Ok(originalUrl) =>
      WithLicensing(photo, mode, sts + [CreateSourceStatement(photo.id, photo.url, originalUrl, retrievedAt)], bioDivLibrary)
  }

  function WithLicensing(photo: SinglePhoto, mode: Mode, sts: seq<Statement>, bioDivLibrary: string)
    : Result<seq<Statement>>
  {
    match LicensingStatements(photo, mode)
    case Err(e) => Err(e)
    case Ok(licensing) => WithLocation(photo, sts + licensing, bioDivLibrary)
  }

  function WithLocation(photo: SinglePhoto, sts: seq<Statement>, bioDivLibrary: string): Result<seq<Statement>> {
    match LocationStatements(photo)
    case Err(e) => Err(e)
    case Ok(location) => WithDateTaken(photo, sts + location, bioDivLibrary)
  }

  function WithDateTaken(photo: SinglePhoto, sts: seq<Statement>, bioDivLibrary: string): Result<seq<Statement>> {
    match DateTakenStatements(photo)
    case Err(e) => Err(e)
    case Ok(dateTaken) => Ok(sts + dateTaken + TailStatements(photo, bioDivLibrary))
  }

  /** The end of `_create_sdc_claims_for_flickr_photo`: the published-in
   *  statement, then the BHL page for the BHL account's photos. */
  method AppendTail(photo: SinglePhoto, statements: seq<Statement>, bioDivLibrary: string)
    returns (sts: seq<Statement>)
    ensures sts == statements + TailStatements(photo, bioDivLibrary)
  {
    sts := statements + [CreatePublishedInStatement(photo.datePosted)];
    if photo.owner.id == bioDivLibrary {
      var bhlPageIdStatement := CreateBhlPageIdStatement(photo.id, photo.machineTags);
      if bhlPageIdStatement.Some? {
        sts := sts + [bhlPageIdStatement.value];
      }
    }
  }

  /** The part of `_create_sdc_claims_for_flickr_photo` after the source
   *  statement: the licensing statements of a new photo, then the rest. */
  method AppendLicensingOnwards(photo: SinglePhoto, mode: Mode, statements: seq<Statement>, bioDivLibrary: string)
    returns (r: Result<seq<Statement>>)
    ensures r == WithLicensing(photo, mode, statements, bioDivLibrary)
  {
    var sts := statements;
    if mode == NewPhoto {
      var license := CreateLicenseStatement(photo.licenseId);
      if license.Err? {
        return Err(license.error);
      }
      LicenseAndStatusAgree(photo.licenseId);
      var copyright := CreateCopyrightStatusStatement(photo.licenseId);
      sts := sts + [license.value, copyright.value];
    } else {
      assert sts + [] == sts;
    }
    r := AppendLocationOnwards(photo, sts, bioDivLibrary);
  }

  /** The rest of `_create_sdc_claims_for_flickr_photo` once the
   *  licensing statements are in: location, date taken and the tail. */
  method AppendLocationOnwards(photo: SinglePhoto, statements: seq<Statement>, bioDivLibrary: string)
    returns (r: Result<seq<Statement>>)
    ensures r == WithLocation(photo, statements, bioDivLibrary)
  {
    var sts := statements;
    var location := CreateLocationStatement(photo.location);
    if location.Err? {
      return Err(location.error);
    }
    if location.value.Some? {
      sts := sts + [location.value.value];
    } else {
      assert sts + [] == sts;
    }
    assert WithLocation(photo, statements, bioDivLibrary) == WithDateTaken(photo, sts, bioDivLibrary);
    if photo.dateTaken.Some? {
      var dateTaken := CreateDateTakenStatement(photo.dateTaken.value);
      if dateTaken.Err? {
        return Err(dateTaken.error);
      }
      sts := sts + [dateTaken.value];
    } else {
      assert sts + [] == sts;
    }
    sts := AppendTail(photo, sts, bioDivLibrary);
    return Ok(sts);
  }

  /** The part of `_create_sdc_claims_for_flickr_photo` from the source
   *  statement on. */
  method AppendSourceOnwards(photo: SinglePhoto, mode: Mode, retrievedAt: Option<Timestamp>,
                             statements: seq<Statement>, bioDivLibrary: string)
    returns (r: Result<seq<Statement>>)
    ensures r == WithSource(photo, mode, retrievedAt, statements, bioDivLibrary)
  {
    var originalUrl: Option<string> := None;
    if mode == NewPhoto {
      var originals := OriginalSizes(photo.sizes);
      if originals == [] {
        return Err(IndexError);
      }
      originalUrl := Some(originals[0].source);
    }
    var sts := statements + [CreateSourceStatement(photo.id, photo.url, originalUrl, retrievedAt)];
    r := AppendLicensingOnwards(photo, mode, sts, bioDivLibrary);
  }

  /** `_create_sdc_claims_for_flickr_photo`. */
  method CreateSdcClaimsForFlickrPhoto(photo: SinglePhoto, mode: Mode, retrievedAt: Option<Timestamp>,
                                       bioDivLibrary: string)
    returns (r: Result<seq<Statement>>)
    ensures r == ClaimsFor(photo, mode, retrievedAt, bioDivLibrary)
  {
    var statements := [CreateFlickrPhotoIdStatement(photo.id), CreateFlickrCreatorStatement(photo.owner)];
    r := AppendSourceOnwards(photo, mode, retrievedAt, statements, bioDivLibrary);
  }

  /** `create_sdc_claims_for_new_flickr_photo`. */
  method CreateSdcClaimsForNewFlickrPhoto(photo: SinglePhoto, retrievedAt: Timestamp, bioDivLibrary: string)
    returns (r: Result<seq<Statement>>)
    ensures r == ClaimsFor(photo, NewPhoto, Some(retrievedAt), bioDivLibrary)
  {
    r := CreateSdcClaimsForFlickrPhoto(photo, NewPhoto, Some(retrievedAt), bioDivLibrary);
  }

  /** `create_sdc_claims_for_existing_flickr_photo`: no retrieval date. */
  method CreateSdcClaimsForExistingFlickrPhoto(photo: SinglePhoto, bioDivLibrary: string)
    returns (r: Result<seq<Statement>>)
    ensures r == ClaimsFor(photo, ExistingPhoto, None, bioDivLibrary)
  {
    r := CreateSdcClaimsForFlickrPhoto(photo, ExistingPhoto, None, bioDivLibrary);
  }

  // ---------------------------------------------------------------------
  // What the assembly promises
  // ---------------------------------------------------------------------

  /** Three lists joined: the first is a prefix, the last a suffix, and the
   *  main properties join likewise. */
  lemma Join3(a: seq<Statement>, b: seq<Statement>, c: seq<Statement>)
    ensures (a + b + c)[..|a|] == a && (a + b + c)[|a| + |b|..] == c
    ensures MainProperties(a + b + c) == MainProperties(a) + (MainProperties(b) + MainProperties(c))
  {
    assert a + b + c == a + (b + c);
    MainPropertiesAppend(a, b + c);
    MainPropertiesAppend(b, c);
  }

  lemma MainPropertiesPair(a: Statement, b: Statement)
    ensures MainProperties([a, b]) == [a.mainsnak.property, b.mainsnak.property]
  {
    assert [a, b][1..] == [b];
  }

  /** The main properties each stage contributes, from that stage to the
   *  end of the list. */
  function DateTakenOnwards(photo: SinglePhoto, bioDivLibrary: string): seq<string> {
    DateTakenProperty(photo) + ([WP.PublishedIn] + BhlProperty(photo, bioDivLibrary))
  }

  function LocationOnwards(photo: SinglePhoto, bioDivLibrary: string): seq<string> {
    LocationProperty(photo) + DateTakenOnwards(photo, bioDivLibrary)
  }

  function LicensingOnwards(photo: SinglePhoto, mode: Mode, bioDivLibrary: string): seq<string> {
    LicensingProperties(mode) + LocationOnwards(photo, bioDivLibrary)
  }

  /** The last stage keeps what was gathered and appends the date taken,
   *  published in and the BHL page. */
  lemma DateTakenStage(photo: SinglePhoto, sts: seq<Statement>, bioDivLibrary: string, out: seq<Statement>)
    requires WithDateTaken(photo, sts, bioDivLibrary) == Ok(out)
    ensures |out| >= |sts| + 1 && out[..|sts|] == sts
    ensures MainProperties(out) == MainProperties(sts) + DateTakenOnwards(photo, bioDivLibrary)
    ensures out[|out| - |BhlProperty(photo, bioDivLibrary)| - 1] == CreatePublishedInStatement(photo.datePosted)
  {
    var dateTaken := DateTakenStatements(photo).value;
    var tail := TailStatements(photo, bioDivLibrary);
    var tailProps := [WP.PublishedIn] + BhlProperty(photo, bioDivLibrary);
    assert out == sts + dateTaken + tail;
    assert MainProperties(dateTaken) == DateTakenProperty(photo) && MainProperties(tail) == tailProps;
    StageEnd(sts, dateTaken, tail, out, DateTakenProperty(photo), tailProps, CreatePublishedInStatement(photo.datePosted));
    assert |tailProps| - 1 == |BhlProperty(photo, bioDivLibrary)|;
  }

  /** A list made of what was gathered, one more part and a tail starting
   *  with `first` keeps the gathered prefix, lists the properties in order
   *  and holds `first` where the tail starts. */
  lemma StageEnd(sts: seq<Statement>, part: seq<Statement>, tail: seq<Statement>, out: seq<Statement>,
                 partProps: seq<string>, tailProps: seq<string>, first: Statement)
    requires out == sts + part + tail
    requires MainProperties(part) == partProps && MainProperties(tail) == tailProps
    requires |tail| >= 1 && tail[0] == first
    ensures |out| >= |sts| + 1 && out[..|sts|] == sts
    ensures MainProperties(out) == MainProperties(sts) + (partProps + tailProps)
    ensures out[|out| - (|tailProps| - 1) - 1] == first
  {
    Join3(sts, part, tail);
  }

  lemma LocationStage(photo: SinglePhoto, sts: seq<Statement>, bioDivLibrary: string, out: seq<Statement>)
    requires WithLocation(photo, sts, bioDivLibrary) == Ok(out)
    ensures |out| >= |sts| + 1 && out[..|sts|] == sts
    ensures MainProperties(out) == MainProperties(sts) + LocationOnwards(photo, bioDivLibrary)
    ensures out[|out| - |BhlProperty(photo, bioDivLibrary)| - 1] == CreatePublishedInStatement(photo.datePosted)
  {
    var location := LocationStatements(photo).value;
    DateTakenStage(photo, sts + location, bioDivLibrary, out);
    StageStep(out, sts, location, LocationProperty(photo), DateTakenOnwards(photo, bioDivLibrary), 1);
  }

  /** What holds of the list built on `sts + part` holds of the list built
   *  on `sts`, with the part's properties in front of the rest. */
  lemma StageStep(out: seq<Statement>, sts: seq<Statement>, part: seq<Statement>, partProps: seq<string>,
                  rest: seq<string>, extra: nat)
    requires |out| >= |sts + part| + extra && out[..|sts + part|] == sts + part
    requires MainProperties(part) == partProps
    requires MainProperties(out) == MainProperties(sts + part) + rest
    ensures |out| >= |sts| + |part| + extra && out[..|sts|] == sts
    ensures MainProperties(out) == MainProperties(sts) + (partProps + rest)
  {
    assert out[..|sts|] == sts by {
      assert out[..|sts|] == (out[..|sts + part|])[..|sts|];
    }
    assert MainProperties(out) == MainProperties(sts) + (partProps + rest) by {
      MainPropertiesAppend(sts, part);
      assert MainProperties(sts) + partProps + rest == MainProperties(sts) + (partProps + rest);
    }
  }

  lemma LicensingStage(photo: SinglePhoto, mode: Mode, sts: seq<Statement>, bioDivLibrary: string, out: seq<Statement>)
    requires WithLicensing(photo, mode, sts, bioDivLibrary) == Ok(out)
    ensures |out| >= |sts| + 1 && out[..|sts|] == sts
    ensures MainProperties(out) == MainProperties(sts) + LicensingOnwards(photo, mode, bioDivLibrary)
    ensures out[|out| - |BhlProperty(photo, bioDivLibrary)| - 1] == CreatePublishedInStatement(photo.datePosted)
  {
    var licensing := LicensingStatements(photo, mode).value;
    LocationStage(photo, sts + licensing, bioDivLibrary, out);
    StageStep(out, sts, licensing, LicensingProperties(mode), LocationOnwards(photo, bioDivLibrary), 1);
  }

  /** The source stage adds the source statement after what was gathered. */
  lemma SourceStage(photo: SinglePhoto, mode: Mode, retrievedAt: Option<Timestamp>, sts: seq<Statement>,
                    bioDivLibrary: string, out: seq<Statement>)
    requires WithSource(photo, mode, retrievedAt, sts, bioDivLibrary) == Ok(out)
    ensures |out| >= |sts| + 2 && out[..|sts|] == sts
    ensures out[|sts|] == CreateSourceStatement(photo.id, photo.url, OriginalUrl(photo, mode).value, retrievedAt)
    ensures MainProperties(out) == MainProperties(sts) + ([WP.SourceOfFile] + LicensingOnwards(photo, mode, bioDivLibrary))
    ensures out[|out| - |BhlProperty(photo, bioDivLibrary)| - 1] == CreatePublishedInStatement(photo.datePosted)
  {
    var source := [CreateSourceStatement(photo.id, photo.url, OriginalUrl(photo, mode).value, retrievedAt)];
    LicensingStage(photo, mode, sts + source, bioDivLibrary, out);
    assert MainProperties(source) == [WP.SourceOfFile];
    StageStep(out, sts, source, [WP.SourceOfFile], LicensingOnwards(photo, mode, bioDivLibrary), 1);
    assert out[|sts|] == out[..|sts + source|][|sts|];
  }

  /** The properties in the order the stages write them. */
  lemma PropertiesInOrder(photo: SinglePhoto, mode: Mode, bioDivLibrary: string)
    ensures [WP.FlickrPhotoId, WP.Creator] + ([WP.SourceOfFile] + LicensingOnwards(photo, mode, bioDivLibrary))
      == [WP.FlickrPhotoId, WP.Creator, WP.SourceOfFile] + LicensingProperties(mode) + LocationProperty(photo)
         + DateTakenProperty(photo) + [WP.PublishedIn] + BhlProperty(photo, bioDivLibrary)
  {
  }

  /** The properties of the statements written, in order: photo id,
   *  creator and source; license and copyright status for a new photo;
   *  the location and the date taken when known; published in, always;
   *  the BHL page for the BHL account's photos. */
  lemma ClaimsProperties(photo: SinglePhoto, mode: Mode, retrievedAt: Option<Timestamp>, bioDivLibrary: string,
                         sts: seq<Statement>)
    requires ClaimsFor(photo, mode, retrievedAt, bioDivLibrary) == Ok(sts)
    ensures MainProperties(sts)
      == [WP.FlickrPhotoId, WP.Creator, WP.SourceOfFile] + LicensingProperties(mode) + LocationProperty(photo)
         + DateTakenProperty(photo) + [WP.PublishedIn] + BhlProperty(photo, bioDivLibrary)
    ensures |sts| > |BhlProperty(photo, bioDivLibrary)|
      && sts[|sts| - |BhlProperty(photo, bioDivLibrary)| - 1] == CreatePublishedInStatement(photo.datePosted)
  {
    var head := [CreateFlickrPhotoIdStatement(photo.id), CreateFlickrCreatorStatement(photo.owner)];
    SourceStage(photo, mode, retrievedAt, head, bioDivLibrary, sts);
    MainPropertiesPair(head[0], head[1]);
    PropertiesInOrder(photo, mode, bioDivLibrary);
  }

  /** The statements begin with the photo id, the creator and the source
   *  statement. */
  lemma ClaimsBegin(photo: SinglePhoto, mode: Mode, retrievedAt: Option<Timestamp>, bioDivLibrary: string,
                    sts: seq<Statement>)
    requires ClaimsFor(photo, mode, retrievedAt, bioDivLibrary) == Ok(sts)
    ensures |sts| >= 4
    ensures sts[0] == CreateFlickrPhotoIdStatement(photo.id) && sts[1] == CreateFlickrCreatorStatement(photo.owner)
    ensures sts[2] == CreateSourceStatement(photo.id, photo.url, OriginalUrl(photo, mode).value, retrievedAt)
  {
    var head := [CreateFlickrPhotoIdStatement(photo.id), CreateFlickrCreatorStatement(photo.owner)];
    SourceStage(photo, mode, retrievedAt, head, bioDivLibrary, sts);
    assert sts[0] == sts[..2][0] && sts[1] == sts[..2][1];
  }

  /** The assembly fails exactly when a builder it calls raises: a new
   *  photo without an Original size (IndexError), a new photo under an
   *  unknown license, an unknown location accuracy, or an unknown
   *  date-taken granularity (ValueError). */
  lemma ClaimsFailures(photo: SinglePhoto, mode: Mode, retrievedAt: Option<Timestamp>, bioDivLibrary: string)
    ensures var r := ClaimsFor(photo, mode, retrievedAt, bioDivLibrary);
      && (r.Err? <==>
           || (mode == NewPhoto && OriginalSizes(photo.sizes) == [])
           || (mode == NewPhoto && WE.License(photo.licenseId).None?)
           || CreateLocationStatement(photo.location).Err?
           || (photo.dateTaken.Some? && CreateDateTakenStatement(photo.dateTaken.value).Err?))
  {
  }

  /** A failure is an IndexError exactly when a new photo has no Original
   *  size, and a ValueError otherwise. */
  lemma ClaimsFailureKinds(photo: SinglePhoto, mode: Mode, retrievedAt: Option<Timestamp>, bioDivLibrary: string)
    ensures var r := ClaimsFor(photo, mode, retrievedAt, bioDivLibrary);
      && (r.Err? ==> (r.error == IndexError <==> mode == NewPhoto && OriginalSizes(photo.sizes) == []))
      && (r.Err? && r.error != IndexError ==> r.error == ValueError)
  {
    var head := [CreateFlickrPhotoIdStatement(photo.id), CreateFlickrCreatorStatement(photo.owner)];
    var url := OriginalUrl(photo, mode);
    if url.Ok? {
      LicensingStageError(photo, mode, head + [CreateSourceStatement(photo.id, photo.url, url.value, retrievedAt)],
        bioDivLibrary);
    }
  }

  /** The stages after the source statement fail only with a ValueError. */
  lemma LicensingStageError(photo: SinglePhoto, mode: Mode, sts: seq<Statement>, bioDivLibrary: string)
    ensures WithLicensing(photo, mode, sts, bioDivLibrary).Err? ==>
      WithLicensing(photo, mode, sts, bioDivLibrary).error == ValueError
  {
    var licensing := LicensingStatements(photo, mode);
    if licensing.Ok? {
      LocationStageError(photo, sts + licensing.value, bioDivLibrary);
    }
  }

  lemma LocationStageError(photo: SinglePhoto, sts: seq<Statement>, bioDivLibrary: string)
    ensures WithLocation(photo, sts, bioDivLibrary).Err? ==> WithLocation(photo, sts, bioDivLibrary).error == ValueError
  {
  }

  /** A new photo's source statement names its Original size as the
   *  original file and carries the retrieval date. */
  lemma NewPhotoSource(photo: SinglePhoto, retrievedAt: Timestamp, bioDivLibrary: string, sts: seq<Statement>)
    requires ClaimsFor(photo, NewPhoto, Some(retrievedAt), bioDivLibrary) == Ok(sts)
    ensures |sts| >= 3 && sts[2].qualifiers.Some?
    ensures Lookup(sts[2].qualifiers.value, WP.Url)
      == Some([ValueSnakOf(WP.Url, StringValue(OriginalSizes(photo.sizes)[0].source))])
    ensures Lookup(sts[2].qualifiers.value, WP.Retrieved)
      == Some([ValueSnakOf(WP.Retrieved, WikidataValues.ToWikidataDateValue(retrievedAt, WikidataValues.DayPrecision))])
  {
    ClaimsBegin(photo, NewPhoto, Some(retrievedAt), bioDivLibrary, sts);
  }

  /** A photo already on Commons gets a source statement with neither the
   *  original file's URL nor a retrieval date, and no license or
   *  copyright-status statement. */
  lemma ExistingPhotoClaims(photo: SinglePhoto, bioDivLibrary: string, sts: seq<Statement>)
    requires ClaimsFor(photo, ExistingPhoto, None, bioDivLibrary) == Ok(sts)
    ensures |sts| >= 3 && sts[2].qualifiers.Some?
    ensures Lookup(sts[2].qualifiers.value, WP.Url).None? && Lookup(sts[2].qualifiers.value, WP.Retrieved).None?
    ensures WP.CopyrightLicense !in MainProperties(sts) && WP.CopyrightStatus !in MainProperties(sts)
  {
    ClaimsBegin(photo, ExistingPhoto, None, bioDivLibrary, sts);
    SourceOrderShape(None, None);
    ClaimsProperties(photo, ExistingPhoto, None, bioDivLibrary, sts);
    NoLicensingProperties(photo, bioDivLibrary);
  }

  /** None of the properties written for a photo already on Commons is a
   *  licensing one. */
  lemma NoLicensingProperties(photo: SinglePhoto, bioDivLibrary: string)
    ensures var ps := [WP.FlickrPhotoId, WP.Creator, WP.SourceOfFile] + LicensingProperties(ExistingPhoto)
      + LocationProperty(photo) + DateTakenProperty(photo) + [WP.PublishedIn] + BhlProperty(photo, bioDivLibrary);
      WP.CopyrightLicense !in ps && WP.CopyrightStatus !in ps
  {
    var ps := [WP.FlickrPhotoId, WP.Creator, WP.SourceOfFile] + LicensingProperties(ExistingPhoto)
      + LocationProperty(photo) + DateTakenProperty(photo) + [WP.PublishedIn] + BhlProperty(photo, bioDivLibrary);
    var written := {WP.FlickrPhotoId, WP.Creator, WP.SourceOfFile, WP.CoordinatesOfThePointOfView, WP.Inception,
                    WP.PublishedIn, BhlPageIdProperty};
    assert forall p :: p in ps ==> p in written;
    assert WP.CopyrightLicense[1..] !in {WP.FlickrPhotoId[1..], WP.Creator[1..], WP.SourceOfFile[1..],
      WP.CoordinatesOfThePointOfView[1..], WP.Inception[1..], WP.PublishedIn[1..], BhlPageIdProperty[1..]};
  }

  // ---------------------------------------------------------------------
  // The assembly as written

  /** The BHL step as src/flickypedia/structured_data/claims.py:103-109
   *  runs it: `create_bhl_page_id_statement` reads a property the
   *  property table does not define, so it raises AttributeError exactly
   *  where it would have built a statement. */
  function BhlStepAsWritten(photo: SinglePhoto, bioDivLibrary: string): (r: Result<seq<Statement>>)
    ensures r.Err? <==> photo.owner.id == bioDivLibrary && |BhlCandidates(photo.machineTags)| == 1
    ensures r.Err? ==> r.error == AttributeError
    ensures r.Ok? ==> r.value == []
  {
    if photo.owner.id == bioDivLibrary then
      match CreateBhlPageIdStatementAsWritten(photo.id, photo.machineTags)
      case Err(e) => Err(e)
      case Ok(None) => Ok([])
      case Ok(Some(st)) => Ok([st])
    else Ok([])
  }

  /** `_create_sdc_claims_for_flickr_photo` as written. The BHL step runs
   *  last, so its AttributeError comes only after every other stage has
   *  succeeded; where it does not raise, the corrected builder adds no
   *  statement either, and the claims are those of `ClaimsFor`. */
  function ClaimsForAsWritten(photo: SinglePhoto, mode: Mode, retrievedAt: Option<Timestamp>, bioDivLibrary: string)
    : (r: Result<seq<Statement>>)
    ensures r.Ok? ==> r == ClaimsFor(photo, mode, retrievedAt, bioDivLibrary)
    ensures r.Err? ==> r == ClaimsFor(photo, mode, retrievedAt, bioDivLibrary) || r.error == AttributeError
  {
    match ClaimsFor(photo, mode, retrievedAt, bioDivLibrary)
    case Err(e) => Err(e)
    case Ok(sts) =>
      match BhlStepAsWritten(photo, bioDivLibrary)
      case Err(e) => Err(e)
      case Ok(_) => Ok(sts)
  }

  /** As written, the claims fail where the corrected assembly fails and,
   *  besides, for a photo of the BHL account tagged with exactly one page
   *  id, which raises AttributeError when nothing earlier raises. */
  lemma ClaimsAsWrittenFailures(photo: SinglePhoto, mode: Mode, retrievedAt: Option<Timestamp>, bioDivLibrary: string)
    ensures var r := ClaimsForAsWritten(photo, mode, retrievedAt, bioDivLibrary);
      var c := ClaimsFor(photo, mode, retrievedAt, bioDivLibrary);
      var bhl := photo.owner.id == bioDivLibrary && |BhlCandidates(photo.machineTags)| == 1;
      && (r.Err? <==> c.Err? || bhl)
      && (c.Err? ==> r == c)
      && (c.Ok? && bhl ==> r == Err(AttributeError))
  {
  }

  /** Everywhere else the assembly as written and the corrected one
   *  agree, and neither writes a BHL page statement. */
  lemma ClaimsAsWrittenAgrees(photo: SinglePhoto, mode: Mode, retrievedAt: Option<Timestamp>, bioDivLibrary: string)
    requires !(photo.owner.id == bioDivLibrary && |BhlCandidates(photo.machineTags)| == 1)
    ensures ClaimsForAsWritten(photo, mode, retrievedAt, bioDivLibrary) == ClaimsFor(photo, mode, retrievedAt, bioDivLibrary)
    ensures BhlStatements(photo, bioDivLibrary) == []
  {
  }
}
