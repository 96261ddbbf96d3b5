/** Working with collections of Flickr photos (src/flickypedia/photos.py):
 *  picking a size, sorting photos into what may be uploaded, and pairing
 *  photos with their structured data. */
module Photos {
  import opened Wrappers
  import Claims

  // ---------------------------------------------------------------------
  // size_at
  // ---------------------------------------------------------------------

  /** The entry for `label` in `{s["label"]: s for s in sizes}`: the last
   *  size with that label, since a later entry overwrites an earlier one. */
  function LastLabelled(sizes: seq<Claims.Size>, wanted: string): (r: Option<Claims.Size>)
    ensures r.None? <==> forall i :: 0 <= i < |sizes| ==> sizes[i].sizeLabel != wanted
    ensures r.Some? ==> exists i :: (&& 0 <= i < |sizes| && sizes[i] == r.value && r.value.sizeLabel == wanted
                                     && forall j :: i < j < |sizes| ==> sizes[j].sizeLabel != wanted)
  {
    if sizes == [] then None
    else if sizes[|sizes| - 1].sizeLabel == wanted then Some(sizes[|sizes| - 1])
    else LastLabelled(sizes[..|sizes| - 1], wanted)
  }

  /** `size_at`: the size with the desired label, else the Original size,
   *  else a KeyError. */
  function SizeAt(sizes: seq<Claims.Size>, desiredSize: string): (r: Result<Claims.Size>)
    ensures r.Err? <==> (forall i :: 0 <= i < |sizes| ==> sizes[i].sizeLabel != desiredSize && sizes[i].sizeLabel != "Original")
    ensures r.Err? ==> r.error == KeyError
    ensures r.Ok? ==> r.value in sizes
    ensures (exists i :: 0 <= i < |sizes| && sizes[i].sizeLabel == desiredSize) ==> r.Ok? && r.value.sizeLabel == desiredSize
    ensures (forall i :: 0 <= i < |sizes| ==> sizes[i].sizeLabel != desiredSize) && r.Ok? ==> r.value.sizeLabel == "Original"
  {
    match LastLabelled(sizes, desiredSize)
    case Some(s) => Ok(s)
    case None =>
      match LastLabelled(sizes, "Original")
      case Some(s) => Ok(s)
      case None => Err(KeyError)
  }

  // ---------------------------------------------------------------------
  // categorise_photos
  // ---------------------------------------------------------------------

  /** The fields of a photo that `categorise_photos` reads; the rest of the
   *  photo travels with it unread. */
  datatype Listed = Listed(id: string, licenseId: string, licenseLabel: string, safetyLevel: string)

  datatype Categorised = Categorised(
    duplicates: map<string, string>,
    disallowedLicenses: map<string, string>,
    restricted: set<string>,
    available: seq<Listed>)

  /** A photo not on Commons whose license Commons does not accept. */
  predicate HasDisallowedLicense(p: Listed, duplicates: map<string, string>, allowed: set<string>) {
    p.licenseId !in allowed && p.id !in duplicates
  }

  /** `disallowed_licenses`, built in input order so that a later photo
   *  with the same id overwrites an earlier one. */
  function DisallowedLicenses(photos: seq<Listed>, duplicates: map<string, string>, allowed: set<string>)
    : (m: map<string, string>)
    ensures m.Keys <= IdSet(photos)
  {
    if photos == [] then map[]
    else
      var init := photos[..|photos| - 1];
      var last := photos[|photos| - 1];
      var m := DisallowedLicenses(init, duplicates, allowed);
      assert IdSet(init) <= IdSet(photos) by {
        forall p | p in init ensures p in photos { }
      }
      if HasDisallowedLicense(last, duplicates, allowed) then m[last.id := last.licenseLabel] else m
  }

  /** A photo's id is among the disallowed licenses iff some photo with
   *  that id is not on Commons and has a license Commons refuses. */
  lemma {:induction false} DisallowedKeys(photos: seq<Listed>, duplicates: map<string, string>, allowed: set<string>, id: string)
    ensures id in DisallowedLicenses(photos, duplicates, allowed) <==>
      exists i :: 0 <= i < |photos| && photos[i].id == id && HasDisallowedLicense(photos[i], duplicates, allowed)
  {
    if photos != [] {
      var init := photos[..|photos| - 1];
      DisallowedKeys(init, duplicates, allowed, id);
      if exists i :: 0 <= i < |photos| && photos[i].id == id && HasDisallowedLicense(photos[i], duplicates, allowed) {
        var i :| 0 <= i < |photos| && photos[i].id == id && HasDisallowedLicense(photos[i], duplicates, allowed);
        if i < |init| {
          assert init[i] == photos[i];
        }
      }
    }
  }

  /** The license label recorded for an id is that of the last photo with
   *  the id. */
  lemma {:induction false} DisallowedLabel(photos: seq<Listed>, duplicates: map<string, string>, allowed: set<string>, i: nat)
    requires i < |photos| && HasDisallowedLicense(photos[i], duplicates, allowed)
    requires forall j :: i < j < |photos| ==> photos[j].id != photos[i].id
    ensures photos[i].id in DisallowedLicenses(photos, duplicates, allowed)
    ensures DisallowedLicenses(photos, duplicates, allowed)[photos[i].id] == photos[i].licenseLabel
  {
    if i < |photos| - 1 {
      var init := photos[..|photos| - 1];
      assert init[i] == photos[i];
      DisallowedLabel(init, duplicates, allowed, i);
    }
  }

  /** `restricted_photos`. */
  function RestrictedPhotos(photos: seq<Listed>, duplicates: map<string, string>, disallowed: map<string, string>)
    : set<string>
  {
    set p | p in photos && p.id !in duplicates && p.id !in disallowed && p.safetyLevel != "safe" :: p.id
  }

  /** A photo that goes in none of the other three categories. */
  predicate IsAvailable(p: Listed, duplicates: map<string, string>, disallowed: map<string, string>, restricted: set<string>) {
    p.id !in duplicates && p.id !in disallowed && p.id !in restricted
  }

  /** `available_photos`: the input order is kept. */
  function AvailablePhotos(photos: seq<Listed>, duplicates: map<string, string>, disallowed: map<string, string>,
                           restricted: set<string>): (r: seq<Listed>)
    ensures forall p :: p in r <==> p in photos && IsAvailable(p, duplicates, disallowed, restricted)
    ensures |r| <= |photos|
  {
    if photos == [] then []
    else
      var rest := AvailablePhotos(photos[..|photos| - 1], duplicates, disallowed, restricted);
      assert photos == photos[..|photos| - 1] + [photos[|photos| - 1]];
      if IsAvailable(photos[|photos| - 1], duplicates, disallowed, restricted)
      then rest + [photos[|photos| - 1]] else rest
  }

  function IdSet(photos: seq<Listed>): set<string> {
    set p | p in photos :: p.id
  }

  predicate DistinctIds(photos: seq<Listed>) {
    forall i, j :: 0 <= i < j < |photos| ==> photos[i].id != photos[j].id
  }

  /** `categorise_photos`, given what `find_duplicates` returned for the
   *  photos' ids and the licenses Commons accepts; the closing assertion
   *  fails when the four categories do not add up to the input. */
  function CategorisePhotos(photos: seq<Listed>, duplicates: map<string, string>, allowed: set<string>)
    : (r: Result<Categorised>)
    ensures r.Err? ==> r.error == AssertionError
    ensures r.Ok? ==>
      r.value.duplicates == duplicates && |duplicates| + |r.value.disallowedLicenses| + |r.value.available| + |r.value.restricted| == |photos|
  {
    var disallowed := DisallowedLicenses(photos, duplicates, allowed);
    var restricted := RestrictedPhotos(photos, duplicates, disallowed);
    var available := AvailablePhotos(photos, duplicates, disallowed, restricted);
    if |duplicates| + |disallowed| + |available| + |restricted| == |photos|
    then Ok(Categorised(duplicates, disallowed, restricted, available))
    else Err(AssertionError)
  }

  /** The four categories of a successful result are disjoint and every
   *  photo is in one of them: on Commons already, under a disallowed
   *  license, not safe, or available. */
  lemma CategoriesPartition(photos: seq<Listed>, duplicates: map<string, string>, allowed: set<string>)
    requires CategorisePhotos(photos, duplicates, allowed).Ok?
    ensures var c := CategorisePhotos(photos, duplicates, allowed).value;
      && c.duplicates.Keys !! c.disallowedLicenses.Keys
      && c.duplicates.Keys !! c.restricted && c.disallowedLicenses.Keys !! c.restricted
      && (forall p :: p in c.available ==> p.id !in c.duplicates && p.id !in c.disallowedLicenses && p.id !in c.restricted)
      && (forall p :: p in photos ==> p.id in c.duplicates || p.id in c.disallowedLicenses || p.id in c.restricted || p in c.available)
  {
    var c := CategorisePhotos(photos, duplicates, allowed).value;
    forall id | id in c.disallowedLicenses ensures id !in c.duplicates {
      DisallowedKeys(photos, duplicates, allowed, id);
    }
  }

  /** Which category a photo with a unique id lands in is decided by the
   *  photo alone, in this order of precedence. */
  lemma CategoryOfPhoto(photos: seq<Listed>, duplicates: map<string, string>, allowed: set<string>, i: nat)
    requires DistinctIds(photos) && i < |photos|
    ensures var p := photos[i];
      var disallowed := DisallowedLicenses(photos, duplicates, allowed);
      var restricted := RestrictedPhotos(photos, duplicates, disallowed);
      var available := AvailablePhotos(photos, duplicates, disallowed, restricted);
      && (p.id in disallowed <==> p.id !in duplicates && p.licenseId !in allowed)
      && (p.id in disallowed ==> disallowed[p.id] == p.licenseLabel)
      && (p.id in restricted <==> p.id !in duplicates && p.licenseId in allowed && p.safetyLevel != "safe")
      && (p in available <==> p.id !in duplicates && p.licenseId in allowed && p.safetyLevel == "safe")
  {
    var p := photos[i];
    var disallowed := DisallowedLicenses(photos, duplicates, allowed);
    var restricted := RestrictedPhotos(photos, duplicates, disallowed);
    DisallowedKeys(photos, duplicates, allowed, p.id);
    if p.id in disallowed {
      var k :| 0 <= k < |photos| && photos[k].id == p.id && HasDisallowedLicense(photos[k], duplicates, allowed);
      assert k == i;
      DisallowedLabel(photos, duplicates, allowed, i);
    }
    if p.id in restricted {
      var q :| q in photos && q.id == p.id && q.id !in duplicates && q.id !in disallowed && q.safetyLevel != "safe";
      var k :| 0 <= k < |photos| && photos[k] == q;
      assert k == i;
    }
    if p.safetyLevel != "safe" && p.id !in duplicates && p.id !in disallowed {
      assert p in photos;
    }
  }

  /** With distinct ids, all asked for, the number of distinct ids is the
   *  number of photos. */
  lemma {:induction false} DistinctIdCount(photos: seq<Listed>)
    requires DistinctIds(photos)
    ensures |IdSet(photos)| == |photos|
  {
    if photos != [] {
      var init := photos[..|photos| - 1];
      var last := photos[|photos| - 1];
      assert photos == init + [last];
      DistinctIdCount(init);
      assert IdSet(photos) == IdSet(init) + {last.id};
      assert last.id !in IdSet(init) by {
        forall p | p in init ensures p.id != last.id {
          var k :| 0 <= k < |init| && init[k] == p;
        }
      }
    }
  }

  /** Filtering keeps ids distinct. */
  lemma {:induction false} AvailableDistinct(photos: seq<Listed>, duplicates: map<string, string>,
                                             disallowed: map<string, string>, restricted: set<string>)
    requires DistinctIds(photos)
    ensures DistinctIds(AvailablePhotos(photos, duplicates, disallowed, restricted))
  {
    if photos != [] {
      var init := photos[..|photos| - 1];
      var last := photos[|photos| - 1];
      AvailableDistinct(init, duplicates, disallowed, restricted);
      var rest := AvailablePhotos(init, duplicates, disallowed, restricted);
      forall p | p in rest ensures p.id != last.id {
        var k :| 0 <= k < |init| && init[k] == p;
      }
    }
  }

  /** Four pairwise disjoint sets: the size of their union is the sum of
   *  their sizes. */
  lemma DisjointUnionSize(a: set<string>, b: set<string>, c: set<string>, d: set<string>)
    requires a !! b && a !! c && a !! d && b !! c && b !! d && c !! d
    ensures |a + b + c + d| == |a| + |b| + |c| + |d|
  {
    assert |a + b| == |a| + |b|;
    assert (a + b) !! c;
    assert |a + b + c| == |a + b| + |c|;
    assert (a + b + c) !! d;
  }

  /** The ids of the photos are exactly the ids in the four categories. */
  lemma CategoryIdsCover(photos: seq<Listed>, duplicates: map<string, string>, allowed: set<string>)
    requires duplicates.Keys <= IdSet(photos)
    ensures var disallowed := DisallowedLicenses(photos, duplicates, allowed);
      var restricted := RestrictedPhotos(photos, duplicates, disallowed);
      IdSet(photos) == duplicates.Keys + disallowed.Keys + restricted + IdSet(AvailablePhotos(photos, duplicates, disallowed, restricted))
  {
    var disallowed := DisallowedLicenses(photos, duplicates, allowed);
    var restricted := RestrictedPhotos(photos, duplicates, disallowed);
    var available := AvailablePhotos(photos, duplicates, disallowed, restricted);
    forall id | id in IdSet(photos) ensures id in duplicates.Keys + disallowed.Keys + restricted + IdSet(available) {
      var p :| p in photos && p.id == id;
      if IsAvailable(p, duplicates, disallowed, restricted) {
        assert p in available;
      }
    }
    assert IdSet(available) <= IdSet(photos) by {
      forall p | p in available ensures p in photos { }
    }
  }

  /** The assertion at the end of `categorise_photos` holds when the ids
   *  are distinct and the duplicates are among them (as `find_duplicates`
   *  only reports ids it was asked about). */
  lemma CategoriseSucceeds(photos: seq<Listed>, duplicates: map<string, string>, allowed: set<string>)
    requires DistinctIds(photos) && duplicates.Keys <= IdSet(photos)
    ensures CategorisePhotos(photos, duplicates, allowed).Ok?
  {
    var disallowed := DisallowedLicenses(photos, duplicates, allowed);
    var restricted := RestrictedPhotos(photos, duplicates, disallowed);
    var available := AvailablePhotos(photos, duplicates, disallowed, restricted);
    var a := IdSet(available);
    CategoryParts(photos, duplicates, allowed);
    PartsCount(IdSet(photos), duplicates.Keys, disallowed.Keys, restricted, a);
    assert |duplicates| == |duplicates.Keys| && |disallowed| == |disallowed.Keys|;
  }

  /** The ids of the four categories split the distinct ids of the photos,
   *  and the available photos have distinct ids. */
  lemma CategoryParts(photos: seq<Listed>, duplicates: map<string, string>, allowed: set<string>)
    requires DistinctIds(photos) && duplicates.Keys <= IdSet(photos)
    ensures var disallowed := DisallowedLicenses(photos, duplicates, allowed);
      var restricted := RestrictedPhotos(photos, duplicates, disallowed);
      var available := AvailablePhotos(photos, duplicates, disallowed, restricted);
      var a := IdSet(available);
      && |IdSet(photos)| == |photos| && |a| == |available|
      && IdSet(photos) == duplicates.Keys + disallowed.Keys + restricted + a
      && duplicates.Keys !! disallowed.Keys && duplicates.Keys !! restricted && duplicates.Keys !! a
      && disallowed.Keys !! restricted && disallowed.Keys !! a && restricted !! a
  {
    var disallowed := DisallowedLicenses(photos, duplicates, allowed);
    var restricted := RestrictedPhotos(photos, duplicates, disallowed);
    var available := AvailablePhotos(photos, duplicates, disallowed, restricted);
    var a := IdSet(available);
    assert |IdSet(photos)| == |photos| by {
      DistinctIdCount(photos);
    }
    assert |a| == |available| by {
      AvailableDistinct(photos, duplicates, disallowed, restricted);
      DistinctIdCount(available);
    }
    assert IdSet(photos) == duplicates.Keys + disallowed.Keys + restricted + a by {
      CategoryIdsCover(photos, duplicates, allowed);
    }
    assert duplicates.Keys !! disallowed.Keys by {
      forall id | id in disallowed ensures id !in duplicates {
        DisallowedKeys(photos, duplicates, allowed, id);
      }
    }
  }

  /** Four pairwise disjoint sets that make up a whole add up to its size. */
  lemma PartsCount(whole: set<string>, a: set<string>, b: set<string>, c: set<string>, d: set<string>)
    requires whole == a + b + c + d
    requires a !! b && a !! c && a !! d && b !! c && b !! d && c !! d
    ensures |a| + |b| + |c| + |d| == |whole|
  {
    DisjointUnionSize(a, b, c, d);
  }

  // ---------------------------------------------------------------------
  // enrich_photo
  // ---------------------------------------------------------------------

  datatype Enriched<P, C> = Enriched(photo: P, sdc: C)

  /** `enrich_photo`, with `create_sdc_claims_for_flickr_photo` as
   *  `sdcFor`. The photos are enriched in order, and the first exception
   *  the builder raises ends the call with no list. */
  method EnrichPhoto<P, C>(photos: seq<P>, sdcFor: P -> Result<C>) returns (result: Result<seq<Enriched<P, C>>>)
    ensures result.Ok? <==> forall i :: 0 <= i < |photos| ==> sdcFor(photos[i]).Ok?
    ensures result.Ok? ==>
      |result.value| == |photos|
      && forall i :: 0 <= i < |photos| ==> result.value[i] == Enriched(photos[i], sdcFor(photos[i]).value)
    ensures result.Err? ==>
      exists i :: 0 <= i < |photos| && sdcFor(photos[i]) == Err(result.error)
        && forall k :: 0 <= k < i ==> sdcFor(photos[k]).Ok?
  {
    var enriched := [];
    for i := 0 to |photos|
      invariant |enriched| == i
      invariant forall k :: 0 <= k < i ==> sdcFor(photos[k]).Ok?
      invariant forall k :: 0 <= k < i ==> enriched[k] == Enriched(photos[k], sdcFor(photos[k]).value)
    {
      var sdc := sdcFor(photos[i]);
      if sdc.Err? {
        return Err(sdc.error);
      }
      enriched := enriched + [Enriched(photos[i], sdc.value)];
    }
    return Ok(enriched);
  }
}
