/** The backfiller (src/flickypedia/backfillr/backfillr.py): for a file on
 *  Commons it finds the Flickr photo, works out the statements the file
 *  should have, decides an action for each and writes the resulting
 *  claims back in one edit.
 *
 *  The Flickr and Wikimedia clients are the `Backfillr` object's
 *  constants, each standing for the answers that API gives; the edits
 *  sent to Commons are the object's one piece of state. */
module Backfillr {
  import opened Wrappers
  import opened Sdc
  import opened FlickrUrls
  import opened FlickrMatcher
  import opened Actions
  import Claims
  import Statements
  import WikidataProperties

  /** What `get_single_photo` gives: the photo, or one of the two
   *  exceptions `update_file` catches. */
  datatype PhotoLookup = Found(photo: Claims.SinglePhoto) | PhotoIsPrivate | ResourceNotFound

  /** One call of `add_structured_data`. */
  datatype Edit = Edit(filename: string, claims: seq<Statement>)

  /** The statements the file should have: those of the photo, or only the
   *  photo-id statement when Flickr does not show the photo. */
  function NewClaimsFor(lookup: PhotoLookup, photoId: string, bioDivLibrary: string): Result<seq<Statement>> {
    match lookup
    case Found(photo) => Claims.ClaimsFor(photo, Claims.ExistingPhoto, None, bioDivLibrary)
    case _ => Ok([Statements.CreateFlickrPhotoIdStatement(photoId)])
  }

  /** The claim an action contributes to the edit: none for DoNothing and
   *  Unknown, the statement for AddMissing, and the statement with the id
   *  of the statement it updates for AddQualifiers and ReplaceStatement. */
  function ClaimOf(a: Action): seq<Statement> {
    match a
    case DoNothing(_) => []
    case Unknown(_) => []
    case AddMissing(_, st) => [st]
    case AddQualifiers(_, id, st) => [st.(id := Some(id))]
    case ReplaceStatement(_, id, st) => [st.(id := Some(id))]
  }

  /** The action as `update_file` leaves it: the id is set on the
   *  statement the action holds, so the returned action carries it too. */
  function Updated(a: Action): Action {
    match a
    case AddQualifiers(p, id, st) => AddQualifiers(p, id, st.(id := Some(id)))
    case ReplaceStatement(p, id, st) => ReplaceStatement(p, id, st.(id := Some(id)))
    case _ => a
  }

  /** The claims of a list of actions, in order. */
  function ClaimsOf(actions: seq<Action>): seq<Statement>
    decreases |actions|
  {
    if actions == [] then []
    else ClaimsOf(actions[..|actions| - 1]) + ClaimOf(actions[|actions| - 1])
  }

  function UpdatedAll(actions: seq<Action>): seq<Action> {
    seq(|actions|, i requires 0 <= i < |actions| => Updated(actions[i]))
  }

  /** An action writes something unless it is DoNothing or Unknown. */
  predicate Writes(a: Action) {
    !a.DoNothing? && !a.Unknown?
  }

  /** One more action adds its claim and its updated form. */
  lemma CollectStep(actions: seq<Action>, i: nat)
    requires i < |actions|
    ensures ClaimsOf(actions[..i + 1]) == ClaimsOf(actions[..i]) + ClaimOf(actions[i])
    ensures UpdatedAll(actions[..i + 1]) == UpdatedAll(actions[..i]) + [Updated(actions[i])]
  {
    assert actions[..i + 1][..i] == actions[..i];
  }

  /** The loop of `update_file` over the actions. */
  method CollectClaims(actions: seq<Action>) returns (claims: seq<Statement>, updated: seq<Action>)
    ensures claims == ClaimsOf(actions)
    ensures updated == UpdatedAll(actions)
  {
    claims, updated := [], [];
    for i := 0 to |actions|
      invariant claims == ClaimsOf(actions[..i])
      invariant updated == UpdatedAll(actions[..i])
    {
      CollectStep(actions, i);
      var a := actions[i];
      updated := updated + [Updated(a)];
      match a
      case DoNothing(_) =>
      case Unknown(_) =>
      case AddMissing(_, st) =>
        claims := claims + [st];
      case AddQualifiers(_, id, st) =>
        claims := claims + [st.(id := Some(id))];
      case ReplaceStatement(_, id, st) =>
        claims := claims + [st.(id := Some(id))];
    }
    assert actions[..|actions|] == actions;
  }

  /** The claims of two lists of actions are those of each, in order. */
  lemma {:induction false} ClaimsOfAppend(a: seq<Action>, b: seq<Action>)
    ensures ClaimsOf(a + b) == ClaimsOf(a) + ClaimsOf(b)
    decreases |b|
  {
    if b == [] {
      assert a + b == a;
    } else {
      var b' := b[..|b| - 1];
      var last := b[|b| - 1];
      assert (a + b)[..|a + b| - 1] == a + b' && (a + b)[|a + b| - 1] == last;
      ClaimsOfAppend(a, b');
      var c := ClaimOf(last);
      assert ClaimsOf(a + b) == ClaimsOf(a + b') + c;
      assert ClaimsOf(b) == ClaimsOf(b') + c;
      assert (ClaimsOf(a) + ClaimsOf(b')) + c == ClaimsOf(a) + (ClaimsOf(b') + c);
    }
  }

  /** Only actions that write contribute claims. */
  lemma {:induction false} NoClaimsIffNoWrites(actions: seq<Action>)
    ensures ClaimsOf(actions) == [] <==> forall i :: 0 <= i < |actions| ==> !Writes(actions[i])
    decreases |actions|
  {
    if actions != [] {
      var n := |actions| - 1;
      var init := actions[..n];
      NoClaimsIffNoWrites(init);
      if ClaimsOf(actions) == [] {
        forall i | 0 <= i < |actions| ensures !Writes(actions[i]) {
          if i < n {
            assert actions[i] == init[i];
          }
        }
      }
      if forall i :: 0 <= i < |actions| ==> !Writes(actions[i]) {
        forall i | 0 <= i < |init| ensures !Writes(init[i]) {
          assert init[i] == actions[i];
        }
      }
    }
  }

  /** Each action contributes at most one claim. */
  lemma {:induction false} AtMostOneClaimPerAction(actions: seq<Action>)
    ensures |ClaimsOf(actions)| <= |actions|
    decreases |actions|
  {
    if actions != [] {
      AtMostOneClaimPerAction(actions[..|actions| - 1]);
    }
  }

  /** Every claim is the contribution of one of the actions. */
  lemma {:induction false} ClaimsComeFromActions(actions: seq<Action>, st: Statement)
    requires st in ClaimsOf(actions)
    ensures exists i :: 0 <= i < |actions| && ClaimOf(actions[i]) == [st]
    decreases |actions|
  {
    var n := |actions| - 1;
    var init := actions[..n];
    if st in ClaimsOf(init) {
      ClaimsComeFromActions(init, st);
      var i :| 0 <= i < |init| && ClaimOf(init[i]) == [st];
      assert actions[i] == init[i];
    } else {
      assert ClaimOf(actions[n]) == [st];
    }
  }

  /** The photo `_find_flickr_photo` finds, as a function of the structured
   *  data and of what the wikitext of `File:<filename>` yields. */
  ghost function FoundPhoto(parse: UrlParser, sdc: ExistingClaims, fromWikitext: Option<FindResult>)
    : Result<Option<FindResult>>
  {
    var fromSdc := FindFromSdc(parse, sdc);
    if fromSdc == Ok(None) then Ok(fromWikitext) else fromSdc
  }

  /** The actions `create_actions` computes in `update_file`, before the
   *  ids are set: no photo is a ValueError. */
  ghost function PlannedActions(parse: UrlParser, sdc: ExistingClaims, fromWikitext: Option<FindResult>,
                                flickr: string -> PhotoLookup, bioDivLibrary: string): Result<seq<Action>>
  {
    match FoundPhoto(parse, sdc, fromWikitext)
    case Err(e) => Err(e)
    case Ok(None) => Err(ValueError)
    case Ok(Some(found)) =>
      match NewClaimsFor(flickr(found.photoId), found.photoId, bioDivLibrary)
      case Err(e) => Err(e)
      case Ok(newClaims) => ActionsFrom(parse, sdc, [], newClaims)
  }

  class Backfillr {
    /** The Flickr API: what `get_single_photo` gives for each photo id. */
    const flickr: string -> PhotoLookup
    /** The Wikimedia API: the structured data of each file. */
    const structuredData: string -> ExistingClaims
    /** The Wikimedia API and the wikitext scan together: the photo found
     *  in the wikitext of each page. */
    const wikitextPhoto: string -> Option<FindResult>
    const parse: UrlParser
    /** The id of the BHL account (flickr_users.py is not part of this
     *  model). */
    const bioDivLibrary: string
    /** The edits sent to Commons so far. */
    var edits: seq<Edit>

    constructor(flickr: string -> PhotoLookup, structuredData: string -> ExistingClaims,
                wikitextPhoto: string -> Option<FindResult>, parse: UrlParser, bioDivLibrary: string)
      ensures this.flickr == flickr && this.structuredData == structuredData
      ensures this.wikitextPhoto == wikitextPhoto && this.parse == parse && this.bioDivLibrary == bioDivLibrary
      ensures edits == []
    {
      this.flickr := flickr;
      this.structuredData := structuredData;
      this.wikitextPhoto := wikitextPhoto;
      this.parse := parse;
      this.bioDivLibrary := bioDivLibrary;
      edits := [];
    }

    /** `_find_flickr_photo`: the structured data first; the wikitext of
     *  `File:<filename>` only when that finds nothing. */
    method FindPhoto(existingClaims: ExistingClaims, filename: string) returns (r: Result<Option<FindResult>>)
      ensures r == FoundPhoto(parse, existingClaims, wikitextPhoto("File:" + filename))
    {
      var wikitextConsulted;
      r, wikitextConsulted := FindFlickrPhoto(parse, existingClaims, filename, f => wikitextPhoto("File:" + f));
      FindFromSdcFinds(parse, existingClaims);
      if wikitextConsulted {
        FindsFromSdcUnique(parse, existingClaims, Ok(None));
      } else {
        FindsFromSdcUnique(parse, existingClaims, r);
      }
    }

    /** The plan for a file, from what the APIs give for it. */
    ghost function Plan(filename: string): Result<seq<Action>> {
      PlannedActions(parse, structuredData(filename), wikitextPhoto("File:" + filename), flickr, bioDivLibrary)
    }

    /** The statements `update_file` expects the file to have. */
    method NewClaims(photoId: string) returns (r: Result<seq<Statement>>)
      ensures r == NewClaimsFor(flickr(photoId), photoId, bioDivLibrary)
    {
      var singlePhoto := flickr(photoId);
      if singlePhoto.Found? {
        r := Claims.CreateSdcClaimsForExistingFlickrPhoto(singlePhoto.photo, bioDivLibrary);
      } else {
        r := Ok([Statements.CreateFlickrPhotoIdStatement(photoId)]);
      }
    }

    /** The part of `update_file` up to `create_actions`. */
    method PlanActions(filename: string) returns (r: Result<seq<Action>>)
      ensures r == Plan(filename)
    {
      var existingClaims := structuredData(filename);
      var flickrId := FindPhoto(existingClaims, filename);
      if flickrId.Err? {
        return Err(flickrId.error);
      }
      if flickrId.value.None? {
        return Err(ValueError);
      }
      var photoId := flickrId.value.value.photoId;
      var newClaims := NewClaims(photoId);
      if newClaims.Err? {
        return Err(newClaims.error);
      }
      r := CreateActions(parse, existingClaims, newClaims.value);
    }

    /** `update_file`: the actions, with the ids set on the statements they
     *  update, and at most one edit, made only when some claim results. */
    method UpdateFile(filename: string) returns (r: Result<seq<Action>>)
      modifies this
      ensures Plan(filename).Err? ==> r == Err(Plan(filename).error) && edits == old(edits)
      ensures Plan(filename).Ok? ==> r == Ok(UpdatedAll(Plan(filename).value))
      ensures Plan(filename).Ok? ==>
        edits == old(edits)
                 + (if ClaimsOf(Plan(filename).value) == [] then [] else [Edit(filename, ClaimsOf(Plan(filename).value))])
    {
      var actions := PlanActions(filename);
      if actions.Err? {
        return Err(actions.error);
      }
      var claims, updated := CollectClaims(actions.value);
      if claims != [] {
        edits := edits + [Edit(filename, claims)];
      }
      return Ok(updated);
    }
  }

  // ---------------------------------------------------------------------
  // What the backfiller promises
  // ---------------------------------------------------------------------

  /** A file whose structured data and wikitext name no Flickr photo is a
   *  ValueError (and so, by `UpdateFile`, no edit). */
  lemma NoPhotoIsValueError(parse: UrlParser, sdc: ExistingClaims, flickr: string -> PhotoLookup, bioDivLibrary: string)
    requires FindFromSdc(parse, sdc) == Ok(None)
    ensures PlannedActions(parse, sdc, None, flickr, bioDivLibrary) == Err(ValueError)
  {
  }

  /** The wikitext does not matter once the structured data names a photo
   *  or fails. */
  lemma StructuredDataFirst(parse: UrlParser, sdc: ExistingClaims, w1: Option<FindResult>, w2: Option<FindResult>,
                            flickr: string -> PhotoLookup, bioDivLibrary: string)
    requires FindFromSdc(parse, sdc) != Ok(None)
    ensures PlannedActions(parse, sdc, w1, flickr, bioDivLibrary) == PlannedActions(parse, sdc, w2, flickr, bioDivLibrary)
  {
    assert FoundPhoto(parse, sdc, w1) == FoundPhoto(parse, sdc, w2);
  }

  /** For a photo Flickr does not show, the only statement considered is
   *  the photo-id statement: one action, about the Flickr photo id. */
  lemma HiddenPhotoOnlyPhotoId(parse: UrlParser, sdc: ExistingClaims, fromWikitext: Option<FindResult>,
                               flickr: string -> PhotoLookup, bioDivLibrary: string, found: FindResult)
    requires FoundPhoto(parse, sdc, fromWikitext) == Ok(Some(found))
    requires !flickr(found.photoId).Found?
    ensures var plan := PlannedActions(parse, sdc, fromWikitext, flickr, bioDivLibrary);
      plan == ActionsFrom(parse, sdc, [], [Statements.CreateFlickrPhotoIdStatement(found.photoId)])
      && (plan.Ok? ==> |plan.value| == 1 && plan.value[0].propertyId == WikidataProperties.FlickrPhotoId)
  {
    var st := Statements.CreateFlickrPhotoIdStatement(found.photoId);
    ActionsFromMeaning(parse, sdc, [], [st]);
  }

  /** An edit is made exactly when some action writes. */
  lemma EditIffSomethingToWrite(actions: seq<Action>)
    ensures ClaimsOf(actions) != [] <==> exists i :: 0 <= i < |actions| && Writes(actions[i])
  {
    NoClaimsIffNoWrites(actions);
  }

  /** What each kind of action contributes. */
  lemma ClaimOfEachAction(p: string, id: string, st: Statement)
    ensures ClaimsOf([DoNothing(p)]) == [] && ClaimsOf([Unknown(p)]) == []
    ensures ClaimsOf([AddMissing(p, st)]) == [st]
    ensures ClaimsOf([AddQualifiers(p, id, st)]) == [st.(id := Some(id))]
    ensures ClaimsOf([ReplaceStatement(p, id, st)]) == [st.(id := Some(id))]
  {
    assert [DoNothing(p)][..0] == [];
    assert [Unknown(p)][..0] == [];
    assert [AddMissing(p, st)][..0] == [];
    assert [AddQualifiers(p, id, st)][..0] == [];
    assert [ReplaceStatement(p, id, st)][..0] == [];
  }

  /** The returned actions are the planned ones, kind and property kept;
   *  only the statements of AddQualifiers and ReplaceStatement change, by
   *  taking the id of the statement they update. */
  lemma UpdatedKeepsActions(actions: seq<Action>)
    ensures |UpdatedAll(actions)| == |actions|
    ensures forall i :: 0 <= i < |actions| ==>
      var u := UpdatedAll(actions)[i];
      && u.propertyId == actions[i].propertyId
      && (Writes(u) <==> Writes(actions[i]))
      && (u.AddQualifiers? || u.ReplaceStatement? ==> u.statement == actions[i].statement.(id := Some(u.statementId)))
      && (!u.AddQualifiers? && !u.ReplaceStatement? ==> u == actions[i])
  {
  }
}
