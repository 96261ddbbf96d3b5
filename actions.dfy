/** Deciding what the backfiller should do about each statement it
 *  expects a file to have (src/flickypedia/backfillr/actions.py). */
module Actions {
  import opened Wrappers
  import opened Sdc
  import opened FlickrUrls
  import opened Comparisons
  import WikidataProperties

  /** The five kinds of action; each names the property of the statement
   *  it is about. */
  datatype Action =
    | DoNothing(propertyId: string)
    | AddMissing(propertyId: string, statement: Statement)
    | AddQualifiers(propertyId: string, statementId: string, statement: Statement)
    | ReplaceStatement(propertyId: string, statementId: string, statement: Statement)
    | Unknown(propertyId: string)

  /** `has_subset_of_new_qualifiers` over the existing qualifier entries
   *  still to be checked. A property missing from the new statement (or
   *  a new statement without qualifiers) is a caught `KeyError`; a new
   *  list that is not a single snak fails the assertion. */
  function HasSubsetFrom(parse: UrlParser, existing: Qualifiers, incoming: Option<Qualifiers>): (r: Result<bool>)
    ensures r.Err? ==> r.error in {AssertionError, KeyError, ValueError}
  {
    if existing == [] then Ok(true)
    else if incoming.None? then Ok(false)
    else match Lookup(incoming.value, existing[0].0)
      case None => Ok(false)
      case Some(list) =>
        if |list| != 1 then Err(AssertionError)
        else
          var found :- AnyEquivalent(parse, existing[0].1, list[0]);
          if !found then Ok(false) else HasSubsetFrom(parse, existing[1..], incoming)
  }

  /** `has_subset_of_new_qualifiers`. */
  function HasSubsetOfNewQualifiers(parse: UrlParser, existing: Statement, incoming: Statement): Result<bool> {
    HasSubsetFrom(parse, existing.qualifiers.UnwrapOr([]), incoming.qualifiers)
  }

  /** The existing qualifier entry `e` is covered by the new qualifiers:
   *  its property is among them with exactly one snak, and that snak is
   *  equivalent to one of the entry's snaks. */
  predicate Covered(parse: UrlParser, e: (string, seq<Snak>), incoming: Option<Qualifiers>) {
    incoming.Some? && Lookup(incoming.value, e.0).Some?
    && |Lookup(incoming.value, e.0).value| == 1
    && AnyEquivalent(parse, e.1, Lookup(incoming.value, e.0).value[0]) == Ok(true)
  }

  /** The existing qualifiers are a subset of the new ones iff every
   *  existing entry is covered by the new qualifiers. */
  lemma {:induction false} HasSubsetMeaning(parse: UrlParser, existing: Qualifiers, incoming: Option<Qualifiers>)
    ensures HasSubsetFrom(parse, existing, incoming) == Ok(true) <==>
      forall i :: 0 <= i < |existing| ==> Covered(parse, existing[i], incoming)
  {
    if existing != [] {
      HasSubsetMeaning(parse, existing[1..], incoming);
      assert HasSubsetFrom(parse, existing, incoming) == Ok(true) <==>
        Covered(parse, existing[0], incoming) && HasSubsetFrom(parse, existing[1..], incoming) == Ok(true);
      assert forall i :: 1 <= i < |existing| ==> existing[i] == existing[1..][i - 1];
    }
  }

  /** An existing qualifier whose property the new statement lacks means
   *  the existing qualifiers are not a subset. */
  lemma MissingPropertyIsNoSubset(parse: UrlParser, existing: Statement, incoming: Statement, k: string)
    requires k in Keys(existing.qualifiers.UnwrapOr([]))
    requires incoming.qualifiers.None? || k !in Keys(incoming.qualifiers.value)
    ensures HasSubsetOfNewQualifiers(parse, existing, incoming) != Ok(true)
  {
    var eqs := existing.qualifiers.UnwrapOr([]);
    HasSubsetMeaning(parse, eqs, incoming.qualifiers);
    var i :| 0 <= i < |eqs| && eqs[i].0 == k;
  }

  /** The statement some other tool left on many files: a Creator whose
   *  only content is the author name "null". */
  const NullCreatorStatement: Statement :=
    NewStatement(
      Snak(WikidataProperties.Creator, SomeValue, None, None),
      Some([WikidataProperties.AuthorName]),
      Some([(WikidataProperties.AuthorName, [ValueSnakOf(WikidataProperties.AuthorName, StringValue("null"))])]))

  /** `statement["id"]`. */
  function StatementId(st: Statement): (r: Result<string>)
    ensures r.Ok? <==> st.id.Some?
    ensures r.Ok? ==> r.value == st.id.value
    ensures r.Err? ==> r.error == KeyError
  {
    match st.id
    case Some(id) => Ok(id)
    case None => Err(KeyError)
  }

  /** `{k: d[k]}` for the qualifier dict of a statement. */
  function SingleQualifier(st: Statement, k: string): (r: Result<Qualifiers>)
    ensures r.Err? <==> st.qualifiers.None? || k !in Keys(st.qualifiers.value)
    ensures r.Ok? ==> st.qualifiers.Some? && r.value == [(k, Lookup(st.qualifiers.value, k).value)]
  {
    if st.qualifiers.None? then Err(KeyError)
    else match Lookup(st.qualifiers.value, k)
      case Some(v) => Ok([(k, v)])
      case None => Err(KeyError)
  }

  /** The second Creator rule: same qualifier properties (as sets), an
   *  equivalent main snak and an equivalent Flickr user id qualifier. */
  function SameCreator(parse: UrlParser, st: Statement, incoming: Statement): Result<bool> {
    if st.qualifiersOrder.None? || incoming.qualifiersOrder.None? then Err(KeyError)
    else if (set k | k in st.qualifiersOrder.value) != (set k | k in incoming.qualifiersOrder.value) then Ok(false)
    else
      var sameMain :- EquivalentSnaks(parse, st.mainsnak, incoming.mainsnak);
      if !sameMain then Ok(false)
      else
        var existingId :- SingleQualifier(st, WikidataProperties.FlickrUserId);
        var incomingId :- SingleQualifier(incoming, WikidataProperties.FlickrUserId);
        EquivalentQualifiers(parse, existingId, incomingId)
  }

  /** The last rule of the inner loop: an equivalent main snak whose
   *  statement's qualifiers are a subset of the new ones gets the new
   *  qualifiers added. */
  function AddQualifiersRule(parse: UrlParser, pid: string, st: Statement, incoming: Statement): (r: Result<Option<Action>>)
    ensures r.Ok? && r.value.Some? ==>
      st.id.Some? && r.value.value == AddQualifiers(pid, st.id.value, incoming)
      && EquivalentSnaks(parse, st.mainsnak, incoming.mainsnak) == Ok(true)
      && HasSubsetOfNewQualifiers(parse, st, incoming) == Ok(true)
    ensures EquivalentSnaks(parse, st.mainsnak, incoming.mainsnak) == Ok(false) ==> r == Ok(None)
    ensures (EquivalentSnaks(parse, st.mainsnak, incoming.mainsnak) == Ok(true)
             && HasSubsetOfNewQualifiers(parse, st, incoming) == Ok(false)) ==> r == Ok(None)
    ensures (EquivalentSnaks(parse, st.mainsnak, incoming.mainsnak) == Ok(true)
             && HasSubsetOfNewQualifiers(parse, st, incoming) == Ok(true)) ==>
      r == (if st.id.Some? then Ok(Some(AddQualifiers(pid, st.id.value, incoming))) else Err(KeyError))
  {
    var sameMain :- EquivalentSnaks(parse, st.mainsnak, incoming.mainsnak);
    if !sameMain then Ok(None)
    else
      var subset :- HasSubsetOfNewQualifiers(parse, st, incoming);
      if !subset then Ok(None)
      else
        var id :- StatementId(st);
        Ok(Some(AddQualifiers(pid, id, incoming)))
  }

  /** Neither Creator rule applies: the property is not Creator, or the
   *  statement is neither the null creator nor the same creator. */
  predicate NoCreatorRule(parse: UrlParser, pid: string, st: Statement, incoming: Statement) {
    pid == WikidataProperties.Creator ==>
      EquivalentStatements(parse, st, NullCreatorStatement) == Ok(false) && SameCreator(parse, st, incoming) == Ok(false)
  }

  /** One pass of the inner loop of `create_actions` over an existing
   *  statement: the action it settles on, or `None` to try the next one. */
  function Step(parse: UrlParser, pid: string, st: Statement, incoming: Statement): (r: Result<Option<Action>>)
    ensures r.Ok? && r.value.Some? ==> r.value.value.propertyId == pid
    ensures r.Ok? && r.value.Some? && r.value.value.DoNothing? ==> EquivalentStatements(parse, st, incoming) == Ok(true)
    ensures EquivalentStatements(parse, st, incoming) == Ok(true) ==> r == Ok(Some(DoNothing(pid)))
    ensures r.Ok? && r.value.Some? && r.value.value.AddQualifiers? ==>
      st.id.Some? && r.value.value == AddQualifiers(pid, st.id.value, incoming)
      && EquivalentSnaks(parse, st.mainsnak, incoming.mainsnak) == Ok(true)
      && HasSubsetOfNewQualifiers(parse, st, incoming) == Ok(true)
    ensures r.Ok? && r.value.Some? && r.value.value.ReplaceStatement? ==>
      pid == WikidataProperties.Creator && st.id.Some?
      && r.value.value == ReplaceStatement(pid, st.id.value, incoming)
    ensures r.Ok? && r.value.Some? ==> !r.value.value.AddMissing? && !r.value.value.Unknown?
    ensures EquivalentStatements(parse, st, incoming) == Ok(false) && NoCreatorRule(parse, pid, st, incoming) ==>
      r == AddQualifiersRule(parse, pid, st, incoming)
    ensures EquivalentStatements(parse, st, incoming) == Ok(false) && pid == WikidataProperties.Creator && st.id.Some?
      && (EquivalentStatements(parse, st, NullCreatorStatement) == Ok(true)
          || (EquivalentStatements(parse, st, NullCreatorStatement) == Ok(false) && SameCreator(parse, st, incoming) == Ok(true)))
      ==> r == Ok(Some(ReplaceStatement(pid, st.id.value, incoming)))
  {
    var equivalent :- EquivalentStatements(parse, st, incoming);
    if equivalent then Ok(Some(DoNothing(pid)))
    else if pid == WikidataProperties.Creator then
      var isNull :- EquivalentStatements(parse, st, NullCreatorStatement);
      if isNull then
        var id :- StatementId(st);
        Ok(Some(ReplaceStatement(pid, id, incoming)))
      else
        var sameCreator :- SameCreator(parse, st, incoming);
        if sameCreator then
          var id :- StatementId(st);
          Ok(Some(ReplaceStatement(pid, id, incoming)))
        else AddQualifiersRule(parse, pid, st, incoming)
    else AddQualifiersRule(parse, pid, st, incoming)
  }

  /** The inner loop of `create_actions`: the first existing statement
   *  that settles the matter wins; if none does, the action is Unknown. */
  function ActionAgainst(parse: UrlParser, pid: string, existing: seq<Statement>, incoming: Statement): (r: Result<Action>)
    ensures r.Ok? ==> r.value.propertyId == pid && !r.value.AddMissing?
  {
    if existing == [] then Ok(Unknown(pid))
    else
      var step :- Step(parse, pid, existing[0], incoming);
      if step.Some? then Ok(step.value) else ActionAgainst(parse, pid, existing[1..], incoming)
  }

  /** The existing statements for a property: `existing_sdc.get(pid, [])`. */
  function StatementsFor(existingSdc: ExistingClaims, pid: string): seq<Statement> {
    if pid in existingSdc then existingSdc[pid] else []
  }

  /** The action `create_actions` chooses for one new statement. */
  function ActionFor(parse: UrlParser, existingSdc: ExistingClaims, incoming: Statement): (r: Result<Action>)
    ensures r.Ok? ==> r.value.propertyId == incoming.mainsnak.property
  {
    var pid := incoming.mainsnak.property;
    var existing := StatementsFor(existingSdc, pid);
    if existing == [] && pid != WikidataProperties.CopyrightLicense then Ok(AddMissing(pid, incoming))
    else ActionAgainst(parse, pid, existing, incoming)
  }

  /** The actions for the new statements still to be classified, after
   *  those already chosen. */
  function ActionsFrom(parse: UrlParser, existingSdc: ExistingClaims, acc: seq<Action>, incoming: seq<Statement>): Result<seq<Action>>
    decreases |incoming|
  {
    if incoming == [] then Ok(acc)
    else
      var a :- ActionFor(parse, existingSdc, incoming[0]);
      ActionsFrom(parse, existingSdc, acc + [a], incoming[1..])
  }

  /** A new statement whose action is chosen passes it on to the rest. */
  lemma ActionsFromChosen(parse: UrlParser, existingSdc: ExistingClaims, acc: seq<Action>, incoming: seq<Statement>, a: Action)
    requires incoming != [] && ActionFor(parse, existingSdc, incoming[0]) == Ok(a)
    ensures ActionsFrom(parse, existingSdc, acc, incoming) == ActionsFrom(parse, existingSdc, acc + [a], incoming[1..])
  {
  }

  /** A new statement whose classification raises ends the whole run. */
  lemma ActionsFromRaised(parse: UrlParser, existingSdc: ExistingClaims, acc: seq<Action>, incoming: seq<Statement>)
    requires incoming != [] && ActionFor(parse, existingSdc, incoming[0]).Err?
    ensures ActionsFrom(parse, existingSdc, acc, incoming) == Err(ActionFor(parse, existingSdc, incoming[0]).error)
  {
  }

  /** One turn of the inner loop: a step that raises or decides settles
   *  the action against the remaining statements; one that does not
   *  leaves it to those after. */
  lemma AgainstStep(parse: UrlParser, pid: string, existing: seq<Statement>, j: nat, incoming: Statement)
    requires j < |existing|
    ensures var step := Step(parse, pid, existing[j], incoming);
      && (step.Err? ==> ActionAgainst(parse, pid, existing[j..], incoming) == Err(step.error))
      && (step.Ok? && step.value.Some? ==> ActionAgainst(parse, pid, existing[j..], incoming) == Ok(step.value.value))
      && (step.Ok? && step.value.None? ==>
            ActionAgainst(parse, pid, existing[j..], incoming) == ActionAgainst(parse, pid, existing[j + 1..], incoming))
  {
    assert existing[j..][0] == existing[j] && existing[j..][1..] == existing[j + 1..];
  }

  /** `create_actions`. */
  method CreateActions(parse: UrlParser, existingSdc: ExistingClaims, newClaims: seq<Statement>) returns (r: Result<seq<Action>>)
    ensures r == ActionsFrom(parse, existingSdc, [], newClaims)
  {
    var actions: seq<Action> := [];
    var i := 0;
    while i < |newClaims|
      invariant 0 <= i <= |newClaims|
      invariant ActionsFrom(parse, existingSdc, actions, newClaims[i..]) == ActionsFrom(parse, existingSdc, [], newClaims)
    {
      var incoming := newClaims[i];
      assert newClaims[i..][0] == incoming && newClaims[i..][1..] == newClaims[i + 1..];
      var pid := incoming.mainsnak.property;
      var existing := StatementsFor(existingSdc, pid);
      if existing == [] && pid != WikidataProperties.CopyrightLicense {
        ActionsFromChosen(parse, existingSdc, actions, newClaims[i..], AddMissing(pid, incoming));
        actions := actions + [AddMissing(pid, incoming)];
        i := i + 1;
        continue;
      }
      var decided: Option<Action> := None;
      var j := 0;
      while j < |existing|
        invariant 0 <= j <= |existing|
        invariant ActionAgainst(parse, pid, existing[j..], incoming) == ActionAgainst(parse, pid, existing, incoming)
        invariant decided.None?
      {
        var step := Step(parse, pid, existing[j], incoming);
        AgainstStep(parse, pid, existing, j, incoming);
        if step.Err? {
          ActionsFromRaised(parse, existingSdc, actions, newClaims[i..]);
          return Err(step.error);
        }
        if step.value.Some? {
          decided := step.value;
          break;
        }
        j := j + 1;
      }
      var action := if decided.Some? then decided.value else Unknown(pid);
      assert ActionAgainst(parse, pid, existing, incoming) == Ok(action) by {
        if decided.None? {
          assert existing[j..] == [];
        }
      }
      ActionsFromChosen(parse, existingSdc, actions, newClaims[i..], action);
      actions := actions + [action];
      i := i + 1;
    }
    assert newClaims[i..] == [];
    return Ok(actions);
  }

  /** One action per new statement, in order, each the one `ActionFor`
   *  chooses for it (so each carries its statement's property); the
   *  whole call fails iff classifying some statement raises. */
  lemma {:induction false} ActionsFromMeaning(parse: UrlParser, existingSdc: ExistingClaims, acc: seq<Action>, incoming: seq<Statement>)
    ensures ActionsFrom(parse, existingSdc, acc, incoming).Ok? <==>
      forall k :: 0 <= k < |incoming| ==> ActionFor(parse, existingSdc, incoming[k]).Ok?
    ensures ActionsFrom(parse, existingSdc, acc, incoming).Ok? ==>
      var actions := ActionsFrom(parse, existingSdc, acc, incoming).value;
      |actions| == |acc| + |incoming| && actions[..|acc|] == acc
      && forall k :: 0 <= k < |incoming| ==>
           Ok(actions[|acc| + k]) == ActionFor(parse, existingSdc, incoming[k])
           && actions[|acc| + k].propertyId == incoming[k].mainsnak.property
    decreases |incoming|
  {
    if incoming != [] {
      var a := ActionFor(parse, existingSdc, incoming[0]);
      if a.Ok? {
        ActionsFromMeaning(parse, existingSdc, acc + [a.value], incoming[1..]);
        assert forall k :: 1 <= k < |incoming| ==> incoming[k] == incoming[1..][k - 1];
        if ActionsFrom(parse, existingSdc, acc, incoming).Ok? {
          var actions := ActionsFrom(parse, existingSdc, acc, incoming).value;
          assert actions[..|acc| + 1] == acc + [a.value];
          assert actions[..|acc|] == (acc + [a.value])[..|acc|];
        }
      }
    }
  }

  /** A property with no existing statement (other than the license) is
   *  added as it stands. */
  lemma MissingPropertyIsAdded(parse: UrlParser, existingSdc: ExistingClaims, incoming: Statement)
    requires StatementsFor(existingSdc, incoming.mainsnak.property) == []
    requires incoming.mainsnak.property != WikidataProperties.CopyrightLicense
    ensures ActionFor(parse, existingSdc, incoming) == Ok(AddMissing(incoming.mainsnak.property, incoming))
  {
  }

  /** A license statement with nothing to compare it to is left Unknown. */
  lemma MissingLicenseIsUnknown(parse: UrlParser, existingSdc: ExistingClaims, incoming: Statement)
    requires StatementsFor(existingSdc, incoming.mainsnak.property) == []
    requires incoming.mainsnak.property == WikidataProperties.CopyrightLicense
    ensures ActionFor(parse, existingSdc, incoming) == Ok(Unknown(WikidataProperties.CopyrightLicense))
  {
  }

  /** Existing statements are tried in order and the first one that
   *  settles the matter decides the action; if every one is passed over,
   *  the action is Unknown. */
  lemma {:induction false} FirstDecisionWins(parse: UrlParser, pid: string, existing: seq<Statement>, incoming: Statement, j: nat)
    requires j <= |existing|
    requires forall k :: 0 <= k < j ==> Step(parse, pid, existing[k], incoming) == Ok(None)
    ensures j < |existing| && Step(parse, pid, existing[j], incoming).Ok? && Step(parse, pid, existing[j], incoming).value.Some? ==>
      ActionAgainst(parse, pid, existing, incoming) == Ok(Step(parse, pid, existing[j], incoming).value.value)
    ensures j == |existing| ==> ActionAgainst(parse, pid, existing, incoming) == Ok(Unknown(pid))
    decreases j
  {
    if j > 0 {
      var rest := existing[1..];
      assert Step(parse, pid, existing[0], incoming) == Ok(None);
      assert ActionAgainst(parse, pid, existing, incoming) == ActionAgainst(parse, pid, rest, incoming);
      forall k | 0 <= k < j - 1
        ensures Step(parse, pid, rest[k], incoming) == Ok(None)
      {
        assert rest[k] == existing[k + 1];
      }
      FirstDecisionWins(parse, pid, rest, incoming, j - 1);
      if j < |existing| {
        assert rest[j - 1] == existing[j];
      }
    }
  }

  /** The first existing statement equivalent to the new one, with none
   *  before it settling anything, gives DoNothing. */
  lemma EquivalentStatementMeansNothingToDo(parse: UrlParser, pid: string, existing: seq<Statement>, incoming: Statement, j: nat)
    requires j < |existing|
    requires forall k :: 0 <= k < j ==> Step(parse, pid, existing[k], incoming) == Ok(None)
    requires EquivalentStatements(parse, existing[j], incoming) == Ok(true)
    ensures ActionAgainst(parse, pid, existing, incoming) == Ok(DoNothing(pid))
  {
    FirstDecisionWins(parse, pid, existing, incoming, j);
  }

  /** An AddQualifiers action always names an existing statement whose
   *  main snak is equivalent to the new one's and whose qualifiers are a
   *  subset of the new ones. */
  lemma {:induction false} AddQualifiersJustified(parse: UrlParser, pid: string, existing: seq<Statement>, incoming: Statement)
    requires ActionAgainst(parse, pid, existing, incoming).Ok?
    requires ActionAgainst(parse, pid, existing, incoming).value.AddQualifiers?
    ensures var a := ActionAgainst(parse, pid, existing, incoming).value;
      a.statement == incoming &&
      exists k :: 0 <= k < |existing| && existing[k].id == Some(a.statementId)
        && EquivalentSnaks(parse, existing[k].mainsnak, incoming.mainsnak) == Ok(true)
        && HasSubsetOfNewQualifiers(parse, existing[k], incoming) == Ok(true)
  {
    var step := Step(parse, pid, existing[0], incoming);
    if step.Ok? && step.value.None? {
      AddQualifiersJustified(parse, pid, existing[1..], incoming);
      var a := ActionAgainst(parse, pid, existing, incoming).value;
      var k :| 0 <= k < |existing[1..]| && existing[1..][k].id == Some(a.statementId)
        && EquivalentSnaks(parse, existing[1..][k].mainsnak, incoming.mainsnak) == Ok(true)
        && HasSubsetOfNewQualifiers(parse, existing[1..][k], incoming) == Ok(true);
      assert existing[1..][k] == existing[k + 1];
    }
  }

  /** The null Creator statement on a file is replaced by the new one
   *  when it is the first existing Creator statement that settles anything. */
  lemma NullCreatorIsReplaced(parse: UrlParser, st: Statement, incoming: Statement)
    requires st.id.Some?
    requires EquivalentStatements(parse, st, incoming) == Ok(false)
    requires EquivalentStatements(parse, st, NullCreatorStatement) == Ok(true)
    ensures Step(parse, WikidataProperties.Creator, st, incoming) == Ok(Some(ReplaceStatement(WikidataProperties.Creator, st.id.value, incoming)))
  {
  }

  /** A statement with an id, not equivalent to the new one, outside the
   *  Creator rules, whose main snak is equivalent and whose qualifiers are
   *  a subset of the new ones gets the new qualifiers added under its id. */
  lemma AddQualifiersWhenSubset(parse: UrlParser, pid: string, st: Statement, incoming: Statement)
    requires st.id.Some?
    requires EquivalentStatements(parse, st, incoming) == Ok(false)
    requires NoCreatorRule(parse, pid, st, incoming)
    requires EquivalentSnaks(parse, st.mainsnak, incoming.mainsnak) == Ok(true)
    requires HasSubsetOfNewQualifiers(parse, st, incoming) == Ok(true)
    ensures Step(parse, pid, st, incoming) == Ok(Some(AddQualifiers(pid, st.id.value, incoming)))
  {
  }

  /** A Creator statement with an id that is not the null creator but
   *  names the same Flickr user is replaced under its id. */
  lemma SameCreatorIsReplaced(parse: UrlParser, st: Statement, incoming: Statement)
    requires st.id.Some?
    requires EquivalentStatements(parse, st, incoming) == Ok(false)
    requires EquivalentStatements(parse, st, NullCreatorStatement) == Ok(false)
    requires SameCreator(parse, st, incoming) == Ok(true)
    ensures Step(parse, WikidataProperties.Creator, st, incoming) == Ok(Some(ReplaceStatement(WikidataProperties.Creator, st.id.value, incoming)))
  {
  }
}
