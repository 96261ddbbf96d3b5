/** The qualifier DSL: a list of (property, value) descriptions becomes
 *  the Wikibase `qualifiers` dict, one single-snak list per property
 *  (src/flickypedia/structured_data/types/qualifiers.py). */
module QualifierDsl {
  import opened Wrappers
  import opened Dates
  import opened Sdc
  import opened WikidataValues

  datatype QualifierValue =
    | StringQualifier(property: string, value: string)
    | EntityQualifier(property: string, entityId: string)
    | DateQualifier(property: string, date: Timestamp, precision: DatePrecision)

  /** The data value a description stands for; an entity id of the wrong
   *  shape fails the encoder's assertion. */
  function DataValueOf(q: QualifierValue): (r: Result<DataValue>)
    ensures q.StringQualifier? ==> r == Ok(StringValue(q.value))
    ensures q.EntityQualifier? ==> r == ToWikidataEntityValue(q.entityId)
    ensures q.DateQualifier? ==> r == Ok(ToWikidataDateValue(q.date, q.precision))
  {
    match q
    case StringQualifier(_, v) => Ok(ToWikidataStringValue(v))
    case EntityQualifier(_, id) => ToWikidataEntityValue(id)
    case DateQualifier(_, d, p) => Ok(ToWikidataDateValue(d, p))
  }

  /** What `create_qualifiers` computes from an initial dict `acc`: each
   *  description in turn is stored under its property. */
  function AddQualifiers(acc: Qualifiers, qs: seq<QualifierValue>): Result<Qualifiers>
    decreases |qs|
  {
    if qs == [] then Ok(acc)
    else
      var dv :- DataValueOf(qs[0]);
      AddQualifiers(Put(acc, qs[0].property, [ValueSnakOf(qs[0].property, dv)]), qs[1..])
  }

  /** `create_qualifiers`. */
  method CreateQualifiers(qualifierValues: seq<QualifierValue>) returns (r: Result<Qualifiers>)
    ensures r == AddQualifiers([], qualifierValues)
  {
    var result: Qualifiers := [];
    var i := 0;
    while i < |qualifierValues|
      invariant 0 <= i <= |qualifierValues|
      invariant AddQualifiers([], qualifierValues) == AddQualifiers(result, qualifierValues[i..])
    {
      var q := qualifierValues[i];
      assert qualifierValues[i..][1..] == qualifierValues[i + 1..];
      var datavalue := DataValueOf(q);
      if datavalue.Err? {
        return Err(datavalue.error);
      }
      result := Put(result, q.property, [ValueSnakOf(q.property, datavalue.value)]);
      i := i + 1;
    }
    assert qualifierValues[i..] == [];
    return Ok(result);
  }

  /** The index of the last description for property `k`, if any. */
  function LastFor(qs: seq<QualifierValue>, k: string): (r: Option<nat>)
    ensures r.Some? ==> r.value < |qs| && qs[r.value].property == k
    ensures r.Some? ==> forall j :: r.value < j < |qs| ==> qs[j].property != k
    ensures r.None? <==> forall j :: 0 <= j < |qs| ==> qs[j].property != k
  {
    if qs == [] then None
    else match LastFor(qs[1..], k)
      case Some(j) => Some(j + 1)
      case None => if qs[0].property == k then Some(0) else None
  }

  /** The snak list stored for a description. */
  function SnaksFor(q: QualifierValue): seq<Snak>
    requires DataValueOf(q).Ok?
  {
    [ValueSnakOf(q.property, DataValueOf(q).value)]
  }

  /** The fold fails exactly when some description's entity id is
   *  malformed, and then with the encoder's assertion. */
  lemma {:induction false} AddQualifiersFails(acc: Qualifiers, qs: seq<QualifierValue>)
    ensures AddQualifiers(acc, qs).Ok? <==> forall j :: 0 <= j < |qs| ==> DataValueOf(qs[j]).Ok?
    ensures AddQualifiers(acc, qs).Err? ==> AddQualifiers(acc, qs).error == AssertionError
    decreases |qs|
  {
    if qs != [] {
      var q := qs[0];
      var dv := DataValueOf(q);
      EncodableSplit(qs);
      if dv.Ok? {
        var acc' := Put(acc, q.property, [ValueSnakOf(q.property, dv.value)]);
        AddQualifiersFails(acc', qs[1..]);
        assert AddQualifiers(acc, qs) == AddQualifiers(acc', qs[1..]);
      }
    }
  }

  /** Every description encodes iff the first does and every later one does. */
  lemma EncodableSplit(qs: seq<QualifierValue>)
    requires qs != []
    ensures (forall j :: 0 <= j < |qs| ==> DataValueOf(qs[j]).Ok?) <==>
      DataValueOf(qs[0]).Ok? && forall j :: 0 <= j < |qs[1..]| ==> DataValueOf(qs[1..][j]).Ok?
  {
    assert forall j :: 1 <= j < |qs| ==> qs[j] == qs[1..][j - 1];
  }

  /** Property `k` ends up in the dict iff it was there already or some
   *  description names it. */
  lemma {:induction false} AddQualifiersKeys(acc: Qualifiers, qs: seq<QualifierValue>, k: string)
    requires AddQualifiers(acc, qs).Ok?
    ensures k in Keys(AddQualifiers(acc, qs).value) <==>
      k in Keys(acc) || exists j :: 0 <= j < |qs| && qs[j].property == k
    decreases |qs|
  {
    if qs != [] {
      var q := qs[0];
      var acc' := Put(acc, q.property, [ValueSnakOf(q.property, DataValueOf(q).value)]);
      assert AddQualifiers(acc, qs) == AddQualifiers(acc', qs[1..]);
      AddQualifiersKeys(acc', qs[1..], k);
      assert k in Keys(acc') <==> k in Keys(acc) || k == q.property;
      NamedInCons(qs, k);
    }
  }

  /** A description among `qs` names `k` iff the first does or one after it
   *  does. */
  lemma NamedInCons(qs: seq<QualifierValue>, k: string)
    requires qs != []
    ensures (exists j :: 0 <= j < |qs| && qs[j].property == k) <==>
      qs[0].property == k || exists j :: 0 <= j < |qs[1..]| && qs[1..][j].property == k
  {
    if exists j :: 0 <= j < |qs| && qs[j].property == k {
      var j :| 0 <= j < |qs| && qs[j].property == k;
      if j > 0 {
        assert qs[1..][j - 1].property == k;
      }
    }
    if exists j :: 0 <= j < |qs[1..]| && qs[1..][j].property == k {
      var j :| 0 <= j < |qs[1..]| && qs[1..][j].property == k;
      assert qs[j + 1].property == k;
    }
  }

  /** The list stored under `k` comes from the last description naming
   *  `k`; a property no description names keeps its earlier list. */
  lemma {:induction false} AddQualifiersLookup(acc: Qualifiers, qs: seq<QualifierValue>, k: string)
    requires AddQualifiers(acc, qs).Ok?
    ensures LastFor(qs, k).Some? ==>
      DataValueOf(qs[LastFor(qs, k).value]).Ok? &&
      Lookup(AddQualifiers(acc, qs).value, k) == Some(SnaksFor(qs[LastFor(qs, k).value]))
    ensures LastFor(qs, k).None? ==> Lookup(AddQualifiers(acc, qs).value, k) == Lookup(acc, k)
    decreases |qs|
  {
    if qs != [] {
      var q := qs[0];
      var dv := DataValueOf(q);
      var acc' := Put(acc, q.property, [ValueSnakOf(q.property, dv.value)]);
      AddQualifiersLookup(acc', qs[1..], k);
      AddQualifiersFails(acc, qs);
    }
  }

  /** The fold never introduces a repeated key. */
  lemma {:induction false} AddQualifiersDistinct(acc: Qualifiers, qs: seq<QualifierValue>)
    requires DistinctKeys(acc)
    requires AddQualifiers(acc, qs).Ok?
    ensures DistinctKeys(AddQualifiers(acc, qs).value)
    decreases |qs|
  {
    if qs != [] {
      var q := qs[0];
      var dv := DataValueOf(q);
      var acc' := Put(acc, q.property, [ValueSnakOf(q.property, dv.value)]);
      PutKeepsDistinct(acc, q.property, [ValueSnakOf(q.property, dv.value)]);
      AddQualifiersDistinct(acc', qs[1..]);
    }
  }

  /** The result of `create_qualifiers`: a dict without repeated keys
   *  whose keys are exactly the described properties, each holding a
   *  one-element list with a "value" snak for that property whose data
   *  value comes from the LAST description of the property. */
  lemma CreateQualifiersShape(qs: seq<QualifierValue>, k: string)
    requires AddQualifiers([], qs).Ok?
    ensures DistinctKeys(AddQualifiers([], qs).value)
    ensures k in Keys(AddQualifiers([], qs).value) <==> exists j :: 0 <= j < |qs| && qs[j].property == k
    ensures LastFor(qs, k).Some? ==>
      var q := qs[LastFor(qs, k).value];
      DataValueOf(q).Ok? &&
      Lookup(AddQualifiers([], qs).value, k) == Some([ValueSnakOf(k, DataValueOf(q).value)])
  {
    AddQualifiersDistinct([], qs);
    AddQualifiersKeys([], qs, k);
    AddQualifiersLookup([], qs, k);
  }
}
