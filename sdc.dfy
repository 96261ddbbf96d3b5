/** The Wikibase data shapes used for structured data on Commons (SDC):
 *  data values, snaks, qualifiers, statements and claims
 *  (src/flickypedia/types/structured_data.py).
 *
 *  A Python dict whose iteration order can influence a result (the
 *  qualifiers of a statement) is an insertion-ordered association list;
 *  the claims of a file, which are only ever looked up by property, are
 *  a `map`. Floating-point coordinates are opaque reals compared only for
 *  equality. */
module Sdc {
  import opened Wrappers

  datatype SnakType = ValueSnak | SomeValue | NoValue

  datatype TimeValue = TimeValue(
    time: string,
    precision: int,
    before: int,
    after: int,
    timezone: int,
    calendarmodel: string)

  datatype GlobeValue = GlobeValue(
    latitude: real,
    longitude: real,
    precision: real,
    globe: string,
    altitude: Option<real>)

  /** The six kinds of `datavalue`; the constructor plays the part of the
   *  `"type"` key. The oldest builders write entity values carrying only an
   *  `id`, hence the optional entity type and numeric id. */
  datatype DataValue =
    | EntityIdValue(entityType: Option<string>, id: string, numericId: Option<int>)
    | StringValue(str: string)
    | TimeDataValue(time: TimeValue)
    | GlobeCoordinateValue(coord: GlobeValue)
    | QuantityValue(amount: string, unit: string)
    | MonolingualTextValue(text: string, language: string)

  /** The `"type"` tag of a data value as it appears in the JSON. */
  function TypeTag(d: DataValue): (tag: string)
    ensures tag == "string" <==> d.StringValue?
    ensures tag == "time" <==> d.TimeDataValue?
    ensures tag == "globecoordinate" <==> d.GlobeCoordinateValue?
  {
    match d
    case EntityIdValue(_, _, _) => "wikibase-entityid"
    case StringValue(_) => "string"
    case TimeDataValue(_) => "time"
    case GlobeCoordinateValue(_) => "globecoordinate"
    case QuantityValue(_, _) => "quantity"
    case MonolingualTextValue(_, _) => "monolingualtext"
  }

  /** A snak; `datavalue` and `hash` are keys that may be absent. */
  datatype Snak = Snak(
    property: string,
    snaktype: SnakType,
    datavalue: Option<DataValue>,
    hash: Option<string>)

  /** A property -> snak-list dict, in insertion order. */
  type Qualifiers = seq<(string, seq<Snak>)>

  datatype Rank = Deprecated | Normal | Preferred

  /** A statement, new or existing: `qualifiers-order`, `qualifiers`, `id`
   *  and `rank` are keys that may be absent (a new statement has no `id`
   *  until an action assigns one). References are not modelled. */
  datatype Statement = Statement(
    mainsnak: Snak,
    qualifiersOrder: Option<seq<string>>,
    qualifiers: Option<Qualifiers>,
    id: Option<string>,
    rank: Option<Rank>)

  /** Existing SDC of a file: property id -> statements. */
  type ExistingClaims = map<string, seq<Statement>>

  /** A snak of type "value" with no hash, as the builders write them. */
  function ValueSnakOf(property: string, v: DataValue): (s: Snak)
    ensures s.property == property && s.snaktype == ValueSnak
    ensures s.datavalue == Some(v) && s.hash == None
  {
    Snak(property, ValueSnak, Some(v), None)
  }

  /** A statement as the builders write it: no id, no rank. */
  function NewStatement(mainsnak: Snak, order: Option<seq<string>>, qs: Option<Qualifiers>): (st: Statement)
    ensures st.mainsnak == mainsnak && st.qualifiersOrder == order && st.qualifiers == qs
    ensures st.id == None && st.rank == None
  {
    Statement(mainsnak, order, qs, None, None)
  }

  // ---------------------------------------------------------------------
  // Insertion-ordered dict operations on qualifiers

  /** The keys of the dict, in iteration order. */
  function Keys(q: Qualifiers): (ks: seq<string>)
    ensures |ks| == |q|
    ensures forall i :: 0 <= i < |q| ==> ks[i] == q[i].0
  {
    if q == [] then [] else [q[0].0] + Keys(q[1..])
  }

  /** No key occurs twice, as in any Python dict. */
  predicate Distinct(ks: seq<string>) {
    forall i, j :: 0 <= i < j < |ks| ==> ks[i] != ks[j]
  }

  predicate DistinctKeys(q: Qualifiers) {
    Distinct(Keys(q))
  }

  /** `q.get(k)`: the value of the first entry with key `k`. */
  function Lookup(q: Qualifiers, k: string): (r: Option<seq<Snak>>)
    ensures r.None? <==> k !in Keys(q)
    ensures r.Some? ==> exists i :: 0 <= i < |q| && q[i] == (k, r.value)
  {
    if q == [] then None
    else if q[0].0 == k then Some(q[0].1)
    else
      var r := Lookup(q[1..], k);
      assert r.Some? ==> exists i :: 0 <= i < |q[1..]| && q[1..][i] == (k, r.value);
      r
  }

  /** `q[k] = v`: a present key keeps its position and takes the new
   *  value, a new key goes to the end. */
  function Put(q: Qualifiers, k: string, v: seq<Snak>): (r: Qualifiers)
    ensures k in Keys(q) ==> Keys(r) == Keys(q)
    ensures k !in Keys(q) ==> Keys(r) == Keys(q) + [k]
    ensures Lookup(r, k) == Some(v)
    ensures forall k' :: k' != k ==> Lookup(r, k') == Lookup(q, k')
  {
    if q == [] then [(k, v)]
    else if q[0].0 == k then [(k, v)] + q[1..]
    else
      PutBeyondFirstKeys(q, Put(q[1..], k, v), k);
      PutBeyondFirstLookup(q, Put(q[1..], k, v), k, v);
      [q[0]] + Put(q[1..], k, v)
  }

  /** Putting past a first entry with another key keeps that entry in
   *  front of the keys of the rest. */
  lemma PutBeyondFirstKeys(q: Qualifiers, rest: Qualifiers, k: string)
    requires q != [] && q[0].0 != k
    requires k in Keys(q[1..]) ==> Keys(rest) == Keys(q[1..])
    requires k !in Keys(q[1..]) ==> Keys(rest) == Keys(q[1..]) + [k]
    ensures k in Keys(q) ==> Keys([q[0]] + rest) == Keys(q)
    ensures k !in Keys(q) ==> Keys([q[0]] + rest) == Keys(q) + [k]
  {
    assert ([q[0]] + rest)[1..] == rest;
    assert Keys([q[0]] + rest) == [q[0].0] + Keys(rest);
    assert Keys(q) == [q[0].0] + Keys(q[1..]);
  }

  /** Putting past a first entry with another key leaves every other
   *  key's value alone. */
  lemma PutBeyondFirstLookup(q: Qualifiers, rest: Qualifiers, k: string, v: seq<Snak>)
    requires q != [] && q[0].0 != k
    requires Lookup(rest, k) == Some(v)
    requires forall k' :: k' != k ==> Lookup(rest, k') == Lookup(q[1..], k')
    ensures Lookup([q[0]] + rest, k) == Some(v)
    ensures forall k' :: k' != k ==> Lookup([q[0]] + rest, k') == Lookup(q, k')
  {
    var r := [q[0]] + rest;
    assert r[1..] == rest;
    forall k' | k' != k
      ensures Lookup(r, k') == Lookup(q, k')
    {
      if q[0].0 != k' {
        assert Lookup(r, k') == Lookup(rest, k');
      }
    }
  }

  lemma PutKeepsDistinct(q: Qualifiers, k: string, v: seq<Snak>)
    requires DistinctKeys(q)
    ensures DistinctKeys(Put(q, k, v))
  {
    var ks := Keys(q);
    if k !in ks {
      var ks' := ks + [k];
      forall i, j | 0 <= i < j < |ks'| ensures ks'[i] != ks'[j] {
        if j == |ks| {
          assert ks'[i] in ks;
        }
      }
    }
  }
}
