/** The equivalence checks the backfiller uses to decide whether a
 *  statement already on Commons says what it would write
 *  (src/flickypedia/backfillr/comparisons.py). Each check returns
 *  `Err` where the Python code raises. */
module Comparisons {
  import opened Wrappers
  import opened Sdc
  import opened FlickrUrls
  import opened WikidataValues
  import opened Dates
  import opened Text
  import WikidataProperties

  // ---------------------------------------------------------------------
  // URLs

  /** `are_equivalent_flickr_urls`: both URLs parse, to the same result;
   *  any parse failure makes them different. */
  predicate EquivalentFlickrUrls(parse: UrlParser, url1: string, url2: string) {
    match (parse(url1), parse(url2))
    case (Parsed(u1), Parsed(u2)) => u1 == u2
    case _ => false
  }

  /** URL equivalence is an equivalence relation on the URLs that parse,
   *  and no URL that fails to parse is equivalent to anything. */
  lemma FlickrUrlEquivalence(parse: UrlParser, a: string, b: string, c: string)
    ensures EquivalentFlickrUrls(parse, a, a) <==> parse(a).Parsed?
    ensures EquivalentFlickrUrls(parse, a, b) ==> EquivalentFlickrUrls(parse, b, a)
    ensures EquivalentFlickrUrls(parse, a, b) && EquivalentFlickrUrls(parse, b, c) ==> EquivalentFlickrUrls(parse, a, c)
    ensures !parse(a).Parsed? ==> !EquivalentFlickrUrls(parse, a, b) && !EquivalentFlickrUrls(parse, b, a)
  {
  }

  // ---------------------------------------------------------------------
  // Times

  /** The five fields compared before the time string itself. */
  predicate SameTimeMetadata(t1: TimeValue, t2: TimeValue) {
    t1.precision == t2.precision && t1.before == t2.before && t1.after == t2.after
    && t1.timezone == t2.timezone && t1.calendarmodel == t2.calendarmodel
  }

  /** `+YYYY-MM-DDThh:mm:ssZ`, exactly. */
  predicate TimeShape(s: string) {
    |s| == 21 && s[0] == '+' && DigitsAt(s, 1, 4) && s[5] == '-' && DigitsAt(s, 6, 2)
    && s[8] == '-' && DigitsAt(s, 9, 2) && s[11] == 'T' && DigitsAt(s, 12, 2)
    && s[14] == ':' && DigitsAt(s, 15, 2) && s[17] == ':' && DigitsAt(s, 18, 2) && s[20] == 'Z'
  }

  /** `re.match(r"^\+[0-9]{4}-...Z$", s)`: Python's `$` also matches before
   *  a single final newline. */
  predicate MatchesTimeFormat(s: string) {
    TimeShape(s) || (|s| == 22 && s[21] == '\n' && TimeShape(s[..21]))
  }

  /** How many leading characters are compared at a precision: the year,
   *  year-month or year-month-day part. */
  function PrefixLength(precision: int): (n: nat)
    requires precision in {Year, Month, Day}
    ensures n == 5 || n == 8 || n == 11
  {
    if precision == Year then 5 else if precision == Month then 8 else 11
  }

  /** `are_equivalent_times`. */
  function EquivalentTimes(t1: TimeValue, t2: TimeValue): (r: Result<bool>)
    ensures !SameTimeMetadata(t1, t2) ==> r == Ok(false)
    ensures !MatchesTimeFormat(t1.time) || !MatchesTimeFormat(t2.time) ==> r == Ok(false)
    ensures r.Err? <==> SameTimeMetadata(t1, t2) && MatchesTimeFormat(t1.time) && MatchesTimeFormat(t2.time)
                        && t1.precision !in {Year, Month, Day}
    ensures r.Err? ==> r.error == ValueError
    ensures r == Ok(true) ==> t1.precision in {Year, Month, Day}
                              && t1.time[..PrefixLength(t1.precision)] == t2.time[..PrefixLength(t1.precision)]
  {
    if !SameTimeMetadata(t1, t2) then Ok(false)
    else if !MatchesTimeFormat(t1.time) || !MatchesTimeFormat(t2.time) then Ok(false)
    else if t1.precision == Year then Ok(t1.time[..5] == t2.time[..5])
    else if t1.precision == Month then Ok(t1.time[..8] == t2.time[..8])
    else if t1.precision == Day then Ok(t1.time[..11] == t2.time[..11])
    else Err(ValueError)
  }

  /** On well-formed times at a known precision, time equivalence is an
   *  equivalence relation. */
  lemma TimeEquivalence(t1: TimeValue, t2: TimeValue, t3: TimeValue)
    requires MatchesTimeFormat(t1.time) && t1.precision in {Year, Month, Day}
    ensures EquivalentTimes(t1, t1) == Ok(true)
    ensures EquivalentTimes(t1, t2) == Ok(true) ==> EquivalentTimes(t2, t1) == Ok(true)
    ensures EquivalentTimes(t1, t2) == Ok(true) && EquivalentTimes(t2, t3) == Ok(true) ==> EquivalentTimes(t1, t3) == Ok(true)
  {
  }

  /** The time string Wikidata stores for midnight on a date,
   *  `+YYYY-MM-DDT00:00:00Z`. */
  function MidnightTime(y: string, m: string, d: string): string {
    "+" + y + "-" + m + "-" + d + "T00:00:00Z"
  }

  /** At year precision `+2001-00-00` and `+2001-01-01` are the same time. */
  lemma YearPrecisionIgnoresMonthAndDay()
    ensures EquivalentTimes(TimeValue(MidnightTime("2001", "00", "00"), Year, 0, 0, 0, GregorianCalendarUri),
                            TimeValue(MidnightTime("2001", "01", "01"), Year, 0, 0, 0, GregorianCalendarUri)) == Ok(true)
  {
    MidnightShape("2001", "00", "00");
    MidnightShape("2001", "01", "01");
    SameYearPrefix(TimeValue(MidnightTime("2001", "00", "00"), Year, 0, 0, 0, GregorianCalendarUri),
                   TimeValue(MidnightTime("2001", "01", "01"), Year, 0, 0, 0, GregorianCalendarUri));
  }

  /** A midnight time has the compared shape, and its first five
   *  characters are the sign and the year. */
  lemma MidnightShape(y: string, m: string, d: string)
    requires |y| == 4 && |m| == 2 && |d| == 2 && AllDigits(y) && AllDigits(m) && AllDigits(d)
    ensures TimeShape(MidnightTime(y, m, d)) && MidnightTime(y, m, d)[..5] == "+" + y
  {
    var s := MidnightTime(y, m, d);
    assert s[1..5] == y && s[6..8] == m && s[9..11] == d;
    assert s[12..14] == "00" && s[15..17] == "00" && s[18..20] == "00";
  }

  /** Well-formed times at year precision with the same metadata are
   *  equivalent when their years agree. */
  lemma SameYearPrefix(t1: TimeValue, t2: TimeValue)
    requires SameTimeMetadata(t1, t2) && t1.precision == Year
    requires MatchesTimeFormat(t1.time) && MatchesTimeFormat(t2.time)
    requires t1.time[..5] == t2.time[..5]
    ensures EquivalentTimes(t1, t2) == Ok(true)
  {
  }

  /** The time string written for a four-digit-year date has the compared
   *  format, and its year, month and day parts sit at fixed places. */
  lemma TimeStringLayout(d: DateTime, p: DatePrecision)
    requires Valid(d) && 1000 <= d.year <= 9999
    ensures var s := TimeString(d, p);
      TimeShape(s) && s[..1] == "+" && s[1..5] == FormatYear(d) && s[5] == '-' && s[8] == '-'
      && s[6..8] == (if p == YearPrecision then "00" else FormatMonth(d))
      && s[9..11] == (if p == DayPrecision then FormatDay(d) else "00")
  {
    var s := TimeString(d, p);
    var ys := FormatYear(d);
    FourDigitYear(d.year);
    var mm := if p == YearPrecision then "00" else FormatMonth(d);
    var dd := if p == DayPrecision then FormatDay(d) else "00";
    assert |ys| == 4 && |mm| == 2 && |dd| == 2;
    var head := "+" + ys + "-" + mm + "-" + dd;
    var tail := "T00:00:00Z";
    assert |head| == 11;
    assert s == head + tail;
    assert s[..11] == head && s[11..] == tail;
    assert s[1..5] == ys && s[6..8] == mm && s[9..11] == dd;
    assert s[12..14] == tail[1..3] && s[15..17] == tail[4..6] && s[18..20] == tail[7..9];
    assert AllDigits("00");
  }

  /** Two dates written at the same precision by `to_wikidata_date_value`
   *  are equivalent exactly when they agree down to that precision. */
  lemma EquivalentDateValues(d1: DateTime, d2: DateTime, p: DatePrecision)
    requires Valid(d1) && Valid(d2) && 1000 <= d1.year <= 9999 && 1000 <= d2.year <= 9999
    ensures EquivalentTimes(ToWikidataDateValue(d1, p).time, ToWikidataDateValue(d2, p).time)
            == Ok(Truncate(d1, p) == Truncate(d2, p))
  {
    var s1 := TimeString(d1, p);
    var s2 := TimeString(d2, p);
    var n := PrefixLength(PrecisionValue(p));
    assert s1[..n] == s2[..n] <==> Truncate(d1, p) == Truncate(d2, p) by {
      TimeStringLayout(d1, p);
      TimeStringLayout(d2, p);
      ComparedParts(s1, s2, n);
      FormatsDetermineDate(d1, d2, p);
    }
    assert MatchesTimeFormat(s1) && MatchesTimeFormat(s2) by {
      TimeStringLayout(d1, p);
      TimeStringLayout(d2, p);
    }
  }

  /** Down to a precision, two dates agree exactly when their written
   *  year, month and day agree. */
  lemma FormatsDetermineDate(d1: DateTime, d2: DateTime, p: DatePrecision)
    requires Valid(d1) && Valid(d2)
    ensures Truncate(d1, p) == Truncate(d2, p) <==>
      FormatYear(d1) == FormatYear(d2)
      && (p != YearPrecision ==> FormatMonth(d1) == FormatMonth(d2))
      && (p == DayPrecision ==> FormatDay(d1) == FormatDay(d2))
  {
    NatToStringRoundTrip(d1.year);
    NatToStringRoundTrip(d2.year);
  }

  /** Two times of the compared shape with the same sign agree on their
   *  first `n` characters exactly when their year, and down to `n` their
   *  month and day, agree. */
  lemma ComparedParts(s1: string, s2: string, n: nat)
    requires TimeShape(s1) && TimeShape(s2) && n in {5, 8, 11}
    ensures s1[..n] == s2[..n] <==>
      s1[1..5] == s2[1..5] && (n >= 8 ==> s1[6..8] == s2[6..8]) && (n == 11 ==> s1[9..11] == s2[9..11])
  {
    assert s1[..5] == s1[..1] + s1[1..5];
    assert s2[..5] == s2[..1] + s2[1..5];
    assert s1[..8] == s1[..5] + [s1[5]] + s1[6..8];
    assert s2[..8] == s2[..5] + [s2[5]] + s2[6..8];
    assert s1[..11] == s1[..8] + [s1[8]] + s1[9..11];
    assert s2[..11] == s2[..8] + [s2[8]] + s2[9..11];
    if s1[..n] == s2[..n] {
      assert s1[1..5] == s1[..n][1..5] == s2[..n][1..5] == s2[1..5];
      if n >= 8 {
        assert s1[6..8] == s1[..n][6..8] == s2[..n][6..8] == s2[6..8];
      }
      if n == 11 {
        assert s1[9..11] == s1[..n][9..11] == s2[..n][9..11] == s2[9..11];
      }
    }
  }

  // ---------------------------------------------------------------------
  // Snaks

  /** The existing snak has exactly the keys property, snaktype and hash;
   *  the new one exactly property and snaktype. */
  predicate BareSnakPair(existing: Snak, incoming: Snak) {
    existing.hash.Some? && existing.datavalue.None? && incoming.hash.None? && incoming.datavalue.None?
  }

  /** The properties whose string values are compared as Flickr URLs. */
  predicate IsUrlProperty(property: string) {
    property == WikidataProperties.DescribedAtUrl || property == WikidataProperties.Url
  }

  /** Globe coordinates compare everything but their precision. */
  predicate SameGlobePosition(g1: GlobeValue, g2: GlobeValue) {
    g1.altitude == g2.altitude && g1.globe == g2.globe
    && g1.latitude == g2.latitude && g1.longitude == g2.longitude
  }

  /** `are_equivalent_snaks`; a missing `datavalue` raises `KeyError`. */
  function EquivalentSnaks(parse: UrlParser, existing: Snak, incoming: Snak): (r: Result<bool>)
    ensures existing.property != incoming.property ==> r == Ok(false)
    ensures existing.snaktype != incoming.snaktype ==> r == Ok(false)
    ensures existing.property == incoming.property && existing.snaktype == incoming.snaktype && BareSnakPair(existing, incoming) ==> r == Ok(true)
    ensures r.Err? <==> existing.property == incoming.property && existing.snaktype == incoming.snaktype
                        && !BareSnakPair(existing, incoming)
                        && (existing.datavalue.None? || incoming.datavalue.None?
                            || (existing.datavalue.value.TimeDataValue? && incoming.datavalue.value.TimeDataValue?
                                && EquivalentTimes(existing.datavalue.value.time, incoming.datavalue.value.time).Err?))
    ensures r.Err? ==> r.error == KeyError || r.error == ValueError
    ensures r == Ok(true) && !BareSnakPair(existing, incoming) ==>
      existing.datavalue.Some? && incoming.datavalue.Some?
      && TypeTag(existing.datavalue.value) == TypeTag(incoming.datavalue.value)
  {
    if existing.property != incoming.property then Ok(false)
    else if existing.snaktype != incoming.snaktype then Ok(false)
    else if BareSnakPair(existing, incoming) then Ok(true)
    else if existing.datavalue.None? || incoming.datavalue.None? then Err(KeyError)
    else
      var ev := existing.datavalue.value;
      var nv := incoming.datavalue.value;
      if TypeTag(ev) != TypeTag(nv) then Ok(false)
      else if ev.GlobeCoordinateValue? then Ok(SameGlobePosition(nv.coord, ev.coord))
      else if ev.StringValue? && IsUrlProperty(existing.property) then
        Ok(EquivalentFlickrUrls(parse, ev.str, nv.str))
      else if ev.TimeDataValue? then EquivalentTimes(ev.time, nv.time)
      else Ok(nv == ev)
  }

  /** Two value snaks for the same property holding globe coordinates are
   *  equivalent iff altitude, globe, latitude and longitude agree: the
   *  precision is ignored. */
  lemma GlobeSnaksIgnorePrecision(parse: UrlParser, property: string, g1: GlobeValue, g2: GlobeValue, hash: Option<string>)
    ensures var existing := ValueSnakOf(property, GlobeCoordinateValue(g1)).(hash := hash);
            var incoming := ValueSnakOf(property, GlobeCoordinateValue(g2));
      EquivalentSnaks(parse, existing, incoming) == Ok(SameGlobePosition(g1, g2))
      && (SameGlobePosition(g1, g2) && g1.precision != g2.precision ==> EquivalentSnaks(parse, existing, incoming) == Ok(true))
  {
  }

  /** String values of the two URL properties are equivalent iff they
   *  point to the same Flickr page; for other properties iff equal. */
  lemma StringSnaks(parse: UrlParser, property: string, s1: string, s2: string)
    ensures var r := EquivalentSnaks(parse, ValueSnakOf(property, StringValue(s1)), ValueSnakOf(property, StringValue(s2)));
      if IsUrlProperty(property) then r == Ok(EquivalentFlickrUrls(parse, s1, s2)) else r == Ok(s1 == s2)
  {
  }

  /** Snaks whose data values have different types are never equivalent. */
  lemma DifferentTypesNotEquivalent(parse: UrlParser, existing: Snak, incoming: Snak)
    requires existing.datavalue.Some? && incoming.datavalue.Some?
    requires TypeTag(existing.datavalue.value) != TypeTag(incoming.datavalue.value)
    ensures EquivalentSnaks(parse, existing, incoming) == Ok(false)
  {
  }

  /** A snak is equivalent to itself when its time is well formed at a
   *  known precision and its Flickr URL, if compared as one, parses. */
  lemma EquivalentSnaksReflexive(parse: UrlParser, s: Snak)
    requires s.datavalue.Some?
    requires s.datavalue.value.TimeDataValue? ==>
      MatchesTimeFormat(s.datavalue.value.time.time) && s.datavalue.value.time.precision in {Year, Month, Day}
    requires s.datavalue.value.StringValue? && IsUrlProperty(s.property) ==> parse(s.datavalue.value.str).Parsed?
    ensures EquivalentSnaks(parse, s, s) == Ok(true)
  {
    var v := s.datavalue.value;
    if v.TimeDataValue? {
      TimeEquivalence(v.time, v.time, v.time);
    }
  }

  // ---------------------------------------------------------------------
  // Qualifiers and statements

  /** `existing_qualifiers.get(property_id, [])`. */
  function ExistingSnaks(existing: Qualifiers, property: string): (snaks: seq<Snak>)
    ensures property !in Keys(existing) ==> snaks == []
  {
    match Lookup(existing, property)
    case Some(v) => v
    case None => []
  }

  /** `any(are_equivalent_snaks(snak, incoming) for snak in existing)`: stops at
   *  the first equivalent snak; an error before it propagates. */
  function AnyEquivalent(parse: UrlParser, existing: seq<Snak>, incoming: Snak): (r: Result<bool>)
    ensures r == Ok(true) ==> exists i :: 0 <= i < |existing| && EquivalentSnaks(parse, existing[i], incoming) == Ok(true)
    ensures r == Ok(false) <==> forall i :: 0 <= i < |existing| ==> EquivalentSnaks(parse, existing[i], incoming) == Ok(false)
    ensures r.Err? ==> r.error == KeyError || r.error == ValueError
  {
    if existing == [] then Ok(false)
    else
      var found :- EquivalentSnaks(parse, existing[0], incoming);
      if found then Ok(true)
      else
        var r := AnyEquivalent(parse, existing[1..], incoming);
        assert forall i :: 1 <= i < |existing| ==> existing[i] == existing[1..][i - 1];
        r
  }

  /** `are_equivalent_qualifiers`: each new property's single snak must
   *  match one of the existing snaks for that property. */
  function EquivalentQualifiers(parse: UrlParser, existing: Qualifiers, incoming: Qualifiers): (r: Result<bool>)
    ensures incoming == [] ==> r == Ok(true)
    ensures r.Err? ==> r.error in {AssertionError, KeyError, ValueError}
  {
    if incoming == [] then Ok(true)
    else if |incoming[0].1| != 1 then Err(AssertionError)
    else
      var found :- AnyEquivalent(parse, ExistingSnaks(existing, incoming[0].0), incoming[0].1[0]);
      if !found then Ok(false) else EquivalentQualifiers(parse, existing, incoming[1..])
  }

  /** The new qualifiers are matched iff every new property carries exactly
   *  one snak and some existing snak of that property is equivalent to it
   *  (the search for it raising nothing). */
  lemma {:induction false} EquivalentQualifiersMeaning(parse: UrlParser, existing: Qualifiers, incoming: Qualifiers)
    ensures EquivalentQualifiers(parse, existing, incoming) == Ok(true) <==>
      forall i :: 0 <= i < |incoming| ==>
        |incoming[i].1| == 1 && AnyEquivalent(parse, ExistingSnaks(existing, incoming[i].0), incoming[i].1[0]) == Ok(true)
  {
    if incoming != [] {
      EquivalentQualifiersMeaning(parse, existing, incoming[1..]);
      assert forall i :: 1 <= i < |incoming| ==> incoming[i] == incoming[1..][i - 1];
    }
  }

  /** Qualifier equivalence is one-directional: existing qualifiers for
   *  properties the new statement does not mention never spoil a match. */
  lemma ExtraExistingQualifiersIgnored(parse: UrlParser, existing: Qualifiers, more: Qualifiers, incoming: Qualifiers)
    requires forall k :: k in Keys(existing) ==> Lookup(more, k) == Lookup(existing, k)
    requires EquivalentQualifiers(parse, existing, incoming) == Ok(true)
    ensures EquivalentQualifiers(parse, more, incoming) == Ok(true)
  {
    EquivalentQualifiersMeaning(parse, existing, incoming);
    EquivalentQualifiersMeaning(parse, more, incoming);
    forall i | 0 <= i < |incoming|
      ensures AnyEquivalent(parse, ExistingSnaks(more, incoming[i].0), incoming[i].1[0]) == Ok(true)
    {
      if incoming[i].0 !in Keys(existing) {
        assert ExistingSnaks(existing, incoming[i].0) == [];
      }
    }
  }

  /** `are_equivalent_statements`: the main snaks are compared first, then
   *  the qualifiers; both must match. */
  function EquivalentStatements(parse: UrlParser, existing: Statement, incoming: Statement): (r: Result<bool>)
    ensures EquivalentSnaks(parse, existing.mainsnak, incoming.mainsnak).Err? ==> r == EquivalentSnaks(parse, existing.mainsnak, incoming.mainsnak)
    ensures r == Ok(true) <==>
      EquivalentSnaks(parse, existing.mainsnak, incoming.mainsnak) == Ok(true)
      && EquivalentQualifiers(parse, existing.qualifiers.UnwrapOr([]), incoming.qualifiers.UnwrapOr([])) == Ok(true)
  {
    var mainSnaksMatch :- EquivalentSnaks(parse, existing.mainsnak, incoming.mainsnak);
    var qualifiersMatch :- EquivalentQualifiers(parse, existing.qualifiers.UnwrapOr([]), incoming.qualifiers.UnwrapOr([]));
    Ok(qualifiersMatch && mainSnaksMatch)
  }

  /** Statements whose main snaks hold data values of different types are
   *  never equivalent. */
  lemma DifferentMainTypesNotEquivalent(parse: UrlParser, existing: Statement, incoming: Statement)
    requires existing.mainsnak.datavalue.Some? && incoming.mainsnak.datavalue.Some?
    requires TypeTag(existing.mainsnak.datavalue.value) != TypeTag(incoming.mainsnak.datavalue.value)
    ensures EquivalentStatements(parse, existing, incoming) != Ok(true)
  {
    DifferentTypesNotEquivalent(parse, existing.mainsnak, incoming.mainsnak);
  }
}
