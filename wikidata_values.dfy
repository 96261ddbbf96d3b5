/** Encoders from Flickr-side values to Wikibase data values, and the
 *  renderer that turns a time value back into text
 *  (src/flickypedia/structured_data/types/wikidata_values.py). */
module WikidataValues {
  import opened Wrappers
  import opened Text
  import opened Dates
  import opened Sdc
  import WikidataEntities

  /** The `precision` argument, `Literal["day", "month", "year"]`. */
  datatype DatePrecision = DayPrecision | MonthPrecision | YearPrecision

  /** `WikidataDatePrecision`. */
  const Year := 9
  const Month := 10
  const Day := 11

  const GregorianCalendarUri := "http://www.wikidata.org/entity/" + WikidataEntities.GregorianCalendar

  function PrecisionValue(p: DatePrecision): (n: int)
    ensures p == DayPrecision <==> n == Day
    ensures p == MonthPrecision <==> n == Month
    ensures p == YearPrecision <==> n == Year
  {
    match p
    case DayPrecision => Day
    case MonthPrecision => Month
    case YearPrecision => Year
  }

  /** The name of a precision, as the older encoders take it. */
  function PrecisionName(p: DatePrecision): string {
    match p
    case DayPrecision => "day"
    case MonthPrecision => "month"
    case YearPrecision => "year"
  }

  /** The precision a name stands for; any other string names none. */
  function PrecisionNamed(name: string): (r: Option<DatePrecision>)
    ensures r.Some? <==> name in {"day", "month", "year"}
    ensures r.Some? ==> PrecisionName(r.value) == name
  {
    if name == "day" then Some(DayPrecision)
    else if name == "month" then Some(MonthPrecision)
    else if name == "year" then Some(YearPrecision)
    else None
  }

  /** Every precision is found again from its name. */
  lemma PrecisionNameRoundTrip(p: DatePrecision)
    ensures PrecisionNamed(PrecisionName(p)) == Some(p)
  {
  }

  /** The `time` string: `+%Y-%m-%dT00:00:00Z`, with the day (month
   *  precision) or month and day (year precision) written as `00`. */
  function TimeString(d: DateTime, p: DatePrecision): string
    requires Valid(d)
  {
    var mm := if p == YearPrecision then "00" else FormatMonth(d);
    var dd := if p == DayPrecision then FormatDay(d) else "00";
    "+" + FormatYear(d) + "-" + mm + "-" + dd + "T00:00:00Z"
  }

  /** The date a time string stands for at a given precision: the fields
   *  below the precision are dropped (set to 1, as `strptime` fills them). */
  function Truncate(d: DateTime, p: DatePrecision): DateTime {
    match p
    case DayPrecision => DateTime(d.year, d.month, d.day, 0, 0, 0)
    case MonthPrecision => DateTime(d.year, d.month, 1, 0, 0, 0)
    case YearPrecision => DateTime(d.year, 1, 1, 0, 0, 0)
  }

  /** `to_wikidata_date_value`. */
  function ToWikidataDateValue(d: DateTime, p: DatePrecision): (v: DataValue)
    requires Valid(d)
    ensures v.TimeDataValue?
    ensures v.time.precision == PrecisionValue(p)
    ensures v.time.timezone == 0 && v.time.before == 0 && v.time.after == 0
    ensures v.time.calendarmodel == GregorianCalendarUri
  {
    TimeDataValue(TimeValue(TimeString(d, p), PrecisionValue(p), 0, 0, 0, GregorianCalendarUri))
  }

  /** `re.match(r"^Q[0-9]+$", s)`: `$` also matches before one final
   *  newline. */
  predicate IsEntityId(s: string) {
    |s| >= 2 && s[0] == 'Q'
    && ((AllDigits(s[1..])) || (|s| >= 3 && s[|s| - 1] == '\n' && AllDigits(s[1..|s| - 1])))
  }

  /** The digits of an entity id, without its `Q` and any final newline
   *  (which `int()` ignores). */
  function EntityDigits(s: string): (ds: string)
    requires IsEntityId(s)
    ensures AllDigits(ds) && ds != []
  {
    if s[|s| - 1] == '\n' then s[1..|s| - 1] else s[1..]
  }

  /** `to_wikidata_entity_value`: the assertion on the id's shape fails
   *  with `AssertionError`. */
  function ToWikidataEntityValue(entityId: string): (r: Result<DataValue>)
    ensures r.Err? <==> !IsEntityId(entityId)
    ensures r.Err? ==> r.error == AssertionError
    ensures r.Ok? ==> r.value == EntityIdValue(Some("item"), entityId, Some(DigitsToNat(EntityDigits(entityId))))
  {
    if IsEntityId(entityId) then
      Ok(EntityIdValue(Some("item"), entityId, Some(DigitsToNat(EntityDigits(entityId)))))
    else Err(AssertionError)
  }

  /** `to_wikidata_string_value`: the string itself, tagged "string". */
  function ToWikidataStringValue(value: string): (v: DataValue)
    ensures v.StringValue? && v.str == value
  {
    StringValue(value)
  }

  // ---------------------------------------------------------------------
  // Parsing a time string back, as `datetime.strptime` does with the
  // patterns `render_wikidata_date` uses

  predicate DigitsAt(s: string, i: nat, n: nat) {
    i + n <= |s| && AllDigits(s[i..i + n])
  }

  /** `(?P<m>1[0-2]|0[1-9]|[1-9])`, what `strptime` accepts for `%m`. */
  predicate IsMonthField(f: string) {
    || (|f| == 1 && '1' <= f[0] <= '9')
    || (|f| == 2 && ((f[0] == '0' && '1' <= f[1] <= '9') || (f[0] == '1' && '0' <= f[1] <= '2')))
  }

  /** `(?P<d>3[01]|[12]\d|0[1-9]|[1-9]| [1-9])`, what `strptime` accepts
   *  for `%d`. */
  predicate IsDayField(f: string) {
    || (|f| == 1 && '1' <= f[0] <= '9')
    || (|f| == 2 && (|| (f[0] == '3' && '0' <= f[1] <= '1')
                     || ((f[0] == '1' || f[0] == '2') && IsDigit(f[1]))
                     || (f[0] == '0' && '1' <= f[1] <= '9')
                     || (f[0] == ' ' && '1' <= f[1] <= '9')))
  }

  /** `int()` of a matched month or day: its digits, after the space a
   *  day may start with. */
  function FieldValue(f: string): nat
    requires IsMonthField(f) || IsDayField(f)
  {
    if f[0] == ' ' then DigitsToNat(f[1..]) else DigitsToNat(f)
  }

  /** `s` is the literal `lit` under `re.IGNORECASE`: each letter in
   *  either case, every other character as it is. */
  predicate MatchesIgnoringCase(s: string, lit: string) {
    |s| == |lit| && forall i :: 0 <= i < |s| ==> s[i] == lit[i] || ('A' <= lit[i] <= 'Z' && s[i] as int == lit[i] as int + 32)
  }

  /** What follows the day in every pattern `render_wikidata_date` uses. */
  const TimeTail := "T00:00:00Z"

  /** The month field of `+YYYY-…`, which runs to the next '-': its value
   *  and the index of that '-'. */
  function MonthAt(s: string): (r: Option<(nat, nat)>)
    ensures r.Some? ==> 7 <= r.value.1 <= 8 && r.value.1 < |s| && s[r.value.1] == '-'
  {
    var k := if |s| > 7 && s[7] == '-' then 7 else 8;
    if |s| <= k || s[k] != '-' || !IsMonthField(s[6..k]) then None
    else Some((FieldValue(s[6..k]), k))
  }

  /** `strptime(s, "+%Y-%m-%dT00:00:00Z")` and its month and year forms,
   *  which must match the whole of `s`: the month field runs to the next
   *  '-', the day field to the fixed tail, and the date must exist. */
  function ParseTime(s: string, p: DatePrecision): (r: Result<DateTime>)
    ensures r.Ok? ==> ValidDate(r.value.year, r.value.month, r.value.day)
    ensures r.Ok? ==> r.value.hour == 0 && r.value.minute == 0 && r.value.second == 0
    ensures r.Ok? && p != DayPrecision ==> r.value.day == 1
    ensures r.Ok? && p == YearPrecision ==> r.value.month == 1
    ensures r.Ok? ==> |s| >= 6 && s[0] == '+' && DigitsAt(s, 1, 4) && r.value.year == DigitsToNat(s[1..5])
    ensures r.Err? ==> r.error == ValueError
  {
    if |s| < 6 || s[0] != '+' || !DigitsAt(s, 1, 4) || s[5] != '-' then Err(ValueError)
    else
      var y := DigitsToNat(s[1..5]);
      match p
      case YearPrecision =>
        if MatchesIgnoringCase(s[5..], "-00-00" + TimeTail) && ValidDate(y, 1, 1) then Ok(DateTime(y, 1, 1, 0, 0, 0))
        else Err(ValueError)
      case MonthPrecision =>
        (match MonthAt(s)
         case None => Err(ValueError)
         case Some((m, k)) =>
           if MatchesIgnoringCase(s[k..], "-00" + TimeTail) && ValidDate(y, m, 1) then Ok(DateTime(y, m, 1, 0, 0, 0))
           else Err(ValueError))
      case DayPrecision =>
        match MonthAt(s)
        case None => Err(ValueError)
        case Some((m, k)) =>
          if |s| < k + 1 + |TimeTail| || !MatchesIgnoringCase(s[|s| - |TimeTail|..], TimeTail)
             || !IsDayField(s[k + 1..|s| - |TimeTail|]) then Err(ValueError)
          else
            var dd := FieldValue(s[k + 1..|s| - |TimeTail|]);
            if ValidDate(y, m, dd) then Ok(DateTime(y, m, dd, 0, 0, 0)) else Err(ValueError)
  }

  lemma Year2023()
    ensures AllDigits("2023") && DigitsToNat("2023") == 2023
  {
    assert "2023"[..3] == "202" && "202"[..2] == "20" && "20"[..1] == "2" && "2"[..0] == [];
  }

  /** `strptime` also takes a month or day without its leading zero and
   *  the letters of the tail in lower case. */
  lemma ParseTimeAcceptsShortFields()
    ensures ParseTime("+2023-1-5t00:00:00z", DayPrecision) == Ok(DateTime(2023, 1, 5, 0, 0, 0))
  {
    var a := "+2023-1-5t00:00:00z";
    assert |a| == 19;
    assert a[1..5] == "2023";
    assert a[6..7] == "1";
    assert a[8..9] == "5";
    assert a[9..] == "t00:00:00z";
    assert "1"[..0] == [] && "5"[..0] == [];
    Year2023();
    assert MonthAt(a) == Some((1, 7));
  }

  /** ... a day padded with a space, as `%d` allows. */
  lemma ParseTimeAcceptsSpacedDay()
    ensures ParseTime("+2023-10- 5T00:00:00Z", DayPrecision) == Ok(DateTime(2023, 10, 5, 0, 0, 0))
  {
    var b := "+2023-10- 5T00:00:00Z";
    assert |b| == 21;
    assert b[1..5] == "2023";
    assert b[6..8] == "10";
    assert b[9..11] == " 5";
    assert b[11..] == TimeTail;
    assert " 5"[1..] == "5" && "5"[..0] == [];
    assert "10"[..1] == "1" && "1"[..0] == [];
    Year2023();
    assert MonthAt(b) == Some((10, 8));
  }

  /** ... and a one-digit month at month precision. */
  lemma ParseTimeAcceptsShortMonth()
    ensures ParseTime("+2023-7-00T00:00:00Z", MonthPrecision) == Ok(DateTime(2023, 7, 1, 0, 0, 0))
  {
    var c := "+2023-7-00T00:00:00Z";
    assert |c| == 20;
    assert c[1..5] == "2023";
    assert c[6..7] == "7";
    assert c[7..] == "-00" + TimeTail;
    assert "7"[..0] == [];
    Year2023();
    assert MonthAt(c) == Some((7, 7));
  }

  /** A day the month does not have is a `ValueError`. */
  lemma ParseTimeRejectsMissingDay()
    ensures ParseTime("+2023-02-30T00:00:00Z", DayPrecision) == Err(ValueError)
  {
    var s := "+2023-02-30T00:00:00Z";
    assert |s| == 21;
    assert s[1..5] == "2023";
    assert s[6..8] == "02";
    assert s[9..11] == "30";
    Year2023();
    assert DigitsToNat("02") == 2 by { assert "02"[..1] == "0" && "0"[..0] == []; }
    assert DigitsToNat("30") == 30 by { assert "30"[..1] == "3" && "3"[..0] == []; }
  }

  /** A zero-padded month is a month field with that value. */
  lemma PaddedMonth(m: nat)
    requires 1 <= m <= 12
    ensures IsMonthField(Pad2(m)) && FieldValue(Pad2(m)) == m
  {
    var f := Pad2(m);
    assert f == [DigitChar(m / 10), DigitChar(m % 10)];
    assert "0123456789"[0] == '0' && "0123456789"[1] == '1' && "0123456789"[2] == '2';
  }

  /** A zero-padded day is a day field with that value. */
  lemma PaddedDay(d: nat)
    requires 1 <= d <= 31
    ensures IsDayField(Pad2(d)) && FieldValue(Pad2(d)) == d
  {
    var f := Pad2(d);
    assert f == [DigitChar(d / 10), DigitChar(d % 10)];
    assert "0123456789"[0] == '0' && "0123456789"[1] == '1' && "0123456789"[2] == '2' && "0123456789"[3] == '3';
  }

  /** The pieces of a time string, where `ParseTime` looks for them. */
  lemma TimeStringShape(d: DateTime, p: DatePrecision)
    requires Valid(d) && d.year >= 1000
    ensures var s := TimeString(d, p);
      && |s| == 21 && s[0] == '+' && s[5] == '-' && s[8] == '-'
      && s[1..5] == FormatYear(d) && AllDigits(s[1..5]) && DigitsToNat(s[1..5]) == d.year
      && s[6..8] == (if p == YearPrecision then "00" else FormatMonth(d))
      && s[9..11] == (if p == DayPrecision then FormatDay(d) else "00")
      && s[11..] == TimeTail
  {
    var ys := FormatYear(d);
    FourDigitYear(d.year);
    NatToStringRoundTrip(d.year);
    var mm := if p == YearPrecision then "00" else FormatMonth(d);
    var dd := if p == DayPrecision then FormatDay(d) else "00";
    assert |ys| == 4 && |mm| == 2 && |dd| == 2;
    var s := TimeString(d, p);
    assert s == "+" + ys + "-" + mm + "-" + dd + TimeTail;
  }

  /** Parsing the time string written for a date gives the date back, at
   *  the precision it was written with (four-digit years). */
  lemma TimeStringRoundTrip(d: DateTime, p: DatePrecision)
    requires Valid(d) && d.year >= 1000
    ensures ParseTime(TimeString(d, p), p) == Ok(Truncate(d, p))
  {
    var s := TimeString(d, p);
    TimeStringShape(d, p);
    assert DigitsAt(s, 1, 4);
    if p != YearPrecision {
      PaddedMonth(d.month);
      assert s[6..8] == Pad2(d.month);
      assert MonthAt(s) == Some((d.month, 8));
    }
    if p == DayPrecision {
      PaddedDay(d.day);
      assert s[9..|s| - |TimeTail|] == Pad2(d.day);
      assert s[|s| - |TimeTail|..] == TimeTail;
    } else if p == MonthPrecision {
      assert s[8..] == "-00" + TimeTail;
      assert ValidDate(d.year, d.month, 1);
    } else {
      assert s[5..] == "-00-00" + TimeTail;
      assert ValidDate(d.year, 1, 1);
    }
  }

  /** The time string of a value `to_wikidata_date_value` writes parses
   *  back to the date at its precision (four-digit years). */
  lemma DateValueRoundTrip(d: DateTime, p: DatePrecision)
    requires Valid(d) && d.year >= 1000
    ensures ParseTime(ToWikidataDateValue(d, p).time.time, p) == Ok(Truncate(d, p))
  {
    TimeStringRoundTrip(d, p);
  }

  /** `render_wikidata_date`. */
  function RenderWikidataDate(v: TimeValue): (r: Result<string>)
    ensures v.calendarmodel != GregorianCalendarUri ==> r == Err(AssertionError)
    ensures v.calendarmodel == GregorianCalendarUri && v.precision !in {9, 10, 11} ==> r == Err(AssertionError)
  {
    if v.calendarmodel != GregorianCalendarUri then Err(AssertionError)
    else if v.precision == 11 then
      var d :- ParseTime(v.time, DayPrecision);
      Ok(NatToString(d.day) + " " + MonthName(d.month) + " " + NatToString(d.year))
    else if v.precision == 10 then
      var d :- ParseTime(v.time, MonthPrecision);
      Ok(MonthName(d.month) + " " + NatToString(d.year))
    else if v.precision == 9 then
      var d :- ParseTime(v.time, YearPrecision);
      Ok(NatToString(d.year))
    else Err(AssertionError)
  }

  /** A date as the renderer writes it at a precision: "D Month YYYY"
   *  (no leading zero), "Month YYYY" or "YYYY". */
  function DateText(d: DateTime, p: DatePrecision): string
    requires Valid(d)
  {
    match p
    case DayPrecision => NatToString(d.day) + " " + MonthName(d.month) + " " + NatToString(d.year)
    case MonthPrecision => MonthName(d.month) + " " + NatToString(d.year)
    case YearPrecision => NatToString(d.year)
  }

  /** Every value `to_wikidata_date_value` writes passes the renderer's
   *  calendar and precision checks and parses back: it renders as the
   *  date's text at its precision. */
  lemma RenderDateValue(d: DateTime, p: DatePrecision)
    requires Valid(d) && d.year >= 1000
    ensures RenderWikidataDate(ToWikidataDateValue(d, p).time) == Ok(DateText(d, p))
  {
    DateValueRoundTrip(d, p);
  }
}
