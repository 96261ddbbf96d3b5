/** Calendar dates as integer records, and the `strftime`/`strptime`
 *  directives the modelled code uses, written out explicitly.
 *
 *  `%Y` is the platform C library's: the year in decimal without padding
 *  (a year below 1000 has fewer than four digits). `%m` and `%d` are two
 *  digits, `%-d` has no padding, `%B` is the English month name. */
module Dates {
  import opened Text

  datatype DateTime = DateTime(year: int, month: int, day: int, hour: int, minute: int, second: int)

  predicate IsLeapYear(y: int) {
    (y % 4 == 0 && y % 100 != 0) || y % 400 == 0
  }

  function DaysInMonth(y: int, m: int): (n: int)
    requires 1 <= m <= 12
    ensures 28 <= n <= 31
  {
    if m == 2 then (if IsLeapYear(y) then 29 else 28)
    else if m == 4 || m == 6 || m == 9 || m == 11 then 30
    else 31
  }

  /** A value Python's `datetime` accepts. */
  predicate ValidDate(year: int, month: int, day: int) {
    1 <= year <= 9999 && 1 <= month <= 12 && 1 <= day <= DaysInMonth(year, month)
  }

  predicate Valid(d: DateTime) {
    ValidDate(d.year, d.month, d.day)
    && 0 <= d.hour < 24 && 0 <= d.minute < 60 && 0 <= d.second < 60
  }

  /** A Python `datetime` object: always a valid date and time. */
  type Timestamp = d: DateTime | Valid(d) witness DateTime(1970, 1, 1, 0, 0, 0)

  function MonthName(m: int): string
    requires 1 <= m <= 12
  {
    ["January", "February", "March", "April", "May", "June", "July",
     "August", "September", "October", "November", "December"][m - 1]
  }

  /** `%Y`. */
  function FormatYear(d: DateTime): string
    requires Valid(d)
  {
    NatToString(d.year)
  }

  /** `%m`. */
  function FormatMonth(d: DateTime): string
    requires Valid(d)
  {
    Pad2(d.month)
  }

  /** `%d`. */
  function FormatDay(d: DateTime): string
    requires Valid(d)
  {
    Pad2(d.day)
  }

  /** `%H:%M:%S`. */
  function FormatClock(d: DateTime): string
    requires Valid(d)
  {
    Pad2(d.hour) + ":" + Pad2(d.minute) + ":" + Pad2(d.second)
  }

  /** The year written by `%Y` has exactly four digits from year 1000 on. */
  lemma FourDigitYear(y: int)
    requires 1000 <= y <= 9999
    ensures NatToString(y) == [DigitChar(y / 1000), DigitChar(y / 100 % 10), DigitChar(y / 10 % 10), DigitChar(y % 10)]
  {
    var a, b, c := y / 1000, y / 100, y / 10;
    assert c / 10 == b && b / 10 == a;
    assert NatToString(a) == [DigitChar(a)];
    assert NatToString(b) == NatToString(a) + [DigitChar(b % 10)];
    assert NatToString(c) == NatToString(b) + [DigitChar(c % 10)];
    assert NatToString(y) == NatToString(c) + [DigitChar(y % 10)];
  }
}
