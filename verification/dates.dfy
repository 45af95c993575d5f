/** Calendar dates as the pages read them from a JavaScript `Date` in local time:
    `getFullYear()`, `getMonth()` (0 = January) and `getDate()`. */
module Dates {

  datatype CalendarDate = CalendarDate(year: int, month: nat, day: nat)

  /** Chronological order of calendar dates: by year, then month, then day. */
  predicate DateLe(a: CalendarDate, b: CalendarDate) {
    a.year < b.year || (a.year == b.year && (a.month < b.month || (a.month == b.month && a.day <= b.day)))
  }

  function DigitChar(d: nat): char
    requires d < 10
  {
    "0123456789"[d]
  }

  /** Decimal digits without padding, as a template literal prints a number. */
  function NatToString(n: nat): (s: string)
    ensures |s| >= 1
    ensures forall i :: 0 <= i < |s| ==> '0' <= s[i] <= '9'
  {
    if n < 10 then [DigitChar(n)] else NatToString(n / 10) + [DigitChar(n % 10)]
  }

  /** A year as a template literal prints it, with a minus sign before the years BC. */
  function YearToString(y: int): string {
    if y < 0 then "-" + NatToString(-y) else NatToString(y)
  }

  /** `${y}-${m}-${d}`: the day key the journal builds, with the 0-based month and no zero padding. */
  function DayKey(d: CalendarDate): string {
    YearToString(d.year) + "-" + NatToString(d.month) + "-" + NatToString(d.day)
  }

  /** Days since 1970-01-01 in the proleptic Gregorian calendar (0-based month),
      so that consecutive calendar days get consecutive numbers. */
  function DayNumber(d: CalendarDate): int {
    var m := d.month + 1;
    var y := if m <= 2 then d.year - 1 else d.year;
    var era := y / 400;
    var yearOfEra := y - era * 400;
    var dayOfYear := (153 * (if m > 2 then m - 3 else m + 9) + 2) / 5 + d.day - 1;
    var dayOfEra := yearOfEra * 365 + yearOfEra / 4 - yearOfEra / 100 + dayOfYear;
    era * 146097 + dayOfEra - 719468
  }
}
