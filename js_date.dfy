/**
 * The part of JavaScript's `Date` (local time) that the date helpers and the
 * filter bar rely on: the `new Date(y, m, d, h, mi, s)` constructor with its
 * two-digit-year rule and month/day overflow, `setDate`, the field getters and
 * `getDay`. Dates are proleptic Gregorian; months are 0-based as in `getMonth()`.
 */
module JsDate {

  predicate IsLeapYear(y: int)
  {
    y % 4 == 0 && (y % 100 != 0 || y % 400 == 0)
  }

  function DaysInYear(y: int): int
  {
    if IsLeapYear(y) then 366 else 365
  }

  function DaysInMonth(y: int, m: int): (n: int)
    requires 0 <= m < 12
    ensures 28 <= n <= 31
  {
    if m == 1 then (if IsLeapYear(y) then 29 else 28)
    else if m == 3 || m == 5 || m == 8 || m == 10 then 30
    else 31
  }

  /** Days in the months of year `y` before month `m` (`m == 12` gives the whole year). */
  function DaysBeforeMonth(y: int, m: int): int
    requires 0 <= m <= 12
  {
    var leap := if IsLeapYear(y) then 1 else 0;
    if m == 0 then 0 else if m == 1 then 31 else if m == 2 then 59 + leap
    else if m == 3 then 90 + leap else if m == 4 then 120 + leap
    else if m == 5 then 151 + leap else if m == 6 then 181 + leap
    else if m == 7 then 212 + leap else if m == 8 then 243 + leap
    else if m == 9 then 273 + leap else if m == 10 then 304 + leap
    else if m == 11 then 334 + leap else 365 + leap
  }

  /** Days from 1 January 1970 to 1 January of year `y` (negative before 1970). */
  function DaysBeforeYear(y: int): int
    decreases if y >= 1970 then y - 1970 else 1970 - y
  {
    if y == 1970 then 0
    else if y > 1970 then DaysBeforeYear(y - 1) + DaysInYear(y - 1)
    else DaysBeforeYear(y + 1) - DaysInYear(y)
  }

  /** Day count since 1970-01-01 of day `d` of month `m` of year `y`; `d` may lie outside the month. */
  function DayNumber(y: int, m: int, d: int): int
    requires 0 <= m < 12
  {
    DaysBeforeYear(y) + DaysBeforeMonth(y, m) + d - 1
  }

  lemma YearStep(y: int)
    ensures DaysBeforeYear(y + 1) == DaysBeforeYear(y) + DaysInYear(y)
  {
  }

  lemma MonthStep(y: int, m: int)
    requires 0 <= m < 12
    ensures DaysBeforeMonth(y, m + 1) == DaysBeforeMonth(y, m) + DaysInMonth(y, m)
    ensures DaysBeforeMonth(y, 12) == DaysInYear(y)
  {
  }

  /** The first day of the month after `m` comes `DaysInMonth(y, m)` days after the first day of `m`. */
  lemma NextMonthStart(y: int, m: int)
    requires 0 <= m < 12
    ensures m < 11 ==> DayNumber(y, m + 1, 1) == DayNumber(y, m, 1) + DaysInMonth(y, m)
    ensures m == 11 ==> DayNumber(y + 1, 0, 1) == DayNumber(y, m, 1) + DaysInMonth(y, m)
  {
    MonthStep(y, m);
    YearStep(y);
  }

  /**
   * Brings a day that may lie outside month `m` of year `y` back into range by
   * stepping whole months, as `Date` does for `new Date(y, m, 0)` or
   * `setDate(getDate() - 6)`. The result denotes the same day.
   */
  function NormalizeDay(y: int, m: int, d: int): (r: (int, int, int))
    requires 0 <= m < 12
    ensures 0 <= r.1 < 12 && 1 <= r.2 <= DaysInMonth(r.0, r.1)
    ensures DayNumber(r.0, r.1, r.2) == DayNumber(y, m, d)
    ensures 1 <= d <= DaysInMonth(y, m) ==> r == (y, m, d)
    decreases if d < 1 then 100 - d else d
  {
    if d < 1 then
      var py := if m == 0 then y - 1 else y;
      var pm := if m == 0 then 11 else m - 1;
      NextMonthStart(py, pm);
      NormalizeDay(py, pm, d + DaysInMonth(py, pm))
    else if d > DaysInMonth(y, m) then
      var ny := if m == 11 then y + 1 else y;
      var nm := if m == 11 then 0 else m + 1;
      NextMonthStart(y, m);
      NormalizeDay(ny, nm, d - DaysInMonth(y, m))
    else (y, m, d)
  }

  /** A `Date` value: "Invalid Date" or a local date-time with `getMonth()`-style 0-based month. */
  datatype Date =
    | InvalidDate
    | DateTime(year: int, month: int, day: int, hours: int, minutes: int, seconds: int)

  predicate WellFormed(d: Date)
  {
    d.InvalidDate? ||
    (0 <= d.month < 12 && 1 <= d.day <= DaysInMonth(d.year, d.month) &&
     0 <= d.hours < 24 && 0 <= d.minutes < 60 && 0 <= d.seconds < 60)
  }

  /** The values a `Date` object can hold: every field of a valid date is in range. */
  type JsDate = d: Date | WellFormed(d) witness InvalidDate

  /** `new Date(y, ...)` reads a year from 0 to 99 as 1900 + y. */
  function FullYear(y: int): int
  {
    if 0 <= y <= 99 then 1900 + y else y
  }

  /**
   * `new Date(y, m, d, h, mi, s)` for finite arguments; the source only ever
   * passes in-range times. Month overflow carries into the year (floor
   * division), day overflow into neighbouring months.
   */
  function NewDate(y: int, m: int, d: int, h: int, mi: int, s: int): (r: JsDate)
    requires 0 <= h < 24 && 0 <= mi < 60 && 0 <= s < 60
    ensures r.DateTime? && r.hours == h && r.minutes == mi && r.seconds == s
    ensures DayNumber(r.year, r.month, r.day) == DayNumber(FullYear(y) + m / 12, m % 12, d)
    ensures 0 <= m < 12 && 1 <= d <= DaysInMonth(FullYear(y), m) ==> r == DateTime(FullYear(y), m, d, h, mi, s)
  {
    var t := NormalizeDay(FullYear(y) + m / 12, m % 12, d);
    DateTime(t.0, t.1, t.2, h, mi, s)
  }

  /** `date.setDate(day)`: same month as reference, overflow carried, time kept. */
  function SetDate(date: JsDate, day: int): (r: JsDate)
    ensures date.InvalidDate? <==> r.InvalidDate?
    ensures r.DateTime? ==> DayNumber(r.year, r.month, r.day) == DayNumber(date.year, date.month, day)
    ensures r.DateTime? ==> r.hours == date.hours && r.minutes == date.minutes && r.seconds == date.seconds
  {
    match date
    case InvalidDate => InvalidDate
    case DateTime(y, m, _, h, mi, s) =>
      var t := NormalizeDay(y, m, day);
      DateTime(t.0, t.1, t.2, h, mi, s)
  }

  /** Day count since 1970-01-01 of a valid date. */
  function DayOf(d: JsDate): int
    requires d.DateTime?
  {
    DayNumber(d.year, d.month, d.day)
  }

  /** `getDay()`: 0 is Sunday; 1 January 1970 was a Thursday. */
  function Weekday(d: JsDate): (w: int)
    requires d.DateTime?
    ensures 0 <= w < 7
  {
    (DayOf(d) + 4) % 7
  }

  /** Two valid dates on the same day number are the same calendar day. */
  lemma {:induction false} SameDayNumberSameDate(a: JsDate, b: JsDate)
    requires a.DateTime? && b.DateTime?
    requires DayOf(a) == DayOf(b)
    ensures a.year == b.year && a.month == b.month && a.day == b.day
  {
    YearBounds(a);
    YearBounds(b);
    if a.year < b.year {
      DaysBeforeYearMonotone(a.year + 1, b.year);
      assert false;
    } else if b.year < a.year {
      DaysBeforeYearMonotone(b.year + 1, a.year);
      assert false;
    } else if a.month < b.month {
      MonthBeforeLater(a.year, a.month, b.month);
      assert false;
    } else if b.month < a.month {
      MonthBeforeLater(a.year, b.month, a.month);
      assert false;
    }
  }

  /** A valid date's day number lies within its year. */
  lemma YearBounds(d: JsDate)
    requires d.DateTime?
    ensures DaysBeforeYear(d.year) <= DayOf(d) < DaysBeforeYear(d.year + 1)
  {
    MonthBeforeLater(d.year, d.month, 12);
  }

  lemma {:induction false} DaysBeforeYearMonotone(a: int, b: int)
    requires a <= b
    ensures DaysBeforeYear(a) + 365 * (b - a) <= DaysBeforeYear(b)
    decreases b - a
  {
    if a < b {
      DaysBeforeYearMonotone(a + 1, b);
      YearStep(a);
    }
  }

  /** Within a year, all days of an earlier month come before the first day of a later one. */
  lemma {:induction false} MonthBeforeLater(y: int, m: int, n: int)
    requires 0 <= m < n <= 12
    ensures DaysBeforeMonth(y, m) + DaysInMonth(y, m) <= DaysBeforeMonth(y, n)
    decreases n - m
  {
    MonthStep(y, m);
    if m + 1 < n {
      MonthBeforeLater(y, m + 1, n);
    }
  }
}
