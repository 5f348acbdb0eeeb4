/**
 * The part of the JavaScript `Date` object the application relies on, in local time:
 * the proleptic Gregorian calendar, `new Date(year, month, day)` with its roll-over of
 * out-of-range months and days, and the field getters `getFullYear`, `getMonth`
 * (0 = January), `getDate` and `getDay` (0 = Sunday).
 *
 * A calendar day is an absolute day number: day 0 is 1 January 1970 (a Thursday).
 * An instant is a whole number of minutes since 00:00 of day 0; time zones and
 * daylight-saving shifts are not modelled, so every day has 1440 minutes.
 */
module JsDate {

  const MinutesPerDay: int := 1440
  const EpochYear: int := 1970

  /** A date as `getFullYear()`, `getMonth()` (0..11) and `getDate()` report it. */
  datatype Civil = Civil(year: int, month: int, day: int)

  /** The value of a JavaScript `Date`: an instant, or the invalid date (`NaN` time). */
  datatype Instant = Invalid | At(minute: int)

  predicate IsLeapYear(y: int)
  {
    (y % 4 == 0 && y % 100 != 0) || y % 400 == 0
  }

  function DaysInYear(y: int): (n: int)
    ensures n == (if IsLeapYear(y) then 366 else 365)
  {
    if IsLeapYear(y) then 366 else 365
  }

  /** Length of month `m` (0 = January) of year `y`. */
  function DaysInMonth(y: int, m: int): int
    requires 0 <= m < 12
  {
    if m == 1 then (if IsLeapYear(y) then 29 else 28)
    else if m == 3 || m == 5 || m == 8 || m == 10 then 30
    else 31
  }

  lemma DaysInMonthRange(y: int, m: int)
    requires 0 <= m < 12
    ensures 28 <= DaysInMonth(y, m) <= 31
    ensures m == 1 ==> (DaysInMonth(y, m) == 29 <==> IsLeapYear(y))
    ensures m != 1 ==> DaysInMonth(y, m) >= 30
  {
  }

  /** Days of year `y` that come before the first of month `m`. */
  function DaysBeforeMonth(y: int, m: int): int
    requires 0 <= m <= 12
  {
    [0, 31, 59, 90, 120, 151, 181, 212, 243, 273, 304, 334, 365][m]
      + (if m >= 2 && IsLeapYear(y) then 1 else 0)
  }

  lemma DaysBeforeMonthStep(y: int, m: int)
    requires 0 <= m < 12
    ensures DaysBeforeMonth(y, m + 1) == DaysBeforeMonth(y, m) + DaysInMonth(y, m)
  {
  }

  lemma DaysBeforeMonthMonotone(y: int, a: int, b: int)
    requires 0 <= a <= b <= 12
    ensures DaysBeforeMonth(y, a) + 28 * (b - a) <= DaysBeforeMonth(y, b)
    decreases b - a
  {
    if a < b {
      DaysBeforeMonthStep(y, a);
      DaysBeforeMonthMonotone(y, a + 1, b);
    }
  }

  /** Days from 1 January 1970 to 1 January of year `y` (negative before 1970). */
  function DaysBeforeYear(y: int): int
    decreases if y >= EpochYear then y - EpochYear else EpochYear - y
  {
    if y == EpochYear then 0
    else if y > EpochYear then DaysBeforeYear(y - 1) + DaysInYear(y - 1)
    else DaysBeforeYear(y + 1) - DaysInYear(y)
  }

  lemma DaysBeforeYearStep(y: int)
    ensures DaysBeforeYear(y + 1) == DaysBeforeYear(y) + DaysInYear(y)
  {
  }

  lemma {:induction false} DaysBeforeYearMonotone(a: int, b: int)
    requires a <= b
    ensures DaysBeforeYear(a) + 365 * (b - a) <= DaysBeforeYear(b)
    decreases b - a
  {
    if a < b {
      DaysBeforeYearStep(a);
      DaysBeforeYearMonotone(a + 1, b);
    }
  }

  /** The year containing day `n`, found by walking up from year `y`. */
  function YearUp(n: int, y: int): (r: int)
    requires DaysBeforeYear(y) <= n
    ensures DaysBeforeYear(r) <= n < DaysBeforeYear(r + 1)
    decreases n - DaysBeforeYear(y)
  {
    DaysBeforeYearStep(y);
    if n < DaysBeforeYear(y + 1) then y else YearUp(n, y + 1)
  }

  /** The year containing day `n`, found by walking down from year `y`. */
  function YearDown(n: int, y: int): (r: int)
    requires n < DaysBeforeYear(y + 1)
    ensures DaysBeforeYear(r) <= n < DaysBeforeYear(r + 1)
    decreases DaysBeforeYear(y + 1) - n
  {
    DaysBeforeYearStep(y);
    if DaysBeforeYear(y) <= n then y else YearDown(n, y - 1)
  }

  function YearOfDay(n: int): (y: int)
    ensures DaysBeforeYear(y) <= n < DaysBeforeYear(y + 1)
  {
    if n >= 0 then YearUp(n, EpochYear) else YearDown(n, EpochYear - 1)
  }

  /** The month (0..11) of year `y` that contains day `d` of that year (0-based). */
  function MonthFrom(y: int, d: int, m: int): (r: int)
    requires 0 <= m < 12
    requires DaysBeforeMonth(y, m) <= d < DaysInYear(y)
    ensures m <= r < 12
    ensures DaysBeforeMonth(y, r) <= d < DaysBeforeMonth(y, r + 1)
    decreases 12 - m
  {
    if d < DaysBeforeMonth(y, m + 1) then m else MonthFrom(y, d, m + 1)
  }

  predicate ValidCivil(c: Civil)
  {
    0 <= c.month < 12 && 1 <= c.day <= DaysInMonth(c.year, c.month)
  }

  /** The day number of a valid date. */
  function DaysFromCivil(c: Civil): int
    requires 0 <= c.month < 12
  {
    DaysBeforeYear(c.year) + DaysBeforeMonth(c.year, c.month) + c.day - 1
  }

  /** The date of day number `n`; it is valid and names `n` again. */
  function CivilFromDays(n: int): (c: Civil)
    ensures ValidCivil(c)
    ensures DaysFromCivil(c) == n
  {
    var y := YearOfDay(n);
    var d := n - DaysBeforeYear(y);
    var m := MonthFrom(y, d, 0);
    DaysBeforeMonthStep(y, m);
    Civil(y, m, d - DaysBeforeMonth(y, m) + 1)
  }

  lemma {:induction false} YearUnique(n: int, a: int, b: int)
    requires DaysBeforeYear(a) <= n < DaysBeforeYear(a + 1)
    requires DaysBeforeYear(b) <= n < DaysBeforeYear(b + 1)
    ensures a == b
  {
    if a < b {
      DaysBeforeYearMonotone(a + 1, b);
    } else if b < a {
      DaysBeforeYearMonotone(b + 1, a);
    }
  }

  lemma MonthUnique(y: int, d: int, a: int, b: int)
    requires 0 <= a < 12 && 0 <= b < 12
    requires DaysBeforeMonth(y, a) <= d < DaysBeforeMonth(y, a + 1)
    requires DaysBeforeMonth(y, b) <= d < DaysBeforeMonth(y, b + 1)
    ensures a == b
  {
    if a < b {
      DaysBeforeMonthMonotone(y, a + 1, b);
    } else if b < a {
      DaysBeforeMonthMonotone(y, b + 1, a);
    }
  }

  /** Every valid date is the date of its own day number. */
  lemma CivilRoundTrip(c: Civil)
    requires ValidCivil(c)
    ensures CivilFromDays(DaysFromCivil(c)) == c
  {
    var n := DaysFromCivil(c);
    var r := CivilFromDays(n);
    DaysBeforeMonthStep(c.year, c.month);
    DaysBeforeMonthMonotone(c.year, c.month + 1, 12);
    DaysBeforeYearStep(c.year);
    DaysBeforeMonthStep(r.year, r.month);
    DaysBeforeMonthMonotone(r.year, r.month + 1, 12);
    DaysBeforeYearStep(r.year);
    YearUnique(n, c.year, r.year);
    MonthUnique(c.year, n - DaysBeforeYear(c.year), c.month, r.month);
  }

  /** Two days with the same date are the same day. */
  lemma CivilInjective(a: int, b: int)
    ensures CivilFromDays(a) == CivilFromDays(b) <==> a == b
  {
  }

  /** `getDay()`: 0 = Sunday; day 0 (1 January 1970) was a Thursday. */
  function Weekday(n: int): (w: int)
    ensures 0 <= w < 7
  {
    (n + 4) % 7
  }

  /** The day number of an instant (local midnight to midnight). */
  function DayOf(t: int): int
  {
    t / MinutesPerDay
  }

  function CivilOf(t: int): Civil
  {
    CivilFromDays(DayOf(t))
  }

  /**
   * ECMAScript's MakeDay, which `setDate(d)` on a date of year `y`, month `m` uses:
   * month and day may lie outside their ranges and roll over into neighbouring months
   * and years. The result is a day number. `new Date(y, m, d)` is `ConstructDay`.
   */
  function MakeDay(y: int, m: int, d: int): int
  {
    DaysFromCivil(Civil(y + m / 12, m % 12, 1)) + d - 1
  }

  /**
   * The year the `Date` constructor uses for a year argument: 0..99 stand for
   * 1900..1999 (MakeFullYear); every other year is taken as it is.
   */
  function FullYear(y: int): int
  {
    if 0 <= y <= 99 then 1900 + y else y
  }

  /** `new Date(y, m, d)`: the two-digit year mapping, then MakeDay's roll-over. */
  function ConstructDay(y: int, m: int, d: int): int
  {
    MakeDay(FullYear(y), m, d)
  }

  /** Only years 0..99 are moved, and they land in the twentieth century. */
  lemma FullYearFixes(y: int)
    ensures FullYear(y) == y <==> !(0 <= y <= 99)
    ensures FullYear(y) != y ==> 1900 <= FullYear(y) <= 1999 && FullYear(y) - y == 1900
    ensures FullYear(FullYear(y)) == FullYear(y)
  {
  }

  lemma MakeDayInMonth(y: int, m: int, d: int)
    requires 0 <= m < 12
    ensures MakeDay(y, m, d) == DaysFromCivil(Civil(y, m, 1)) + d - 1
  {
  }

  /** `setDate(k)` on a date keeps its month and moves by `k - getDate()` days. */
  lemma SetDateShifts(n: int, k: int)
    ensures MakeDay(CivilFromDays(n).year, CivilFromDays(n).month, k) == n + k - CivilFromDays(n).day
  {
    var c := CivilFromDays(n);
    MakeDayInMonth(c.year, c.month, k);
    assert DaysFromCivil(Civil(c.year, c.month, 1)) == DaysFromCivil(c) - c.day + 1;
  }

  /** The first day of the month that follows month `m` of year `y`. */
  function NextMonthOf(y: int, m: int): (c: Civil)
    requires 0 <= m < 12
    ensures ValidCivil(c) && c.day == 1
  {
    if m == 11 then Civil(y + 1, 0, 1) else Civil(y, m + 1, 1)
  }

  /** The first day of the month that precedes month `m` of year `y`. */
  function PrevMonthOf(y: int, m: int): (c: Civil)
    requires 0 <= m < 12
    ensures ValidCivil(c) && c.day == 1
  {
    if m == 0 then Civil(y - 1, 11, 1) else Civil(y, m - 1, 1)
  }

  /** `new Date(y, m + 1, 1)` with `m` in range lands on the first of the next month. */
  lemma MakeDayNextMonth(y: int, m: int)
    requires 0 <= m < 12
    ensures MakeDay(y, m + 1, 1) == DaysFromCivil(NextMonthOf(y, m))
  {
  }

  /** `new Date(y, m - 1, 1)` with `m` in range lands on the first of the previous month. */
  lemma MakeDayPrevMonth(y: int, m: int)
    requires 0 <= m < 12
    ensures MakeDay(y, m - 1, 1) == DaysFromCivil(PrevMonthOf(y, m))
  {
  }

  /** The day before the first of the next month is the last day of this month. */
  lemma LastDayOfMonth(y: int, m: int)
    requires 0 <= m < 12
    ensures DaysFromCivil(NextMonthOf(y, m)) - 1 == DaysFromCivil(Civil(y, m, DaysInMonth(y, m)))
  {
    DaysBeforeMonthStep(y, m);
    if m == 11 {
      DaysBeforeYearStep(y);
    }
  }

  /** `new Date(y, m + 1, 0)` is the last day of month `m`: its date is the month's length. */
  lemma DayZeroOfNextMonth(y: int, m: int)
    requires 0 <= m < 12
    ensures CivilFromDays(MakeDay(y, m + 1, 0)) == Civil(y, m, DaysInMonth(y, m))
  {
    var last := Civil(y, m, DaysInMonth(y, m));
    MakeDayNextMonth(y, m);
    assert MakeDay(y, m + 1, 0) == MakeDay(y, m + 1, 1) - 1;
    LastDayOfMonth(y, m);
    assert MakeDay(y, m + 1, 0) == DaysFromCivil(last);
    DaysInMonthRange(y, m);
    CivilRoundTrip(last);
  }
}
