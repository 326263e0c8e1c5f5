/**
 * Calendar dates as JavaScript's `Date` treats them in one fixed time zone:
 * a year, a zero-based month (0 = January, as `getMonth()` returns it) and a
 * day of the month. Only the calendar arithmetic the application uses is
 * modelled: `setMonth` month addition, the day count behind `getTime()`, and
 * the length of a month.
 */
module Dates {

  datatype CalendarDate = CalendarDate(year: int, month: int, day: int)

  /** Gregorian leap years, extended to every integer year as JavaScript does. */
  predicate IsLeapYear(y: int)
  {
    y % 4 == 0 && (y % 100 != 0 || y % 400 == 0)
  }

  function DaysInMonth(y: int, m: int): (n: int)
    requires 0 <= m < 12
    ensures 28 <= n <= 31
    ensures n == 29 <==> m == 1 && IsLeapYear(y)
  {
    if m == 1 then (if IsLeapYear(y) then 29 else 28)
    else if m == 3 || m == 5 || m == 8 || m == 10 then 30
    else 31
  }

  predicate ValidDate(d: CalendarDate)
  {
    0 <= d.month < 12 && 1 <= d.day <= DaysInMonth(d.year, d.month)
  }

  type Date = d: CalendarDate | ValidDate(d) witness CalendarDate(1970, 0, 1)

  /** Days before 1 March of year `y + 1`, counted from 1 March of year 0 of the proleptic calendar. */
  function YearDays(y: int): int
  {
    365 * y + y / 4 - y / 100 + y / 400
  }

  /** Days from 1 March to the first day of the `mp`-th month of a year that begins in March. */
  function MarchMonthOffset(mp: int): int
    requires 0 <= mp < 12
  {
    [0, 31, 61, 92, 122, 153, 184, 214, 245, 275, 306, 337][mp]
  }

  /**
   * Days from 1970-01-01 to `d` (negative before it), counting from a year
   * that begins in March so that the leap day falls at the end.
   */
  function DayNumber(d: CalendarDate): int
  {
    var y := if d.month < 2 then d.year - 1 else d.year;
    var mp := (d.month + 10) % 12;
    YearDays(y) + MarchMonthOffset(mp) + d.day - 1 - 719468
  }

  const MsPerDay: int := 86400000

  /** `getTime()` of the date at midnight: milliseconds since the epoch. */
  function Instant(d: CalendarDate): int
  {
    DayNumber(d) * MsPerDay
  }

  /** Day number of the first day of absolute month `t` (= 12 * year + month). */
  function MonthStart(t: int): int
  {
    DayNumber(CalendarDate(t / 12, t % 12, 1))
  }

  /**
   * `d.setMonth(d.getMonth() + k)`: the month index is carried into the year,
   * and a day of the month past the end of the target month spills over into
   * the following month (31 January + 1 month is 3 March, or 2 March in a leap
   * year).
   */
  function AddMonths(d: Date, k: int): (r: Date)
    ensures r.day <= d.day
    ensures r.day == d.day ==> 12 * r.year + r.month == 12 * d.year + d.month + k
  {
    var t := 12 * d.year + d.month + k;
    var y, m := t / 12, t % 12;
    if d.day <= DaysInMonth(y, m) then
      CalendarDate(y, m, d.day)
    else
      var t' := t + 1;
      CalendarDate(t' / 12, t' % 12, d.day - DaysInMonth(y, m))
  }

  lemma AddMonthsZero(d: Date)
    ensures AddMonths(d, 0) == d
  {
    var t := 12 * d.year + d.month;
    assert t / 12 == d.year && t % 12 == d.month;
  }

  /** Consecutive month starts lie exactly one month length apart. */
  lemma MonthStartStep(t: int)
    ensures MonthStart(t + 1) == MonthStart(t) + DaysInMonth(t / 12, t % 12)
  {
    var y, m := t / 12, t % 12;
    assert t == 12 * y + m;
    if m == 11 {
      assert (t + 1) / 12 == y + 1 && (t + 1) % 12 == 0;
    } else {
      assert (t + 1) / 12 == y && (t + 1) % 12 == m + 1;
    }
    NextMonthStart(y, m);
  }

  lemma NextMonthStart(y: int, m: int)
    requires 0 <= m < 12
    ensures var next := if m == 11 then CalendarDate(y + 1, 0, 1) else CalendarDate(y, m + 1, 1);
            DayNumber(next) == DayNumber(CalendarDate(y, m, 1)) + DaysInMonth(y, m)
  {
    if m == 1 {
      LeapDayCount(y);
    }
  }

  /** The leap-day terms of `DayNumber` grow by one across March 1 of a leap year. */
  lemma LeapDayCount(y: int)
    ensures YearDays(y) - YearDays(y - 1) == if IsLeapYear(y) then 366 else 365
  {
    var d4, d100, d400 := y / 4 - (y - 1) / 4, y / 100 - (y - 1) / 100, y / 400 - (y - 1) / 400;
    assert YearDays(y) - YearDays(y - 1) == 365 + d4 - d100 + d400;
    QuotientStep4(y);
    QuotientStep100(y);
    QuotientStep400(y);
    if y % 400 == 0 {
      Mod400Mod100(y);
      Mod100Mod4(y);
    } else if y % 100 == 0 {
      Mod100Mod4(y);
    }
  }

  lemma Mod400Mod100(y: int)
    requires y % 400 == 0
    ensures y % 100 == 0
  {
    assert y == 100 * (4 * (y / 400));
  }

  lemma Mod100Mod4(y: int)
    requires y % 100 == 0
    ensures y % 4 == 0
  {
    assert y == 4 * (25 * (y / 100));
  }

  lemma QuotientStep4(y: int)
    ensures y / 4 - (y - 1) / 4 == if y % 4 == 0 then 1 else 0
  {
  }

  lemma QuotientStep100(y: int)
    ensures y / 100 - (y - 1) / 100 == if y % 100 == 0 then 1 else 0
  {
  }

  lemma QuotientStep400(y: int)
    ensures y / 400 - (y - 1) / 400 == if y % 400 == 0 then 1 else 0
  {
  }

  /**
   * `AddMonths` agrees with the specification of `setMonth`: the result is the
   * first day of the target month advanced by the original day of the month
   * minus one, whatever that overflows into.
   */
  lemma AddMonthsIsMakeDay(d: Date, k: int)
    ensures DayNumber(AddMonths(d, k)) == MonthStart(12 * d.year + d.month + k) + d.day - 1
  {
    var t := 12 * d.year + d.month + k;
    if d.day <= DaysInMonth(t / 12, t % 12) {
      MakeDayInMonth(d, k);
    } else {
      MakeDaySpill(d, k);
    }
  }

  lemma MakeDayInMonth(d: Date, k: int)
    requires var t := 12 * d.year + d.month + k; d.day <= DaysInMonth(t / 12, t % 12)
    ensures DayNumber(AddMonths(d, k)) == MonthStart(12 * d.year + d.month + k) + d.day - 1
  {
    var t := 12 * d.year + d.month + k;
    var y, m := t / 12, t % 12;
    assert AddMonths(d, k) == CalendarDate(y, m, d.day);
    DayWithinMonth(y, m, d.day);
  }

  lemma MakeDaySpill(d: Date, k: int)
    requires var t := 12 * d.year + d.month + k; d.day > DaysInMonth(t / 12, t % 12)
    ensures DayNumber(AddMonths(d, k)) == MonthStart(12 * d.year + d.month + k) + d.day - 1
  {
    var t := 12 * d.year + d.month + k;
    var t' := t + 1;
    var spill := d.day - DaysInMonth(t / 12, t % 12);
    assert AddMonths(d, k) == CalendarDate(t' / 12, t' % 12, spill);
    MonthStartStep(t);
    DayWithinMonth(t' / 12, t' % 12, spill);
  }

  lemma DayWithinMonth(y: int, m: int, day: int)
    ensures DayNumber(CalendarDate(y, m, day)) == DayNumber(CalendarDate(y, m, 1)) + day - 1
  {
  }

  lemma {:induction false} MonthStartIncreasing(t1: int, t2: int)
    requires t1 <= t2
    ensures MonthStart(t1) + 28 * (t2 - t1) <= MonthStart(t2)
    decreases t2 - t1
  {
    if t1 < t2 {
      var t := t2 - 1;
      MonthStartIncreasing(t1, t);
      MonthStartGrows(t);
      assert t + 1 == t2;
    }
  }

  lemma MonthStartGrows(t: int)
    ensures MonthStart(t) + 28 <= MonthStart(t + 1)
  {
    MonthStartStep(t);
  }

  /** Adding more months never yields an earlier date. */
  lemma AddMonthsMonotone(d: Date, k1: int, k2: int)
    requires k1 <= k2
    ensures DayNumber(AddMonths(d, k1)) <= DayNumber(AddMonths(d, k2))
  {
    AddMonthsIsMakeDay(d, k1);
    AddMonthsIsMakeDay(d, k2);
    TargetMonthMonotone(d, k1, k2);
  }

  lemma TargetMonthMonotone(d: Date, k1: int, k2: int)
    requires k1 <= k2
    ensures MonthStart(12 * d.year + d.month + k1) <= MonthStart(12 * d.year + d.month + k2)
  {
    var t1, t2 := 12 * d.year + d.month + k1, 12 * d.year + d.month + k2;
    MonthStartIncreasing(t1, t2);
  }
}
