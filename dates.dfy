/**
 * Calendar dates as Python's `datetime.date` treats them: the proleptic
 * Gregorian calendar, compared field by field, with day differences taken as
 * differences of day ordinals (0001-01-01 is ordinal 1).
 */
module Dates {

  /** A calendar date (year, month 1..12, day 1..days in that month). */
  datatype Date = Date(year: int, month: int, day: int)

  predicate IsLeapYear(y: int) {
    y % 4 == 0 && (y % 100 != 0 || y % 400 == 0)
  }

  function DaysInMonth(y: int, m: int): (n: int)
    requires 1 <= m <= 12
    ensures 28 <= n <= 31
    ensures n == 29 <==> m == 2 && IsLeapYear(y)
  {
    if m == 2 then (if IsLeapYear(y) then 29 else 28)
    else if m == 4 || m == 6 || m == 9 || m == 11 then 30
    else 31
  }

  function DaysInYear(y: int): int {
    if IsLeapYear(y) then 366 else 365
  }

  /** `calendar.month_name[m]`, also what `strftime('%B')` gives in the C locale. */
  function MonthName(m: int): string
    requires 1 <= m <= 12
  {
    [ "January", "February", "March", "April", "May", "June", "July",
      "August", "September", "October", "November", "December" ][m - 1]
  }

  /** Python dates start at year 1; the model sets no upper bound on the year. */
  predicate ValidDate(d: Date) {
    d.year >= 1 && 1 <= d.month <= 12 && 1 <= d.day <= DaysInMonth(d.year, d.month)
  }

  /** Python's comparison of dates: year, then month, then day. */
  predicate DateLt(a: Date, b: Date) {
    a.year < b.year
    || (a.year == b.year && (a.month < b.month || (a.month == b.month && a.day < b.day)))
  }

  predicate DateLe(a: Date, b: Date) {
    DateLt(a, b) || a == b
  }

  function MinDate(a: Date, b: Date): Date {
    if DateLe(a, b) then a else b
  }

  function MaxDate(a: Date, b: Date): Date {
    if DateLe(a, b) then b else a
  }

  /** Days in the years before year y (closed form, as in Python's datetime module). */
  function DaysBeforeYear(y: int): int
    requires y >= 1
  {
    var p := y - 1;
    p * 365 + p / 4 - p / 100 + p / 400
  }

  /** Days in year y before the first of month m. */
  function DaysBeforeMonth(y: int, m: int): int
    requires 1 <= m <= 12
  {
    var common :=
      if m == 1 then 0 else if m == 2 then 31 else if m == 3 then 59
      else if m == 4 then 90 else if m == 5 then 120 else if m == 6 then 151
      else if m == 7 then 181 else if m == 8 then 212 else if m == 9 then 243
      else if m == 10 then 273 else if m == 11 then 304 else 334;
    common + (if m > 2 && IsLeapYear(y) then 1 else 0)
  }

  /** The day ordinal of a date: `date.toordinal()`. */
  function Ordinal(d: Date): int
    requires ValidDate(d)
  {
    DaysBeforeYear(d.year) + DaysBeforeMonth(d.year, d.month) + d.day
  }

  /**
   * `(date - start_date).days`: the number of calendar days from `start` to `d`,
   * negative when `d` is before `start`.
   */
  function DaysSinceStart(d: Date, start: Date): (days: int)
    requires ValidDate(d) && ValidDate(start)
    ensures days == 0 <==> d == start
    ensures days > 0 <==> DateLt(start, d)
    ensures days < 0 <==> DateLt(d, start)
  {
    OrdinalOrder(start, d);
    Ordinal(d) - Ordinal(start)
  }

  /** The calendar day after d. */
  function NextDay(d: Date): Date
    requires ValidDate(d)
  {
    if d.day < DaysInMonth(d.year, d.month) then Date(d.year, d.month, d.day + 1)
    else if d.month < 12 then Date(d.year, d.month + 1, 1)
    else Date(d.year + 1, 1, 1)
  }

  /** The date n calendar days after d, found by stepping one day at a time. */
  function AddDays(d: Date, n: nat): (r: Date)
    requires ValidDate(d)
    ensures ValidDate(r)
    decreases n
  {
    if n == 0 then d
    else
      NextDayValid(d);
      AddDays(NextDay(d), n - 1)
  }

  /**
   * The first of the month after d's month, with December wrapping to
   * January of the following year.
   */
  function NextMonthStart(d: Date): Date {
    var nextMonth := if d.month < 12 then d.month + 1 else 1;
    var nextYear := if d.month == 12 then d.year + 1 else d.year;
    Date(nextYear, nextMonth, 1)
  }

  /** Months counted from January of year 0: consecutive months differ by one. */
  function MonthIndex(d: Date): int {
    d.year * 12 + d.month - 1
  }

  /** The first day of the month with the given month index. */
  function FirstOfMonth(k: int): (r: Date)
    requires k >= 12
    ensures ValidDate(r) && r.day == 1 && MonthIndex(r) == k
  {
    Date(k / 12, k % 12 + 1, 1)
  }

  // ---------------------------------------------------------------------------
  // Properties of the ordinal
  // ---------------------------------------------------------------------------

  lemma DaysBeforeYearStep(y: int)
    requires y >= 1
    ensures DaysBeforeYear(y + 1) == DaysBeforeYear(y) + DaysInYear(y)
  {
    var p := y - 1;
    assert (p + 1) / 4 == p / 4 + (if y % 4 == 0 then 1 else 0);
    assert (p + 1) / 100 == p / 100 + (if y % 100 == 0 then 1 else 0);
    assert (p + 1) / 400 == p / 400 + (if y % 400 == 0 then 1 else 0);
  }

  lemma {:induction false} DaysBeforeYearMonotone(a: int, b: int)
    requires 1 <= a < b
    ensures DaysBeforeYear(a) + DaysInYear(a) <= DaysBeforeYear(b)
    decreases b - a
  {
    DaysBeforeYearStep(a);
    if a + 1 < b {
      DaysBeforeYearMonotone(a + 1, b);
    }
  }

  lemma DaysBeforeMonthStep(y: int, m: int)
    requires 1 <= m <= 12
    ensures m < 12 ==> DaysBeforeMonth(y, m + 1) == DaysBeforeMonth(y, m) + DaysInMonth(y, m)
    ensures m == 12 ==> DaysBeforeMonth(y, m) + DaysInMonth(y, m) == DaysInYear(y)
  {
  }

  lemma {:induction false} DaysBeforeMonthMonotone(y: int, a: int, b: int)
    requires 1 <= a < b <= 12
    ensures DaysBeforeMonth(y, a) + DaysInMonth(y, a) <= DaysBeforeMonth(y, b)
    decreases b - a
  {
    DaysBeforeMonthStep(y, a);
    if a + 1 < b {
      DaysBeforeMonthMonotone(y, a + 1, b);
    }
  }

  /** A date's ordinal lies within its year's block of ordinals. */
  lemma OrdinalWithinYear(d: Date)
    requires ValidDate(d)
    ensures DaysBeforeYear(d.year) < Ordinal(d) <= DaysBeforeYear(d.year) + DaysInYear(d.year)
  {
    DaysBeforeMonthStep(d.year, 12);
    if d.month < 12 {
      DaysBeforeMonthMonotone(d.year, d.month, 12);
    }
  }

  lemma OrdinalStrictlyIncreasing(a: Date, b: Date)
    requires ValidDate(a) && ValidDate(b) && DateLt(a, b)
    ensures Ordinal(a) < Ordinal(b)
  {
    if a.year < b.year {
      OrdinalWithinYear(a);
      OrdinalWithinYear(b);
      DaysBeforeYearMonotone(a.year, b.year);
    } else if a.month < b.month {
      DaysBeforeMonthMonotone(a.year, a.month, b.month);
    }
  }

  /**
   * The ordinal is an order isomorphism: comparing ordinals is comparing
   * dates, and equal ordinals mean equal dates.
   */
  lemma OrdinalOrder(a: Date, b: Date)
    requires ValidDate(a) && ValidDate(b)
    ensures DateLt(a, b) <==> Ordinal(a) < Ordinal(b)
    ensures DateLe(a, b) <==> Ordinal(a) <= Ordinal(b)
    ensures a == b <==> Ordinal(a) == Ordinal(b)
  {
    if DateLt(a, b) {
      OrdinalStrictlyIncreasing(a, b);
    } else if DateLt(b, a) {
      OrdinalStrictlyIncreasing(b, a);
    }
  }

  lemma NextDayValid(d: Date)
    requires ValidDate(d)
    ensures ValidDate(NextDay(d)) && DateLt(d, NextDay(d))
  {
  }

  /** Stepping to the next calendar day, across month and year ends and leap days, adds one to the ordinal. */
  lemma OrdinalNextDay(d: Date)
    requires ValidDate(d)
    ensures ValidDate(NextDay(d))
    ensures Ordinal(NextDay(d)) == Ordinal(d) + 1
  {
    DaysBeforeMonthStep(d.year, d.month);
    if d.month == 12 && d.day == DaysInMonth(d.year, d.month) {
      DaysBeforeYearStep(d.year);
    }
  }

  /**
   * The offset of the date n calendar days after `start` is n: the day
   * difference counts calendar days, leap days included.
   */
  lemma {:induction false} DaysSinceStartCountsDays(start: Date, n: nat)
    requires ValidDate(start)
    ensures DaysSinceStart(AddDays(start, n), start) == n
    decreases n
  {
    if n > 0 {
      OrdinalNextDay(start);
      DaysSinceStartCountsDays(NextDay(start), n - 1);
    }
  }

  /** Conversely, every date from `start` on is reached by stepping its offset in days. */
  lemma OffsetReachesDate(start: Date, d: Date)
    requires ValidDate(start) && ValidDate(d) && DateLe(start, d)
    ensures DaysSinceStart(d, start) >= 0
    ensures AddDays(start, DaysSinceStart(d, start)) == d
  {
    var n := DaysSinceStart(d, start);
    DaysSinceStartCountsDays(start, n);
    OrdinalOrder(AddDays(start, n), d);
  }

  lemma DateLeTransitive(a: Date, b: Date, c: Date)
    requires DateLe(a, b) && DateLe(b, c)
    ensures DateLe(a, c)
  {
  }

  // ---------------------------------------------------------------------------
  // Month stepping
  // ---------------------------------------------------------------------------

  /** The month step lands on the first of the following month and moves forward in time. */
  lemma NextMonthStartFacts(d: Date)
    requires ValidDate(d)
    ensures NextMonthStart(d) == FirstOfMonth(MonthIndex(d) + 1)
    ensures ValidDate(NextMonthStart(d)) && DateLt(d, NextMonthStart(d))
  {
    var k := MonthIndex(d) + 1;
    if d.month < 12 {
      assert k == d.year * 12 + d.month;
      assert k / 12 == d.year && k % 12 == d.month;
    } else {
      assert k == (d.year + 1) * 12;
      assert k / 12 == d.year + 1 && k % 12 == 0;
    }
  }

  /** Later dates never have an earlier month. */
  lemma MonthIndexMonotone(a: Date, b: Date)
    requires ValidDate(a) && ValidDate(b) && DateLe(a, b)
    ensures MonthIndex(a) <= MonthIndex(b)
  {
  }

  /** An earlier month means an earlier date. */
  lemma MonthIndexStrict(a: Date, b: Date)
    requires MonthIndex(a) < MonthIndex(b) && 1 <= a.month <= 12 && 1 <= b.month <= 12
    ensures DateLt(a, b)
  {
  }

  /** The first of a month is at or before a date exactly when its month is not later. */
  lemma FirstOfMonthLe(c: Date, e: Date)
    requires ValidDate(c) && c.day == 1 && ValidDate(e)
    ensures DateLe(c, e) <==> MonthIndex(c) <= MonthIndex(e)
  {
  }
}
