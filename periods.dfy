/**
 * The time windows of the weekly and monthly reports. Python compares datetimes, which is the same
 * as comparing day ordinals and then the time of day; a stored record's date is read at midnight.
 */
module Periods {
  import opened Dates

  /** Microseconds in a day: datetime's finest time-of-day resolution. */
  const DayMicros: int := 86_400_000_000

  function DaysInYear(y: int): int { if IsLeap(y) then 366 else 365 }

  /** Days in the years before year y, counted from year 1. */
  function DaysBeforeYear(y: int): int
    requires y >= 1
  {
    if y == 1 then 0 else DaysBeforeYear(y - 1) + DaysInYear(y - 1)
  }

  /** Days in the months of year y before month m. */
  function DaysBeforeMonth(y: int, m: int): int
    requires 1 <= m <= 12
  {
    [0, 31, 59, 90, 120, 151, 181, 212, 243, 273, 304, 334][m - 1] + (if m > 2 && IsLeap(y) then 1 else 0)
  }

  /** date.toordinal(): 0001-01-01 is day 1. */
  function Ordinal(d: Date): int
    requires ValidDate(d)
  {
    DaysBeforeYear(d.year) + DaysBeforeMonth(d.year, d.month) + d.day
  }

  /** A day of month m ends no later than the start of any later month of the same year. */
  lemma MonthEnds(y: int, m: int, m': int)
    requires 1 <= m < m' <= 12
    ensures DaysBeforeMonth(y, m) + DaysInMonth(y, m) <= DaysBeforeMonth(y, m')
  {
  }

  /** Every day of a year falls inside that year's length. */
  lemma DayOfYearBound(d: Date)
    requires ValidDate(d)
    ensures 1 <= DaysBeforeMonth(d.year, d.month) + d.day <= DaysInYear(d.year)
  {
  }

  /** Every day of year y comes before any day of a later year. */
  lemma {:induction false} YearEnds(y: int, y': int)
    requires 1 <= y < y'
    ensures DaysBeforeYear(y) + DaysInYear(y) <= DaysBeforeYear(y')
    decreases y' - y
  {
    if y + 1 < y' {
      YearEnds(y + 1, y');
    }
  }

  /** The ordinal numbers days in calendar order: earlier dates have smaller ordinals. */
  lemma {:induction false} OrdinalOrder(a: Date, b: Date)
    requires ValidDate(a) && ValidDate(b)
    ensures Before(a, b) <==> Ordinal(a) < Ordinal(b)
    ensures a == b <==> Ordinal(a) == Ordinal(b)
  {
    DayOfYearBound(a);
    DayOfYearBound(b);
    if a.year < b.year {
      YearEnds(a.year, b.year);
    } else if b.year < a.year {
      YearEnds(b.year, a.year);
    } else if a.month < b.month {
      MonthEnds(a.year, a.month, b.month);
    } else if b.month < a.month {
      MonthEnds(a.year, b.month, a.month);
    }
  }

  /** A point in time: a date and the microseconds since its midnight. */
  datatype DateTime = DateTime(date: Date, micros: int)

  predicate ValidDateTime(t: DateTime) { ValidDate(t.date) && 0 <= t.micros < DayMicros }

  /** Microseconds since the start of day 0. */
  function Stamp(t: DateTime): int
    requires ValidDateTime(t)
  {
    Ordinal(t.date) * DayMicros + t.micros
  }

  /** An inclusive range of stamps. */
  datatype Window = Window(lo: int, hi: int)

  /** get_weekly_summary: from `now` minus one week, at now's time of day, up to `now`. */
  function WeekWindow(now: DateTime): Window
    requires ValidDateTime(now)
  {
    Window(Stamp(now) - 7 * DayMicros, Stamp(now))
  }

  /** The first day of now's month. */
  function MonthStart(now: DateTime): Date
  {
    Date(now.date.year, now.date.month, 1)
  }

  /** get_monthly_summary: from the first of now's month, at now's time of day, up to `now`. */
  function MonthWindow(now: DateTime): Window
    requires ValidDateTime(now)
  {
    Window(Stamp(DateTime(MonthStart(now), now.micros)), Stamp(now))
  }

  /** A record dated d (read at midnight) lies in the window; only calendar dates have a stamp. */
  predicate InWindow(d: Date, w: Window)
  {
    ValidDate(d) && w.lo <= Ordinal(d) * DayMicros <= w.hi
  }

  /**
   * The weekly window holds the six days before today and today, and the day exactly a week ago
   * only when `now` is exactly midnight.
   */
  lemma WeekWindowDays(d: Date, now: DateTime)
    requires ValidDate(d) && ValidDateTime(now)
    ensures InWindow(d, WeekWindow(now)) <==>
              (Ordinal(now.date) - 7 < Ordinal(d) <= Ordinal(now.date)) ||
              (Ordinal(d) == Ordinal(now.date) - 7 && now.micros == 0)
  {
  }

  /**
   * The monthly window holds the days of now's month after the first up to today, and the first
   * only when `now` is exactly midnight.
   */
  lemma MonthWindowDays(d: Date, now: DateTime)
    requires ValidDate(d) && ValidDateTime(now)
    ensures InWindow(d, MonthWindow(now)) <==>
              (Before(MonthStart(now), d) && !Before(now.date, d)) ||
              (d == MonthStart(now) && now.micros == 0)
  {
    OrdinalOrder(MonthStart(now), d);
    OrdinalOrder(now.date, d);
  }
}
