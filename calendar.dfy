/**
 * Proleptic Gregorian dates and the whole-day difference between them,
 * as Python's `datetime` computes it: a date is mapped to its ordinal
 * day number (0001-01-01 is day 1) and `(b - a).days` is the difference
 * of the two ordinals.
 */
module Calendar {

  import opened Wrappers

  datatype Date = Date(year: int, month: int, day: int)

  /** The range of years a Python `date` can hold. */
  const MinYear: int := 1
  const MaxYear: int := 9999

  predicate IsLeapYear(y: int)
  {
    y % 4 == 0 && (y % 100 != 0 || y % 400 == 0)
  }

  function DaysInMonth(y: int, m: int): (n: int)
    requires 1 <= m <= 12
    ensures 28 <= n <= 31
  {
    if m == 2 then (if IsLeapYear(y) then 29 else 28)
    else if m == 4 || m == 6 || m == 9 || m == 11 then 30
    else 31
  }

  function DaysInYear(y: int): int
  {
    if IsLeapYear(y) then 366 else 365
  }

  /** A date that Python's `date` constructor accepts. */
  predicate Valid(d: Date)
  {
    MinYear <= d.year <= MaxYear && 1 <= d.month <= 12 && 1 <= d.day <= DaysInMonth(d.year, d.month)
  }

  /** Days of year `y` before the first of month `m`; `m == 13` gives the whole year. */
  function DaysBeforeMonth(y: int, m: int): nat
    requires 1 <= m <= 13
  {
    if m == 1 then 0 else DaysBeforeMonth(y, m - 1) + DaysInMonth(y, m - 1)
  }

  /** Days in the years 1 .. y-1, in closed form. */
  function DaysBeforeYear(y: int): int
    requires y >= MinYear
  {
    var p := y - 1;
    p * 365 + p / 4 - p / 100 + p / 400
  }

  /** The ordinal of a date: 0001-01-01 is day 1. */
  function DayNumber(d: Date): int
    requires Valid(d)
  {
    DaysBeforeYear(d.year) + DaysBeforeMonth(d.year, d.month) + d.day
  }

  /** Strict calendar order: `a` falls on an earlier day than `b`. */
  predicate Before(a: Date, b: Date)
  {
    a.year < b.year
    || (a.year == b.year && a.month < b.month)
    || (a.year == b.year && a.month == b.month && a.day < b.day)
  }

  /** The calendar day after `d` (not necessarily Valid after 9999-12-31). */
  function NextDay(d: Date): Date
    requires Valid(d)
  {
    if d.day < DaysInMonth(d.year, d.month) then Date(d.year, d.month, d.day + 1)
    else if d.month < 12 then Date(d.year, d.month + 1, 1)
    else Date(d.year + 1, 1, 1)
  }

  /** The date `n` calendar days after `d`, stepping one day at a time. */
  function AddDays(d: Date, n: nat): (r: Option<Date>)
    requires Valid(d)
    ensures r.Some? ==> Valid(r.value)
    decreases n
  {
    if n == 0 then Some(d)
    else
      var next := NextDay(d);
      if Valid(next) then AddDays(next, n - 1) else None
  }

  /**
   * `compareDates(a, b)`: the signed number of whole days from `a` to `b`.
   * It is positive exactly when `a` is the earlier date, zero exactly for
   * equal dates and negative exactly when `b` is the earlier date.
   */
  function CompareDates(a: Date, b: Date): (r: int)
    requires Valid(a) && Valid(b)
    ensures r > 0 <==> Before(a, b)
    ensures r == 0 <==> a == b
    ensures r < 0 <==> Before(b, a)
  {
    DayNumberOrder(a, b);
    DayNumberOrder(b, a);
    DayNumber(b) - DayNumber(a)
  }

  lemma MonthsFillYear(y: int)
    ensures DaysBeforeMonth(y, 13) == DaysInYear(y)
  {
    var leap := if IsLeapYear(y) then 1 else 0;
    assert DaysBeforeMonth(y, 2) == 31;
    assert DaysBeforeMonth(y, 3) == 59 + leap;
    assert DaysBeforeMonth(y, 4) == 90 + leap;
    assert DaysBeforeMonth(y, 5) == 120 + leap;
    assert DaysBeforeMonth(y, 6) == 151 + leap;
    assert DaysBeforeMonth(y, 7) == 181 + leap;
    assert DaysBeforeMonth(y, 8) == 212 + leap;
    assert DaysBeforeMonth(y, 9) == 243 + leap;
    assert DaysBeforeMonth(y, 10) == 273 + leap;
    assert DaysBeforeMonth(y, 11) == 304 + leap;
    assert DaysBeforeMonth(y, 12) == 334 + leap;
  }

  lemma {:induction false} DaysBeforeMonthGrows(y: int, m: int, k: int)
    requires 1 <= m < k <= 13
    ensures DaysBeforeMonth(y, m) + DaysInMonth(y, m) <= DaysBeforeMonth(y, k)
    decreases k
  {
    if k > m + 1 {
      DaysBeforeMonthGrows(y, m, k - 1);
    }
  }

  /** The day of the year of a valid date lies in 1 .. DaysInYear. */
  lemma DayOfYearBounds(d: Date)
    requires Valid(d)
    ensures 1 <= DaysBeforeMonth(d.year, d.month) + d.day <= DaysInYear(d.year)
  {
    DaysBeforeMonthGrows(d.year, d.month, 13);
    MonthsFillYear(d.year);
  }

  /** Quotients by 4, 100 and 400 grow by one exactly at a multiple. */
  lemma QuotientStep(y: int)
    requires y >= 1
    ensures y / 4 - (y - 1) / 4 == (if y % 4 == 0 then 1 else 0)
    ensures y / 100 - (y - 1) / 100 == (if y % 100 == 0 then 1 else 0)
    ensures y / 400 - (y - 1) / 400 == (if y % 400 == 0 then 1 else 0)
  {
  }

  lemma YearStep(y: int)
    requires y >= MinYear
    ensures DaysBeforeYear(y + 1) == DaysBeforeYear(y) + DaysInYear(y)
  {
    QuotientStep(y);
  }

  lemma {:induction false} YearsGrow(y: int, k: int)
    requires MinYear <= y < k
    ensures DaysBeforeYear(y) + DaysInYear(y) <= DaysBeforeYear(k)
    decreases k
  {
    if k == y + 1 {
      YearStep(y);
    } else {
      YearsGrow(y, k - 1);
      YearStep(k - 1);
    }
  }

  /** Day numbers follow the calendar order, and two valid dates are equal or ordered. */
  lemma DayNumberOrder(a: Date, b: Date)
    requires Valid(a) && Valid(b)
    ensures Before(a, b) ==> DayNumber(a) < DayNumber(b)
    ensures a == b || Before(a, b) || Before(b, a)
  {
    if Before(a, b) {
      if a.year < b.year {
        DayOfYearBounds(a);
        YearsGrow(a.year, b.year);
      } else if a.month < b.month {
        DaysBeforeMonthGrows(a.year, a.month, b.month);
      }
    }
  }

  /** Consecutive calendar days are one day apart, across month and year ends. */
  lemma NextDayIsOneLater(d: Date)
    requires Valid(d) && Valid(NextDay(d))
    ensures CompareDates(d, NextDay(d)) == 1
  {
    if d.day == DaysInMonth(d.year, d.month) && d.month == 12 {
      YearStep(d.year);
      MonthsFillYear(d.year);
      assert DaysBeforeMonth(d.year, 13) == DaysBeforeMonth(d.year, 12) + 31;
    }
  }

  /** Stepping `n` days forward moves the day number by exactly `n`. */
  lemma {:induction false} AddDaysDistance(d: Date, n: nat)
    requires Valid(d) && AddDays(d, n).Some?
    ensures CompareDates(d, AddDays(d, n).value) == n
    decreases n
  {
    if n > 0 {
      var next := NextDay(d);
      NextDayIsOneLater(d);
      AddDaysDistance(next, n - 1);
    }
  }

  /** Swapping the arguments of `compareDates` negates it. */
  lemma CompareDatesAntisymmetric(a: Date, b: Date)
    requires Valid(a) && Valid(b)
    ensures CompareDates(a, b) == -CompareDates(b, a)
  {
  }
}
