/**
 Proleptic Gregorian calendar dates at day granularity, as the downloader's
 `datetime` values behave when they are advanced one day at a time and compared.
 */
module Calendar {

  /** A calendar date; fields are compared in this order, as Python compares datetimes. */
  datatype Date = Date(year: nat, month: nat, day: nat)

  predicate IsLeapYear(y: nat) {
    y % 4 == 0 && (y % 100 != 0 || y % 400 == 0)
  }

  function DaysInMonth(y: nat, m: nat): (n: nat)
    requires 1 <= m <= 12
    ensures 28 <= n <= 31
    ensures m == 2 ==> (n == 29 <==> IsLeapYear(y))
  {
    if m == 2 then (if IsLeapYear(y) then 29 else 28)
    else if m == 4 || m == 6 || m == 9 || m == 11 then 30
    else 31
  }

  function DaysInYear(y: nat): nat {
    if IsLeapYear(y) then 366 else 365
  }

  /** A date that exists on the calendar. */
  predicate Valid(d: Date) {
    1 <= d.month <= 12 && 1 <= d.day <= DaysInMonth(d.year, d.month)
  }

  /** Strict chronological order. */
  predicate Before(a: Date, b: Date) {
    || a.year < b.year
    || (a.year == b.year && a.month < b.month)
    || (a.year == b.year && a.month == b.month && a.day < b.day)
  }

  /** The `<=` of two dates. */
  predicate AtOrBefore(a: Date, b: Date) {
    a == b || Before(a, b)
  }

  /** The date one day later: `curr + timedelta(days=1)`. */
  function NextDay(d: Date): (e: Date)
    requires Valid(d)
    ensures Valid(e) && Before(d, e)
  {
    if d.day < DaysInMonth(d.year, d.month) then Date(d.year, d.month, d.day + 1)
    else if d.month < 12 then Date(d.year, d.month + 1, 1)
    else Date(d.year + 1, 1, 1)
  }

  /** No calendar date lies strictly between a date and the next one. */
  lemma NextDayIsImmediate(d: Date, e: Date)
    requires Valid(d) && Valid(e) && Before(d, e)
    ensures AtOrBefore(NextDay(d), e)
  {
  }

  /**
   A number that grows with the date: each month gets 31 slots and each year
   12 of them, so it is monotone but has gaps after short months.
   */
  function DayKey(d: Date): int {
    d.year * 372 + (d.month - 1) * 31 + (d.day - 1)
  }

  lemma DayKeyOrder(a: Date, b: Date)
    requires Valid(a) && Valid(b)
    ensures Before(a, b) <==> DayKey(a) < DayKey(b)
    ensures a == b <==> DayKey(a) == DayKey(b)
  {
  }

  /** Days in months 1..n of year y. */
  function MonthDaysTotal(y: nat, n: nat): nat
    requires n <= 12
  {
    if n == 0 then 0 else MonthDaysTotal(y, n - 1) + DaysInMonth(y, n)
  }

  /** The twelve months of a year add up to its length. */
  lemma {:induction false} MonthsFillYear(y: nat)
    ensures MonthDaysTotal(y, 12) == DaysInYear(y)
  {
    var feb := DaysInMonth(y, 2);
    assert MonthDaysTotal(y, 1) == 31;
    assert MonthDaysTotal(y, 2) == 31 + feb;
    assert MonthDaysTotal(y, 3) == 62 + feb;
    assert MonthDaysTotal(y, 4) == 92 + feb;
    assert MonthDaysTotal(y, 5) == 123 + feb;
    assert MonthDaysTotal(y, 6) == 153 + feb;
    assert MonthDaysTotal(y, 7) == 184 + feb;
    assert MonthDaysTotal(y, 8) == 215 + feb;
    assert MonthDaysTotal(y, 9) == 245 + feb;
    assert MonthDaysTotal(y, 10) == 276 + feb;
    assert MonthDaysTotal(y, 11) == 306 + feb;
    assert MonthDaysTotal(y, 12) == 337 + feb;
  }

  /** Days in the years y0..y-1. */
  function DaysInYears(y0: nat, y: nat): nat
    decreases y - y0
  {
    if y <= y0 then 0 else DaysInYears(y0, y - 1) + DaysInYear(y - 1)
  }
}
