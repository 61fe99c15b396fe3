/**
 What the task list promises: which tasks it holds, in which order, how many,
 and that no two of them share a file name.
 */
module ScheduleFacts {
  import opened Calendar
  import opened Naming
  import opened Catalogue
  import opened Schedule

  /** Where within its day a task is listed. */
  function Position(s: Slot): nat {
    match s
    case DailyFile(_, p) => p
    case AnnualArchive(_) => 3
    case MonthlyArchive(k, _, _) => 4 + k
  }

  /** A number that orders tasks first by date, then by position within the day. */
  function Rank(s: Slot): int {
    DayKey(SlotDate(s)) * 8 + Position(s)
  }

  predicate Increasing(ss: seq<Slot>) {
    forall i, j :: 0 <= i < j < |ss| ==> Rank(ss[i]) < Rank(ss[j])
  }

  predicate RanksIn(ss: seq<Slot>, lo: int, hi: int) {
    forall i :: 0 <= i < |ss| ==> lo <= Rank(ss[i]) < hi
  }

  lemma ConcatIncreasing(a: seq<Slot>, b: seq<Slot>, lo: int, mid: int, hi: int)
    requires lo <= mid <= hi
    requires Increasing(a) && Increasing(b) && RanksIn(a, lo, mid) && RanksIn(b, mid, hi)
    ensures Increasing(a + b) && RanksIn(a + b, lo, hi)
  {
    forall i, j | 0 <= i < j < |a + b| ensures Rank((a + b)[i]) < Rank((a + b)[j]) {
      if j < |a| {
        assert (a + b)[i] == a[i] && (a + b)[j] == a[j];
      } else if i < |a| {
        assert (a + b)[i] == a[i] && (a + b)[j] == b[j - |a|];
      } else {
        assert (a + b)[i] == b[i - |a|] && (a + b)[j] == b[j - |a|];
      }
    }
    forall i | 0 <= i < |a + b| ensures lo <= Rank((a + b)[i]) < hi {
      if i < |a| {
        assert (a + b)[i] == a[i];
      } else {
        assert (a + b)[i] == b[i - |a|];
      }
    }
  }

  // ---- Order ----

  lemma DayOrdered(d: Date)
    ensures Increasing(DaySlots(d))
    ensures RanksIn(DaySlots(d), DayKey(d) * 8, DayKey(d) * 8 + 8)
  {
  }

  lemma {:induction false} DaysOrdered(y: nat, m: nat, n: nat)
    requires 1 <= m <= 12
    ensures Increasing(DaysOf(y, m, n))
    ensures RanksIn(DaysOf(y, m, n), DayKey(Date(y, m, 1)) * 8, (DayKey(Date(y, m, 1)) + n) * 8)
  {
    if n > 0 {
      DaysOrdered(y, m, n - 1);
      DayOrdered(Date(y, m, n));
      ConcatIncreasing(DaysOf(y, m, n - 1), DaySlots(Date(y, m, n)),
        DayKey(Date(y, m, 1)) * 8, (DayKey(Date(y, m, 1)) + n - 1) * 8, (DayKey(Date(y, m, 1)) + n) * 8);
    }
  }

  lemma {:induction false} MonthsOrdered(y: nat, n: nat)
    requires n <= 12
    ensures Increasing(MonthsOf(y, n))
    ensures RanksIn(MonthsOf(y, n), y * 372 * 8, (y * 372 + 31 * n) * 8)
  {
    if n > 0 {
      MonthsOrdered(y, n - 1);
      DaysOrdered(y, n, DaysInMonth(y, n));
      ConcatIncreasing(MonthsOf(y, n - 1), MonthOf(y, n),
        y * 372 * 8, (y * 372 + 31 * (n - 1)) * 8, (y * 372 + 31 * n) * 8);
    }
  }

  lemma {:induction false} YearsOrdered(y0: nat, y: nat)
    ensures Increasing(YearsFrom(y0, y))
    ensures RanksIn(YearsFrom(y0, y), y0 * 372 * 8, y * 372 * 8)
    decreases y - y0
  {
    if y > y0 {
      YearsOrdered(y0, y - 1);
      MonthsOrdered(y - 1, 12);
      ConcatIncreasing(YearsFrom(y0, y - 1), YearOf(y - 1), y0 * 372 * 8, (y - 1) * 372 * 8, y * 372 * 8);
    }
  }

  /** Tasks are listed by date and, within a date, in the loop's order; so no task repeats. */
  lemma PlanOrdered(y0: nat, y1: nat)
    ensures Increasing(Plan(y0, y1))
    ensures forall i, j :: 0 <= i < j < |Plan(y0, y1)| ==> Plan(y0, y1)[i] != Plan(y0, y1)[j]
  {
    YearsOrdered(y0, y1 + 1);
  }

  // ---- Contents ----

  /** The tasks of a date are exactly the slots whose period starts that day. */
  lemma DaySlotsContents(d: Date, s: Slot)
    requires Valid(d)
    ensures s in DaySlots(d) <==> WellFormed(s) && SlotDate(s) == d
  {
    var ds := DaySlots(d);
    if WellFormed(s) && SlotDate(s) == d {
      match s
      case DailyFile(_, p) =>
        assert ds[p] == s;
      case AnnualArchive(y) =>
        assert ds[3] == s;
      case MonthlyArchive(k, _, m) =>
        assert ds[(if m == 1 then 4 else 3) + k] == s;
    }
  }

  lemma {:induction false} DaysContents(y: nat, m: nat, n: nat, s: Slot)
    requires 1 <= m <= 12 && n <= DaysInMonth(y, m)
    ensures s in DaysOf(y, m, n) <==>
      WellFormed(s) && SlotDate(s).year == y && SlotDate(s).month == m && SlotDate(s).day <= n
  {
    if n > 0 {
      DaysContents(y, m, n - 1, s);
      DaySlotsContents(Date(y, m, n), s);
    }
  }

  lemma {:induction false} MonthsContents(y: nat, n: nat, s: Slot)
    requires n <= 12
    ensures s in MonthsOf(y, n) <==> WellFormed(s) && SlotDate(s).year == y && SlotDate(s).month <= n
  {
    if n > 0 {
      MonthsContents(y, n - 1, s);
      DaysContents(y, n, DaysInMonth(y, n), s);
    }
  }

  lemma YearContents(y: nat, s: Slot)
    ensures s in YearOf(y) <==> WellFormed(s) && SlotDate(s).year == y
  {
    MonthsContents(y, 12, s);
  }

  lemma {:induction false} YearsContents(y0: nat, y: nat, s: Slot)
    ensures s in YearsFrom(y0, y) <==> WellFormed(s) && y0 <= SlotDate(s).year < y
    decreases y - y0
  {
    if y > y0 {
      YearsContents(y0, y - 1, s);
      YearContents(y - 1, s);
    }
  }

  /**
   The plan holds a task exactly when its period lies in the range: each daily
   part of every date, the archive of every year, the archive of every month
   for every monthly family.
   */
  lemma PlanContents(y0: nat, y1: nat, s: Slot)
    ensures s in Plan(y0, y1) <==> WellFormed(s) && y0 <= SlotDate(s).year <= y1
  {
    YearsContents(y0, y1 + 1, s);
  }

  /** Tasks come in non-decreasing date order. */
  lemma PlanChronological(y0: nat, y1: nat)
    ensures forall i, j :: 0 <= i < j < |Plan(y0, y1)| ==>
      AtOrBefore(SlotDate(Plan(y0, y1)[i]), SlotDate(Plan(y0, y1)[j]))
  {
    var p := Plan(y0, y1);
    PlanOrdered(y0, y1);
    forall i, j | 0 <= i < j < |p| ensures AtOrBefore(SlotDate(p[i]), SlotDate(p[j])) {
      PlanContents(y0, y1, p[i]);
      PlanContents(y0, y1, p[j]);
      DayKeyOrder(SlotDate(p[i]), SlotDate(p[j]));
    }
  }

  // ---- Position of a day's block ----

  lemma {:induction false} DaysPrefix(y: nat, m: nat, n: nat, n': nat)
    requires n <= n'
    ensures DaysOf(y, m, n) <= DaysOf(y, m, n')
    decreases n' - n
  {
    if n < n' {
      DaysPrefix(y, m, n, n' - 1);
      assert DaysOf(y, m, n' - 1) <= DaysOf(y, m, n');
    }
  }

  lemma {:induction false} MonthsPrefix(y: nat, n: nat, n': nat)
    requires n <= n' <= 12
    ensures MonthsOf(y, n) <= MonthsOf(y, n')
    decreases n' - n
  {
    if n < n' {
      MonthsPrefix(y, n, n' - 1);
      assert MonthsOf(y, n' - 1) <= MonthsOf(y, n');
    }
  }

  lemma {:induction false} YearsPrefix(y0: nat, y: nat, y': nat)
    requires y <= y'
    ensures YearsFrom(y0, y) <= YearsFrom(y0, y')
    decreases y' - y
  {
    if y < y' {
      YearsPrefix(y0, y, y' - 1);
      if y' - 1 > y0 {
        assert YearsFrom(y0, y' - 1) <= YearsFrom(y0, y');
      }
    }
  }

  /** The walk up to any date no later than the end of the range has produced a prefix of the plan. */
  lemma PrefixTransitive(a: seq<Slot>, b: seq<Slot>, c: seq<Slot>)
    requires a <= b && b <= c
    ensures a <= c
  {
    assert c[..|a|] == b[..|a|];
  }

  /** The tasks of a year before a day of it are a prefix of that year's tasks. */
  lemma WithinYearPrefix(y: nat, m: nat, n: nat)
    requires 1 <= m <= 12 && n <= DaysInMonth(y, m)
    ensures MonthsOf(y, m - 1) + DaysOf(y, m, n) <= YearOf(y)
  {
    DaysPrefix(y, m, n, DaysInMonth(y, m));
    PrefixExtend(MonthsOf(y, m - 1), DaysOf(y, m, n), MonthOf(y, m));
    assert MonthsOf(y, m) == MonthsOf(y, m - 1) + MonthOf(y, m);
    MonthsPrefix(y, m, 12);
  }

  lemma PlanBeforeIsPrefix(y0: nat, y1: nat, e: Date)
    requires Valid(e) && y0 <= e.year && AtOrBefore(e, Date(y1 + 1, 1, 1))
    ensures PlanBefore(y0, e) <= Plan(y0, y1)
  {
    if e.year == y1 + 1 {
      PlanBeforeEnd(y0, y1);
    } else {
      var y, m := e.year, e.month;
      var years, months, days := YearsFrom(y0, y), MonthsOf(y, m - 1), DaysOf(y, m, e.day - 1);
      WithinYearPrefix(y, m, e.day - 1);
      PrefixExtend(years, months + days, YearOf(y));
      assert YearsFrom(y0, y + 1) == years + YearOf(y);
      assert PlanBefore(y0, e) == years + (months + days);
      YearsPrefix(y0, y + 1, y1 + 1);
      PrefixTransitive(PlanBefore(y0, e), YearsFrom(y0, y + 1), YearsFrom(y0, y1 + 1));
    }
  }

  lemma PrefixExtend(a: seq<Slot>, b: seq<Slot>, c: seq<Slot>)
    requires b <= c
    ensures a + b <= a + c
  {
    assert (a + c)[..|a + b|] == a + b;
  }

  /**
   The tasks of each date of the range stand together in the plan, in the
   order of `DaySlots` (the three daily parts, then the annual archive on
   1 January, then the monthly archives on the first of a month), right after
   the tasks of all earlier dates.
   */
  lemma DayBlockInPlan(y0: nat, y1: nat, d: Date)
    requires Valid(d) && y0 <= d.year <= y1
    ensures |PlanBefore(y0, d)| + |DaySlots(d)| <= |Plan(y0, y1)|
    ensures Plan(y0, y1)[|PlanBefore(y0, d)|..|PlanBefore(y0, d)| + |DaySlots(d)|] == DaySlots(d)
  {
    PlanBeforeStep(y0, d);
    NextDayIsImmediate(d, Date(y1 + 1, 1, 1));
    PlanBeforeIsPrefix(y0, y1, NextDay(d));
    var a, b := PlanBefore(y0, d), DaySlots(d);
    assert (a + b)[|a|..|a| + |b|] == b;
  }

  // ---- Size ----

  lemma {:induction false} DaysCount(y: nat, m: nat, n: nat)
    requires 1 <= n
    ensures |DaysOf(y, m, n)| == 3 * n + 4 + (if m == 1 then 1 else 0)
  {
    if n > 1 {
      DaysCount(y, m, n - 1);
    }
  }

  lemma {:induction false} MonthsCount(y: nat, n: nat)
    requires n <= 12
    ensures |MonthsOf(y, n)| == 3 * MonthDaysTotal(y, n) + 4 * n + (if n >= 1 then 1 else 0)
  {
    if n > 0 {
      MonthsCount(y, n - 1);
      DaysCount(y, n, DaysInMonth(y, n));
    }
  }

  /**
   The plan of years y0..y-1 (so `Plan(y0, y1)` with y = y1 + 1) has three tasks
   per day, one per year and four per month.
   */
  lemma {:induction false} YearsCount(y0: nat, y: nat)
    requires y0 <= y
    ensures |YearsFrom(y0, y)| == 3 * DaysInYears(y0, y) + 49 * (y - y0)
    decreases y - y0
  {
    if y > y0 {
      YearsCount(y0, y - 1);
      YearCount(y - 1);
      assert YearsFrom(y0, y) == YearsFrom(y0, y - 1) + YearOf(y - 1);
      assert DaysInYears(y0, y) == DaysInYears(y0, y - 1) + DaysInYear(y - 1);
    }
  }

  /** One year has three tasks per day, one annual archive and four per month. */
  lemma YearCount(y: nat)
    ensures |YearOf(y)| == 3 * DaysInYear(y) + 1 + 4 * 12
  {
    MonthsCount(y, 12);
    MonthsFillYear(y);
  }

  /** 2019..2025 has 2557 days: 7 years of 365 days and the leap days of 2020 and 2024. */
  lemma ConfiguredDays()
    ensures DaysInYears(StartYear, EndYear + 1) == 2557
  {
  }

  /** The configured range yields 3 * 2557 + 7 + 4 * 84 = 8014 tasks. */
  lemma ConfiguredPlanCount()
    ensures |Plan(StartYear, EndYear)| == 8014
  {
    ConfiguredDays();
    YearsCount(StartYear, EndYear + 1);
  }

  // ---- Distinct file names ----

  /** Years the file-name formats render in four digits. */
  predicate Printable(s: Slot) {
    FourDigitYear(SlotDate(s).year)
  }

  /** Two well-formed tasks with the same file name are the same task. */
  lemma RenderInjective(a: Slot, b: Slot)
    requires WellFormed(a) && WellFormed(b) && Printable(a) && Printable(b)
    requires Render(a).filename == Render(b).filename
    ensures a == b
  {
    var prefix := DailyCategory + "_";
    match a
    case DailyFile(d1, p1) => {
      match b {
        case DailyFile(d2, p2) =>
          SplitAt(prefix + YearMonthDay(d1), DailyExts[p1], prefix + YearMonthDay(d2), DailyExts[p2]);
          SplitAt(prefix, YearMonthDay(d1), prefix, YearMonthDay(d2));
          YearMonthDayInjective(d1, d2);
        case AnnualArchive(y2) =>
          FourDigitYearDecimal(y2);
        case MonthlyArchive(_, _, _) =>
      }
    }
    case AnnualArchive(y1) => {
      FourDigitYearDecimal(y1);
      match b {
        case DailyFile(_, _) =>
        case AnnualArchive(y2) =>
          FourDigitYearDecimal(y2);
          SplitAt(prefix + Decimal(y1), ArchiveExt, prefix + Decimal(y2), ArchiveExt);
          SplitAt(prefix, Decimal(y1), prefix, Decimal(y2));
          DecimalRoundTrip(y1);
          DecimalRoundTrip(y2);
        case MonthlyArchive(_, _, _) =>
      }
    }
    case MonthlyArchive(k1, y1, m1) => {
      match b {
        case DailyFile(_, _) =>
        case AnnualArchive(y2) =>
          FourDigitYearDecimal(y2);
        case MonthlyArchive(k2, y2, m2) =>
          var key1, key2 := MonthlyKeys[k1], MonthlyKeys[k2];
          if |key1| == |key2| {
            SplitAt(key1 + "_" + YearMonth(y1, m1), ArchiveExt, key2 + "_" + YearMonth(y2, m2), ArchiveExt);
            SplitAt(key1 + "_", YearMonth(y1, m1), key2 + "_", YearMonth(y2, m2));
            SplitAt(key1, "_", key2, "_");
          }
          assert k1 == k2;
          YearMonthInjective(y1, m1, y2, m2);
      }
    }
  }

  /** No two tasks of a range of four-digit years share a file name. */
  lemma PlanFileNamesDistinct(y0: nat, y1: nat)
    requires 1000 <= y0 && y1 <= 9999
    ensures forall i, j :: 0 <= i < j < |Plan(y0, y1)| ==>
      RenderAll(Plan(y0, y1))[i].filename != RenderAll(Plan(y0, y1))[j].filename
  {
    var p := Plan(y0, y1);
    PlanOrdered(y0, y1);
    forall i, j | 0 <= i < j < |p| ensures RenderAll(p)[i].filename != RenderAll(p)[j].filename {
      PlanContents(y0, y1, p[i]);
      PlanContents(y0, y1, p[j]);
      if Render(p[i]).filename == Render(p[j]).filename {
        RenderInjective(p[i], p[j]);
      }
    }
  }
}
