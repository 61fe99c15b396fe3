/**
 What the task enumerator produces, stated without the loop: every date of the
 range contributes the tasks of its day, days in calendar order. A task is first
 described by a `Slot` (which file family, which period, which part) and then
 rendered as the `(category, filename)` pair the downloader queues.
 */
module Schedule {
  import opened Calendar
  import opened Naming
  import opened Catalogue

  /** One unit of work: the folder (category) and the file name to fetch. */
  datatype Task = Task(category: string, filename: string)

  /** Index into `DailyExts`. */
  type ExtIndex = p: nat | p < 3
  /** Index into `MonthlyKeys`. */
  type KeyIndex = k: nat | k < 4

  /** The period and family a task stands for. */
  datatype Slot =
    | DailyFile(date: Date, part: ExtIndex)
    | AnnualArchive(year: nat)
    | MonthlyArchive(key: KeyIndex, year: nat, month: nat)

  function Render(s: Slot): Task {
    match s
    case DailyFile(d, p) => Task(DailyCategory, DailyName(DailyCategory, d, DailyExts[p]))
    case AnnualArchive(y) => Task(DailyCategory, AnnualName(DailyCategory, y))
    case MonthlyArchive(k, y, m) => Task(MonthlyKeys[k], MonthlyName(MonthlyKeys[k], y, m))
  }

  function RenderAll(ss: seq<Slot>): (ts: seq<Task>)
    ensures |ts| == |ss|
    ensures forall i :: 0 <= i < |ss| ==> ts[i] == Render(ss[i])
  {
    seq(|ss|, i requires 0 <= i < |ss| => Render(ss[i]))
  }

  lemma RenderAllConcat(a: seq<Slot>, b: seq<Slot>)
    ensures RenderAll(a + b) == RenderAll(a) + RenderAll(b)
  {
  }

  /** The date on which the enumerator emits a task. */
  function SlotDate(s: Slot): (d: Date)
    ensures WellFormed(s) ==> Valid(d)
  {
    match s
    case DailyFile(d, _) => d
    case AnnualArchive(y) => Date(y, 1, 1)
    case MonthlyArchive(_, y, m) => Date(y, m, 1)
  }

  /** A slot the enumerator could emit for some range: its period exists on the calendar. */
  predicate WellFormed(s: Slot) {
    match s
    case DailyFile(d, _) => Valid(d)
    case AnnualArchive(_) => true
    case MonthlyArchive(_, _, m) => 1 <= m <= 12
  }

  /** The tasks of one day, in the order the loop body appends them. */
  function DaySlots(d: Date): (slots: seq<Slot>)
    ensures |slots| == 3 + (if d.month == 1 && d.day == 1 then 1 else 0) + (if d.day == 1 then 4 else 0)
    ensures forall i :: 0 <= i < |slots| ==> SlotDate(slots[i]) == d
  {
    seq(|DailyExts|, p requires 0 <= p < |DailyExts| => DailyFile(d, p))
    + (if d.month == 1 && d.day == 1 then [AnnualArchive(d.year)] else [])
    + (if d.day == 1 then seq(|MonthlyKeys|, k requires 0 <= k < |MonthlyKeys| => MonthlyArchive(k, d.year, d.month)) else [])
  }

  /** Days 1..n of month m of year y. */
  function DaysOf(y: nat, m: nat, n: nat): seq<Slot> {
    if n == 0 then [] else DaysOf(y, m, n - 1) + DaySlots(Date(y, m, n))
  }

  function MonthOf(y: nat, m: nat): seq<Slot>
    requires 1 <= m <= 12
  {
    DaysOf(y, m, DaysInMonth(y, m))
  }

  /** Months 1..n of year y. */
  function MonthsOf(y: nat, n: nat): seq<Slot>
    requires n <= 12
  {
    if n == 0 then [] else MonthsOf(y, n - 1) + MonthOf(y, n)
  }

  function YearOf(y: nat): seq<Slot> {
    MonthsOf(y, 12)
  }

  /** Years y0..y-1. */
  function YearsFrom(y0: nat, y: nat): seq<Slot>
    decreases y - y0
  {
    if y <= y0 then [] else YearsFrom(y0, y - 1) + YearOf(y - 1)
  }

  /** Every task from y0-01-01 through y1-12-31. */
  function Plan(y0: nat, y1: nat): seq<Slot> {
    YearsFrom(y0, y1 + 1)
  }

  /** The tasks of the days from y0-01-01 up to, but not including, d. */
  function PlanBefore(y0: nat, d: Date): seq<Slot>
    requires Valid(d)
  {
    YearsFrom(y0, d.year) + MonthsOf(d.year, d.month - 1) + DaysOf(d.year, d.month, d.day - 1)
  }

  /** Appending the tasks of day d to those before it gives those before the next day. */
  lemma PlanBeforeStep(y0: nat, d: Date)
    requires Valid(d) && y0 <= d.year
    ensures PlanBefore(y0, d) + DaySlots(d) == PlanBefore(y0, NextDay(d))
  {
    if d.day < DaysInMonth(d.year, d.month) {
      StepWithinMonth(y0, d);
    } else if d.month < 12 {
      StepToNextMonth(y0, d);
    } else {
      StepToNextYear(y0, d);
    }
  }

  lemma StepWithinMonth(y0: nat, d: Date)
    requires Valid(d) && y0 <= d.year && d.day < DaysInMonth(d.year, d.month)
    ensures PlanBefore(y0, d) + DaySlots(d) == PlanBefore(y0, NextDay(d))
  {
    var y, m, n := d.year, d.month, d.day;
    assert NextDay(d) == Date(y, m, n + 1);
    assert DaysOf(y, m, n) == DaysOf(y, m, n - 1) + DaySlots(d);
  }

  lemma StepToNextMonth(y0: nat, d: Date)
    requires Valid(d) && y0 <= d.year && d.day == DaysInMonth(d.year, d.month) && d.month < 12
    ensures PlanBefore(y0, d) + DaySlots(d) == PlanBefore(y0, NextDay(d))
  {
    var y, m, n := d.year, d.month, d.day;
    assert NextDay(d) == Date(y, m + 1, 1);
    assert MonthOf(y, m) == DaysOf(y, m, n - 1) + DaySlots(d);
    assert MonthsOf(y, m) == MonthsOf(y, m - 1) + MonthOf(y, m);
  }

  lemma StepToNextYear(y0: nat, d: Date)
    requires Valid(d) && y0 <= d.year && d.day == DaysInMonth(d.year, d.month) && d.month == 12
    ensures PlanBefore(y0, d) + DaySlots(d) == PlanBefore(y0, NextDay(d))
  {
    var y := d.year;
    assert NextDay(d) == Date(y + 1, 1, 1);
    assert MonthOf(y, 12) == DaysOf(y, 12, 30) + DaySlots(d);
    assert YearOf(y) == MonthsOf(y, 11) + MonthOf(y, 12);
    assert YearsFrom(y0, y + 1) == YearsFrom(y0, y) + YearOf(y);
  }

  /** Once the walk has passed y1-12-31, it has produced the whole plan. */
  lemma PlanBeforeEnd(y0: nat, y1: nat)
    ensures PlanBefore(y0, Date(y1 + 1, 1, 1)) == Plan(y0, y1)
  {
  }
}
