/**
 The loop of `run_downloader` that builds the task list: it starts at
 1 January of the first year, appends the day's tasks and steps one day at a
 time until it has passed 31 December of the last year.
 */
module Enumerator {
  import opened Calendar
  import opened Naming
  import opened Catalogue
  import opened Schedule
  import opened ScheduleFacts

  /**
   The task list for the years startYear..endYear. Years have four digits so that
   both year formats print them alike, and 9999 is excluded because `datetime`
   cannot step past 9999-12-31.
   */
  method EnumerateTasks(startYear: nat, endYear: nat) returns (tasks: seq<Task>)
    requires 1000 <= startYear <= endYear < 9999
    ensures tasks == RenderAll(Plan(startYear, endYear))
    ensures forall i, j :: 0 <= i < j < |tasks| ==> tasks[i].filename != tasks[j].filename
  {
    tasks := [];
    var curr := Date(startYear, 1, 1);
    var endDate := Date(endYear, 12, 31);
    while AtOrBefore(curr, endDate)
      invariant Valid(curr) && startYear <= curr.year
      invariant AtOrBefore(curr, Date(endYear + 1, 1, 1))
      invariant tasks == RenderAll(PlanBefore(startYear, curr))
      decreases DayKey(endDate) - DayKey(curr)
    {
      tasks := AppendDayTasks(tasks, curr);
      RenderAllConcat(PlanBefore(startYear, curr), DaySlots(curr));
      PlanBeforeStep(startYear, curr);
      NextDayIsImmediate(curr, Date(endYear + 1, 1, 1));
      DayKeyOrder(curr, endDate);
      DayKeyOrder(curr, NextDay(curr));
      curr := NextDay(curr);
    }
    PlanBeforeEnd(startYear, endYear);
    PlanFileNamesDistinct(startYear, endYear);
  }

  /** The task list of the configured years: 8014 tasks with distinct file names. */
  method ConfiguredTasks() returns (tasks: seq<Task>)
    ensures |tasks| == 8014
    ensures forall i, j :: 0 <= i < j < |tasks| ==> tasks[i].filename != tasks[j].filename
    ensures tasks == RenderAll(Plan(StartYear, EndYear))
  {
    tasks := EnumerateTasks(StartYear, EndYear);
    ConfiguredPlanCount();
  }

  /** The body of the loop for one date: the daily parts, the annual and the monthly archives. */
  method AppendDayTasks(tasks: seq<Task>, curr: Date) returns (tasks': seq<Task>)
    ensures tasks' == tasks + RenderAll(DaySlots(curr))
  {
    tasks' := tasks;
    ghost var today: seq<Slot> := [];
    for i := 0 to |DailyExts|
      invariant today == seq(i, p requires 0 <= p < i => DailyFile(curr, p))
      invariant tasks' == tasks + RenderAll(today)
    {
      var fn := DailyName(DailyCategory, curr, DailyExts[i]);
      tasks' := tasks' + [Task(DailyCategory, fn)];
      today := today + [DailyFile(curr, i)];
    }
    if curr.month == 1 && curr.day == 1 {
      tasks' := tasks' + [Task(DailyCategory, AnnualName(DailyCategory, curr.year))];
      today := today + [AnnualArchive(curr.year)];
    }
    if curr.day == 1 {
      ghost var early := today;
      for k := 0 to |MonthlyKeys|
        invariant today == early + seq(k, q requires 0 <= q < k => MonthlyArchive(q, curr.year, curr.month))
        invariant tasks' == tasks + RenderAll(today)
      {
        var fn := MonthlyName(MonthlyKeys[k], curr.year, curr.month);
        tasks' := tasks' + [Task(MonthlyKeys[k], fn)];
        today := today + [MonthlyArchive(k, curr.year, curr.month)];
      }
    }
    assert today == DaySlots(curr);
  }
}
