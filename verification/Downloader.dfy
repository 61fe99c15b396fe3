/**
 `run_downloader`: build the task list for the configured years, then fetch
 every task in order.
 */
module Downloader {
  import opened Schedule
  import opened ScheduleFacts
  import opened Catalogue
  import opened Enumerator
  import opened Fetch

  /**
   One run over a disk `ws`, the server answering task i with `responses[i]`.
   Because file names are distinct, no task sees a file an earlier task of the
   same run created: each outcome is what its response makes of the disk as it
   was before the run.
   */
  method RunDownloader(ws: Workspace, responses: seq<Response>)
    returns (tasks: seq<Task>, outcomes: seq<Outcome>, pause: nat)
    requires |responses| == 8014
    modifies ws
    ensures |tasks| == 8014 && |outcomes| == |tasks|
    ensures forall i :: 0 <= i < |tasks| ==> outcomes[i] == Classify(PathOf(tasks[i]) in old(ws.files), responses[i])
    ensures ws.folders == old(ws.folders) + Categories(tasks)
    ensures ws.files == old(ws.files) + Created(tasks, responses, outcomes)
    ensures ws.log == old(ws.log) + RunLog(tasks, responses, outcomes)
    ensures ws.requests == old(ws.requests) + Fetched(tasks, outcomes)
    ensures |ws.log| == |old(ws.log)| + Count(outcomes, Failed)
    ensures |ws.requests| == |old(ws.requests)| + |tasks| - Count(outcomes, Skipped)
    ensures pause == Count(outcomes, Success) + 2 * Count(outcomes, Failed)
    ensures tasks == RenderAll(Plan(StartYear, EndYear))
  {
    tasks := ConfiguredTasks();
    outcomes, pause := ws.RunDownloads(tasks, responses);
    RunLogLength(tasks, responses, outcomes);
    DistinctTasksSeeOldDisk(old(ws.files), tasks, responses, outcomes);
  }
}
