/**
 Fetching one task (`download_file`) and the driver loop that fetches every
 task in order and pauses after each fetch according to its outcome. The local
 disk is a set of category folders and a set of file paths, the error log a
 sequence of messages, and the network the response the server would give to
 each request; the requests actually issued are recorded so that "no network
 activity" can be stated.
 */
module Fetch {
  import opened Naming
  import opened Schedule

  datatype Outcome = Success | Skipped | NotFound | Failed

  /**
   What becomes of the body of a 200 response: it streams to the end, it breaks
   off with an exception after the file was opened, or opening the file for
   writing raises before anything is written.
   */
  datatype Body = Complete | Broken(fault: string) | Unopened(fault: string)

  /** What the remote side does with one request. */
  datatype Response =
    | Reply(code: nat, body: Body)   // a status line arrived; the body matters only for 200
    | Fault(description: string)     // the request itself raised (refused, timed out, malformed)

  /** `ROOT_FOLDER/<folder>/<name>`. */
  datatype Path = Path(folder: string, name: string)

  function PathOf(t: Task): Path {
    Path(t.category, t.filename)
  }

  /** The outcome of a fetch, from whether the file is already on disk and what the server does. */
  function Classify(present: bool, r: Response): (o: Outcome)
    ensures o == Skipped <==> present
    ensures o == Success <==> !present && r == Reply(200, Complete)
    ensures o == NotFound <==> !present && r.Reply? && r.code == 404
    ensures o == Failed <==> !present && (r.Fault? || (r.code != 200 && r.code != 404) || (r.code == 200 && !r.body.Complete?))
  {
    if present then Skipped
    else match r
      case Fault(_) => Failed
      case Reply(code, body) =>
        if code == 200 then (if body.Complete? then Success else Failed)
        else if code == 404 then NotFound
        else Failed
  }

  /** The message `log_error` receives for a status other than 200 and 404. */
  function StatusMessage(filename: string, code: nat): (message: string)
    ensures |message| == |filename| + |Decimal(code)| + 16
    ensures message[..8] == "Failed: " && message[8..8 + |filename|] == filename
    ensures message[|message| - 1] == ')'
  {
    "Failed: " + filename + " (HTTP " + Decimal(code) + ")"
  }

  /** The message `log_error` receives for an exception. */
  function FaultMessage(filename: string, fault: string): (message: string)
    ensures |message| == |filename| + |fault| + 10
    ensures message[..7] == "Error: " && message[7..7 + |filename|] == filename
    ensures message[7 + |filename| + 2..|message| - 1] == fault
  {
    "Error: " + filename + " (" + fault + ")"
  }

  /** The messages a fetch of an absent file appends to the error log. */
  function LogEntries(filename: string, r: Response): (lines: seq<string>)
    ensures |lines| == (if Classify(false, r) == Failed then 1 else 0)
  {
    match r
    case Fault(e) => [FaultMessage(filename, e)]
    case Reply(code, body) =>
      if code == 200 then (if body.Complete? then [] else [FaultMessage(filename, body.fault)])
      else if code == 404 then []
      else [StatusMessage(filename, code)]
  }

  /**
   A logged line names the file and its cause: the line is the file name between
   a fixed head and the cause, and a status code can be read back from its digits.
   */
  lemma LogEntryRecordsCause(filename: string, r: Response)
    requires Classify(false, r) == Failed
    ensures var line := LogEntries(filename, r)[0];
      if r.Reply? && r.code != 200 then
        && line[..9 + |filename|] == "Failed: " + filename + " "
        && line[9 + |filename|..|line| - 1] == "(HTTP " + Decimal(r.code)
        && ValueOf(line[15 + |filename|..|line| - 1]) == r.code
      else
        var fault := if r.Fault? then r.description else r.body.fault;
        line == "Error: " + filename + " (" + fault + ")"
  {
    if r.Reply? && r.code != 200 {
      var line := LogEntries(filename, r)[0];
      assert line == "Failed: " + filename + " " + ("(HTTP " + Decimal(r.code)) + ")";
      assert line[15 + |filename|..|line| - 1] == Decimal(r.code);
      DecimalRoundTrip(r.code);
    }
  }

  /** Whether a fetch that reaches the server leaves its file on disk: a 200 whose file could be opened. */
  predicate Creates(r: Response) {
    r.Reply? && r.code == 200 && !r.body.Unopened?
  }

  /** The pause after a fetch, in units of `DELAY`. */
  function PauseAfter(o: Outcome): (units: nat)
    ensures units <= 2
    ensures units == 0 <==> o == Skipped || o == NotFound
  {
    match o
    case Success => 1
    case Failed => 2
    case Skipped => 0
    case NotFound => 0
  }

  /** How many of the outcomes equal o. */
  function Count(os: seq<Outcome>, o: Outcome): (n: nat)
    ensures n <= |os|
  {
    if os == [] then 0 else Count(os[..|os| - 1], o) + (if os[|os| - 1] == o then 1 else 0)
  }

  /** The pauses of a whole run, in units of `DELAY`. */
  function TotalPause(os: seq<Outcome>): nat {
    if os == [] then 0 else TotalPause(os[..|os| - 1]) + PauseAfter(os[|os| - 1])
  }

  /** A run pauses once per success and twice per failure, and never otherwise. */
  lemma {:induction false} TotalPauseCounts(os: seq<Outcome>)
    ensures TotalPause(os) == Count(os, Success) + 2 * Count(os, Failed)
  {
    if os != [] {
      TotalPauseCounts(os[..|os| - 1]);
    }
  }

  /*
   The accounts of a run: the first |outcomes| tasks have been fetched, task i
   with outcome outcomes[i] and response responses[i].
   */

  /** The tasks of a run that reached the server, in order. */
  function Fetched(tasks: seq<Task>, outcomes: seq<Outcome>): (fetched: seq<Task>)
    requires |outcomes| <= |tasks|
    ensures |fetched| == |outcomes| - Count(outcomes, Skipped)
  {
    if outcomes == [] then []
    else
      var n := |outcomes| - 1;
      Fetched(tasks, outcomes[..n]) + (if outcomes[n] == Skipped then [] else [tasks[n]])
  }

  /** The lines a run appends to the error log, in order. */
  function RunLog(tasks: seq<Task>, responses: seq<Response>, outcomes: seq<Outcome>): seq<string>
    requires |outcomes| <= |tasks| == |responses|
  {
    if outcomes == [] then []
    else
      var n := |outcomes| - 1;
      RunLog(tasks, responses, outcomes[..n])
      + (if outcomes[n] == Skipped then [] else LogEntries(tasks[n].filename, responses[n]))
  }

  /** The files a run creates. */
  function Created(tasks: seq<Task>, responses: seq<Response>, outcomes: seq<Outcome>): set<Path>
    requires |outcomes| <= |tasks| == |responses|
  {
    if outcomes == [] then {}
    else
      var n := |outcomes| - 1;
      Created(tasks, responses, outcomes[..n])
      + (if outcomes[n] != Skipped && Creates(responses[n]) then {PathOf(tasks[n])} else {})
  }

  /** The category folders of a task list. */
  function Categories(tasks: seq<Task>): set<string> {
    set i | 0 <= i < |tasks| :: tasks[i].category
  }

  /**
   When every fetched task's outcome is what the server's response makes of an
   absent file, the run logs exactly one line per failure.
   */
  lemma {:induction false} RunLogLength(tasks: seq<Task>, responses: seq<Response>, outcomes: seq<Outcome>)
    requires |outcomes| <= |tasks| == |responses|
    requires forall i :: 0 <= i < |outcomes| && outcomes[i] != Skipped ==> outcomes[i] == Classify(false, responses[i])
    ensures |RunLog(tasks, responses, outcomes)| == Count(outcomes, Failed)
  {
    if outcomes != [] {
      var n := |outcomes| - 1;
      RunLogLength(tasks, responses, outcomes[..n]);
    }
  }

  /** One more task adds its category to the folders of a run. */
  lemma {:induction false} CategoriesStep(tasks: seq<Task>, i: nat)
    requires i < |tasks|
    ensures Categories(tasks[..i + 1]) == Categories(tasks[..i]) + {tasks[i].category}
  {
    var a, b := tasks[..i], tasks[..i + 1];
    forall c | c in Categories(b) ensures c in Categories(a) + {tasks[i].category} {
      var j :| 0 <= j < i + 1 && b[j].category == c;
      if j < i {
        assert a[j].category == c;
      }
    }
    forall c | c in Categories(a) ensures c in Categories(b) {
      var j :| 0 <= j < i && a[j].category == c;
      assert b[j].category == c;
    }
    assert b[i].category == tasks[i].category;
  }

  /** One more task extends the files, the log and the requests of a run by that task's share alone. */
  lemma {:induction false} RunStep(tasks: seq<Task>, responses: seq<Response>, outcomes: seq<Outcome>, o: Outcome)
    requires |tasks| == |responses| && |outcomes| < |tasks|
    ensures var i := |outcomes|;
      && Created(tasks, responses, outcomes + [o])
         == Created(tasks, responses, outcomes) + (if o != Skipped && Creates(responses[i]) then {PathOf(tasks[i])} else {})
      && RunLog(tasks, responses, outcomes + [o])
         == RunLog(tasks, responses, outcomes) + (if o == Skipped then [] else LogEntries(tasks[i].filename, responses[i]))
      && Fetched(tasks, outcomes + [o]) == Fetched(tasks, outcomes) + (if o == Skipped then [] else [tasks[i]])
  {
    assert (outcomes + [o])[..|outcomes|] == outcomes;
  }

  /** Appending an outcome leaves every earlier prefix of the outcomes as it was. */
  lemma {:induction false} PrefixesKept(outcomes: seq<Outcome>, o: Outcome)
    ensures forall k :: 0 <= k <= |outcomes| ==> (outcomes + [o])[..k] == outcomes[..k]
  {
  }

  /**
   Each outcome of a run is what `download_file` makes of its response and of
   the disk as the run has left it: the files there before, `files0`, and those
   the earlier tasks created.
   */
  predicate Replays(files0: set<Path>, tasks: seq<Task>, responses: seq<Response>, outcomes: seq<Outcome>)
    requires |outcomes| <= |tasks| == |responses|
  {
    forall k :: 0 <= k < |outcomes| ==>
      outcomes[k] == Classify(PathOf(tasks[k]) in files0 + Created(tasks, responses, outcomes[..k]), responses[k])
  }

  /** A run that replays so far still replays after one more fetch done on the disk it left. */
  lemma {:induction false} ReplaysStep(files0: set<Path>, tasks: seq<Task>, responses: seq<Response>, outcomes: seq<Outcome>, o: Outcome)
    requires |outcomes| < |tasks| == |responses|
    requires Replays(files0, tasks, responses, outcomes)
    requires o == Classify(PathOf(tasks[|outcomes|]) in files0 + Created(tasks, responses, outcomes), responses[|outcomes|])
    ensures Replays(files0, tasks, responses, outcomes + [o])
  {
    PrefixesKept(outcomes, o);
  }

  /** The disk after one more fetch: the files it had, plus the one that fetch created, if any. */
  lemma {:induction false} FilesStep(files0: set<Path>, tasks: seq<Task>, responses: seq<Response>, done: seq<Outcome>,
                                     o: Outcome, before: set<Path>, after: set<Path>)
    requires |done| < |tasks| == |responses|
    requires before == files0 + Created(tasks, responses, done)
    requires after == before + (if o != Skipped && Creates(responses[|done|]) then {PathOf(tasks[|done|])} else {})
    ensures after == files0 + Created(tasks, responses, done + [o])
  {
    RunStep(tasks, responses, done, o);
  }

  /** The log after one more fetch: the lines it had, plus that fetch's lines. */
  lemma {:induction false} LogStep(log0: seq<string>, tasks: seq<Task>, responses: seq<Response>, done: seq<Outcome>,
                                   o: Outcome, before: seq<string>, after: seq<string>)
    requires |done| < |tasks| == |responses|
    requires before == log0 + RunLog(tasks, responses, done)
    requires after == before + (if o == Skipped then [] else LogEntries(tasks[|done|].filename, responses[|done|]))
    ensures after == log0 + RunLog(tasks, responses, done + [o])
  {
    RunStep(tasks, responses, done, o);
    var lines := if o == Skipped then [] else LogEntries(tasks[|done|].filename, responses[|done|]);
    assert log0 + RunLog(tasks, responses, done) + lines == log0 + (RunLog(tasks, responses, done) + lines);
  }

  /** The requests after one more fetch: those sent before, plus that task unless it was skipped. */
  lemma {:induction false} RequestsStep(requests0: seq<Task>, tasks: seq<Task>, done: seq<Outcome>,
                                        o: Outcome, before: seq<Task>, after: seq<Task>)
    requires |done| < |tasks|
    requires before == requests0 + Fetched(tasks, done)
    requires after == before + (if o == Skipped then [] else [tasks[|done|]])
    ensures after == requests0 + Fetched(tasks, done + [o])
  {
    assert (done + [o])[..|done|] == done;
    var sent := if o == Skipped then [] else [tasks[|done|]];
    assert requests0 + Fetched(tasks, done) + sent == requests0 + (Fetched(tasks, done) + sent);
  }

  /** A file a run creates is the file of one of its fetched tasks. */
  lemma {:induction false} CreatedFromTasks(tasks: seq<Task>, responses: seq<Response>, outcomes: seq<Outcome>, p: Path)
    requires |outcomes| <= |tasks| == |responses|
    requires p in Created(tasks, responses, outcomes)
    ensures exists j :: 0 <= j < |outcomes| && PathOf(tasks[j]) == p
  {
    var n := |outcomes| - 1;
    if p in Created(tasks, responses, outcomes[..n]) {
      CreatedFromTasks(tasks, responses, outcomes[..n], p);
    } else {
      assert PathOf(tasks[n]) == p;
    }
  }

  /**
   If each task's outcome is what its response makes of the disk as the run has
   left it, then: a fetched task's outcome depends on its response alone, a
   task whose file was there before is skipped, and a skip has no other cause
   than an earlier task with the same file.
   */
  lemma {:induction false} RunConsequences(files0: set<Path>, tasks: seq<Task>, responses: seq<Response>, outcomes: seq<Outcome>)
    requires |outcomes| == |tasks| == |responses|
    requires Replays(files0, tasks, responses, outcomes)
    ensures forall i :: 0 <= i < |tasks| && outcomes[i] != Skipped ==> outcomes[i] == Classify(false, responses[i])
    ensures forall i :: 0 <= i < |tasks| && PathOf(tasks[i]) in files0 ==> outcomes[i] == Skipped
    ensures forall i :: 0 <= i < |tasks| && outcomes[i] == Skipped ==>
      PathOf(tasks[i]) in files0 || exists k :: 0 <= k < i && PathOf(tasks[k]) == PathOf(tasks[i])
  {
    forall i | 0 <= i < |tasks| && outcomes[i] == Skipped && PathOf(tasks[i]) !in files0
      ensures exists k :: 0 <= k < i && PathOf(tasks[k]) == PathOf(tasks[i])
    {
      SkipCause(files0, tasks, responses, outcomes, i);
    }
  }

  /** A task skipped although its file was not there before the run follows a task with the same file. */
  lemma {:induction false} SkipCause(files0: set<Path>, tasks: seq<Task>, responses: seq<Response>, outcomes: seq<Outcome>, i: nat)
    requires |outcomes| == |tasks| == |responses| && i < |tasks|
    requires outcomes[i] == Classify(PathOf(tasks[i]) in files0 + Created(tasks, responses, outcomes[..i]), responses[i])
    requires outcomes[i] == Skipped && PathOf(tasks[i]) !in files0
    ensures exists k :: 0 <= k < i && PathOf(tasks[k]) == PathOf(tasks[i])
  {
    CreatedFromTasks(tasks, responses, outcomes[..i], PathOf(tasks[i]));
  }

  /**
   In a run whose tasks have distinct file names, no task finds a file an
   earlier task created: each outcome is what its response makes of the disk
   as it was before the run.
   */
  lemma {:induction false} DistinctTasksSeeOldDisk(files0: set<Path>, tasks: seq<Task>, responses: seq<Response>, outcomes: seq<Outcome>)
    requires |outcomes| == |tasks| == |responses|
    requires forall i, j :: 0 <= i < j < |tasks| ==> tasks[i].filename != tasks[j].filename
    requires Replays(files0, tasks, responses, outcomes)
    ensures forall i :: 0 <= i < |tasks| ==> outcomes[i] == Classify(PathOf(tasks[i]) in files0, responses[i])
  {
    forall i | 0 <= i < |tasks|
      ensures outcomes[i] == Classify(PathOf(tasks[i]) in files0, responses[i])
    {
      if PathOf(tasks[i]) in Created(tasks, responses, outcomes[..i]) {
        CreatedFromTasks(tasks, responses, outcomes[..i], PathOf(tasks[i]));
        assert false;
      }
    }
  }

  /** The local disk, the error log and the requests sent so far. */
  class Workspace {
    var folders: set<string>
    var files: set<Path>
    var log: seq<string>
    var requests: seq<Task>

    /** A disk left by earlier runs, possibly with files and log lines already there. */
    constructor (folders0: set<string>, files0: set<Path>, log0: seq<string>)
      ensures folders == folders0 && files == files0 && log == log0 && requests == []
    {
      folders, files, log, requests := folders0, files0, log0, [];
    }

    /** `log_error`, without the timestamp. */
    method LogError(message: string)
      modifies this`log
      ensures log == old(log) + [message]
    {
      log := log + [message];
    }

    /** `download_file(session, parent, filename)`, the server answering with `response`. */
    method DownloadFile(parent: string, filename: string, response: Response) returns (outcome: Outcome)
      modifies this
      ensures outcome == Classify(Path(parent, filename) in old(files), response)
      ensures folders == old(folders) + {parent}
      ensures requests == old(requests) + (if outcome == Skipped then [] else [Task(parent, filename)])
      ensures log == old(log) + (if outcome == Skipped then [] else LogEntries(filename, response))
      ensures files == old(files) + (if outcome != Skipped && Creates(response) then {Path(parent, filename)} else {})
    {
      if parent !in folders {
        folders := folders + {parent};
      }
      var savePath := Path(parent, filename);
      if savePath in files {
        return Skipped;
      }
      requests := requests + [Task(parent, filename)];
      match response
      case Fault(e) =>
        LogError(FaultMessage(filename, e));
        outcome := Failed;
      case Reply(code, body) =>
        if code == 200 {
          match body
          case Unopened(e) =>
            LogError(FaultMessage(filename, e));
            outcome := Failed;
          case Complete =>
            files := files + {savePath};
            outcome := Success;
          case Broken(e) =>
            // The file was created before the first chunk arrived.
            files := files + {savePath};
            LogError(FaultMessage(filename, e));
            outcome := Failed;
        } else if code == 404 {
          outcome := NotFound;
        } else {
          LogError(StatusMessage(filename, code));
          outcome := Failed;
        }
    }

    /**
     Fetching the same file twice: once the first fetch got a 200 status and
     opened the file, the second is skipped without a request, whether the body
     arrived whole or not; a first fetch that left no file is tried again.
     */
    method DownloadTwice(parent: string, filename: string, first: Response, second: Response)
      returns (o1: Outcome, o2: Outcome)
      modifies this
      ensures Creates(first) ==> o2 == Skipped
      ensures o1 != Skipped && !Creates(first) ==> o2 == Classify(false, second)
      ensures o1 == Success ==> o2 == Skipped && requests == old(requests) + [Task(parent, filename)]
      ensures o1 == Skipped ==> o2 == Skipped && requests == old(requests)
    {
      o1 := DownloadFile(parent, filename, first);
      o2 := DownloadFile(parent, filename, second);
    }

    /**
     One turn of the download loop: fetch the next task of a run whose first
     |done| tasks left the disk, the log and the requests as the run functions
     say, starting from `files0`, `folders0`, `log0` and `requests0`.
     */
    method FetchNext(tasks: seq<Task>, responses: seq<Response>, done: seq<Outcome>,
                     ghost files0: set<Path>, ghost folders0: set<string>, ghost log0: seq<string>, ghost requests0: seq<Task>)
      returns (status: Outcome)
      requires |done| < |tasks| == |responses|
      requires Replays(files0, tasks, responses, done)
      requires folders == folders0 + Categories(tasks[..|done|])
      requires files == files0 + Created(tasks, responses, done)
      requires log == log0 + RunLog(tasks, responses, done)
      requires requests == requests0 + Fetched(tasks, done)
      modifies this
      ensures Replays(files0, tasks, responses, done + [status])
      ensures folders == folders0 + Categories(tasks[..|done| + 1])
      ensures files == files0 + Created(tasks, responses, done + [status])
      ensures log == log0 + RunLog(tasks, responses, done + [status])
      ensures requests == requests0 + Fetched(tasks, done + [status])
    {
      var i := |done|;
      ghost var files1, log1, requests1 := files, log, requests;
      status := DownloadFile(tasks[i].category, tasks[i].filename, responses[i]);
      ReplaysStep(files0, tasks, responses, done, status);
      CategoriesStep(tasks, i);
      FilesStep(files0, tasks, responses, done, status, files1, files);
      LogStep(log0, tasks, responses, done, status, log1, log);
      RequestsStep(requests0, tasks, done, status, requests1, requests);
    }

    /**
     The download loop of `run_downloader`: every task in order, the server
     answering task i with `responses[i]`; `pause` is the total sleep in units of
     `DELAY`. Task i sees the disk as the run has left it so far.
     */
    method RunDownloads(tasks: seq<Task>, responses: seq<Response>) returns (outcomes: seq<Outcome>, pause: nat)
      requires |responses| == |tasks|
      modifies this
      ensures |outcomes| == |tasks|
      ensures Replays(old(files), tasks, responses, outcomes)
      ensures forall i :: 0 <= i < |tasks| && outcomes[i] != Skipped ==> outcomes[i] == Classify(false, responses[i])
      ensures forall i :: 0 <= i < |tasks| && PathOf(tasks[i]) in old(files) ==> outcomes[i] == Skipped
      ensures forall i :: 0 <= i < |tasks| && outcomes[i] == Skipped ==>
        PathOf(tasks[i]) in old(files) || exists k :: 0 <= k < i && PathOf(tasks[k]) == PathOf(tasks[i])
      ensures folders == old(folders) + Categories(tasks)
      ensures files == old(files) + Created(tasks, responses, outcomes)
      ensures log == old(log) + RunLog(tasks, responses, outcomes)
      ensures requests == old(requests) + Fetched(tasks, outcomes)
      ensures |log| == |old(log)| + Count(outcomes, Failed)
      ensures |requests| == |old(requests)| + |tasks| - Count(outcomes, Skipped)
      ensures pause == TotalPause(outcomes) == Count(outcomes, Success) + 2 * Count(outcomes, Failed)
    {
      outcomes, pause := [], 0;
      for i := 0 to |tasks|
        invariant |outcomes| == i
        invariant Replays(old(files), tasks, responses, outcomes)
        invariant folders == old(folders) + Categories(tasks[..i])
        invariant files == old(files) + Created(tasks, responses, outcomes)
        invariant log == old(log) + RunLog(tasks, responses, outcomes)
        invariant requests == old(requests) + Fetched(tasks, outcomes)
        invariant pause == TotalPause(outcomes)
      {
        var status := FetchNext(tasks, responses, outcomes, old(files), old(folders), old(log), old(requests));
        pause := pause + PauseAfter(status);
        assert (outcomes + [status])[..i] == outcomes;
        outcomes := outcomes + [status];
      }
      assert tasks[..|tasks|] == tasks;
      RunConsequences(old(files), tasks, responses, outcomes);
      RunLogLength(tasks, responses, outcomes);
      TotalPauseCounts(outcomes);
    }
  }
}
