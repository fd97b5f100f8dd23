/** simple_auto_scheduler.py: the single-instance daily posting daemon.

    The host is modelled by values: the process table is the sequence of what
    `psutil.process_iter` yields, `os.kill` is a function from pid to outcome, the
    working directory is a map from file name to contents, and the `schedule`
    package is an oracle that, at each poll, either runs the registered job or not.
    When the job is run is the package's decision and is not modelled. */
module Scheduler {
  import opened Wrappers
  import opened Text
  import Webhook
  import CsvDirect

  /** Command-line fragments that identify a scheduler process. */
  const Targets: seq<string> := [
    "start_auto_scheduler.py",
    "quick_start_scheduler.py",
    "start_scheduler.py",
    "simple_auto_scheduler.py"
  ]

  const PidFileName: string := "scheduler.pid"
  const GraceSeconds: nat := 2
  const PollSeconds: nat := 60

  // ----- process scan -----

  /** One step of `psutil.process_iter(['pid', 'name', 'cmdline'])`: a process's
      info, or the exception reading it raised. The first three exceptions are
      caught and the process skipped; any other escapes the scan. */
  datatype Probe =
    | Info(pid: int, cmdline: Option<seq<string>>)
    | NoSuchProcess
    | AccessDenied
    | ZombieProcess
    | OtherError

  /** `' '.join(cmdline) if cmdline else ''`. */
  function CommandLine(cmdline: Option<seq<string>>): string {
    if cmdline.Some? && |cmdline.value| > 0 then Join(cmdline.value, " ") else ""
  }

  /** `any(target in cmdline for target in target_processes)`. */
  predicate IsTarget(cmd: string) {
    exists k :: 0 <= k < |Targets| && Contains(cmd, Targets[k])
  }

  predicate IsConflict(p: Probe, self: int) {
    p.Info? && IsTarget(CommandLine(p.cmdline)) && p.pid != self
  }

  /** The pids of the conflicting processes, in enumeration order. */
  function ConflictPids(table: seq<Probe>, self: int): (pids: seq<int>)
    ensures self !in pids
    ensures |pids| <= |table|
  {
    if |table| == 0 then []
    else (if IsConflict(table[0], self) then [table[0].pid] else []) + ConflictPids(table[1..], self)
  }

  /** Whether reading some process raised an exception the scan does not catch. */
  predicate ScanRaises(table: seq<Probe>) {
    exists i :: 0 <= i < |table| && table[i].OtherError?
  }

  /** The scan keeps enumeration order: it distributes over concatenation. */
  lemma {:induction false} ConflictPidsAppend(a: seq<Probe>, b: seq<Probe>, self: int)
    ensures ConflictPids(a + b, self) == ConflictPids(a, self) + ConflictPids(b, self)
  {
    if |a| > 0 {
      assert (a + b)[1..] == a[1..] + b;
      ConflictPidsAppend(a[1..], b, self);
    } else {
      assert a + b == b;
    }
  }

  /** A pid is reported exactly when some readable process with that pid, other
      than the daemon itself, has a command line naming one of the targets. A
      process with no command line never matches. */
  lemma {:induction false} ConflictPidsMember(table: seq<Probe>, self: int, p: int)
    ensures p in ConflictPids(table, self) <==>
            exists i :: 0 <= i < |table| && IsConflict(table[i], self) && table[i].pid == p
  {
    if |table| > 0 {
      ConflictPidsMember(table[1..], self, p);
      if p in ConflictPids(table[1..], self) {
        var i :| 0 <= i < |table[1..]| && IsConflict(table[1..][i], self) && table[1..][i].pid == p;
        assert table[i + 1] == table[1..][i];
      }
      if exists i :: 0 <= i < |table| && IsConflict(table[i], self) && table[i].pid == p {
        var i :| 0 <= i < |table| && IsConflict(table[i], self) && table[i].pid == p;
        if i > 0 { assert table[1..][i - 1] == table[i]; }
      }
    }
  }

  lemma NoCommandLineNeverMatches(pid: int, self: int)
    ensures !IsConflict(Info(pid, None), self) && !IsConflict(Info(pid, Some([])), self)
  {
    assert CommandLine(None) == "";
    forall k | 0 <= k < |Targets| ensures !Contains("", Targets[k]) {
      assert |Targets[k]| > 0;
    }
  }

  /** One step of the scan: the conflicts of the first i + 1 processes are those of
      the first i, then the (i+1)-th process's pid if it conflicts. */
  lemma ConflictPidsStep(table: seq<Probe>, i: nat, self: int)
    requires i < |table|
    ensures ConflictPids(table[..i + 1], self)
         == ConflictPids(table[..i], self) + (if IsConflict(table[i], self) then [table[i].pid] else [])
  {
    ConflictPidsAppend(table[..i], [table[i]], self);
    assert table[..i + 1] == table[..i] + [table[i]];
  }

  /** The scan loop of `check_existing_processes`: collect the pids of conflicting
      processes in enumeration order; None when an uncaught exception ended it. */
  method ScanProcesses(table: seq<Probe>, self: int) returns (r: Option<seq<int>>)
    ensures r == if ScanRaises(table) then None else Some(ConflictPids(table, self))
  {
    var found: seq<int> := [];
    var i := 0;
    while i < |table|
      invariant 0 <= i <= |table|
      invariant found == ConflictPids(table[..i], self)
      invariant forall j :: 0 <= j < i ==> !table[j].OtherError?
    {
      var p := table[i];
      if p.OtherError? {
        return None;
      }
      ConflictPidsStep(table, i, self);
      if IsConflict(p, self) {
        found := found + [p.pid];
      }
      i := i + 1;
    }
    assert table[..i] == table;
    return Some(found);
  }

  // ----- terminate loop -----

  /** What `os.kill(pid, SIGTERM)` did. ProcessLookupError and PermissionError are
      caught and reported; any other error escapes the loop. */
  datatype KillOutcome = Signalled | ProcessLookupError | PermissionError | OtherOSError

  /** The pids SIGTERM is sent to, in order, and whether an uncaught error cut the
      loop short (then the last pid is the one that raised it). */
  datatype Termination = Termination(attempted: seq<int>, escaped: bool)

  function Terminate(pids: seq<int>, kill: int -> KillOutcome): (t: Termination)
    ensures |t.attempted| <= |pids| && t.attempted == pids[..|t.attempted|]
  {
    if |pids| == 0 then Termination([], false)
    else if kill(pids[0]) == OtherOSError then Termination([pids[0]], true)
    else
      var rest := Terminate(pids[1..], kill);
      Termination([pids[0]] + rest.attempted, rest.escaped)
  }

  /** No pid's signal raises an error the loop does not catch. */
  predicate AllCaught(pids: seq<int>, kill: int -> KillOutcome) {
    forall j :: 0 <= j < |pids| ==> kill(pids[j]) != OtherOSError
  }

  /** When no signal raises an uncaught error, every pid is signalled once, in order;
      a vanished process or a refused permission does not stop the loop. */
  lemma {:induction false} TerminateAll(pids: seq<int>, kill: int -> KillOutcome)
    ensures Terminate(pids, kill).escaped <==> exists i :: 0 <= i < |pids| && kill(pids[i]) == OtherOSError
    ensures !Terminate(pids, kill).escaped ==> Terminate(pids, kill).attempted == pids
  {
    if |pids| > 0 && kill(pids[0]) != OtherOSError {
      TerminateAll(pids[1..], kill);
      if exists i :: 0 <= i < |pids| && kill(pids[i]) == OtherOSError {
        var i :| 0 <= i < |pids| && kill(pids[i]) == OtherOSError;
        assert pids[1..][i - 1] == pids[i];
      }
    }
  }

  /** An uncaught error at the k-th pid ends the loop there: the pids up to and
      including it were signalled, the rest were not. */
  lemma {:induction false} TerminateStopsAtError(pids: seq<int>, kill: int -> KillOutcome, k: nat)
    requires k < |pids| && kill(pids[k]) == OtherOSError
    requires AllCaught(pids[..k], kill)
    ensures Terminate(pids, kill) == Termination(pids[..k + 1], true)
  {
    if k > 0 {
      assert pids[1..][..k - 1] == pids[..k][1..];
      TerminateStopsAtError(pids[1..], kill, k - 1);
      assert pids[..k + 1] == [pids[0]] + pids[1..][..k];
    }
  }

  /** The result of `check_existing_processes`: the SIGTERMs it sends and the
      boolean it returns (true exactly when conflicts were found and the kill loop
      ran to its end; only then does it wait the grace period). */
  datatype Check = Check(signalled: seq<int>, found: bool)

  function CheckOutcome(table: seq<Probe>, kill: int -> KillOutcome, self: int): (c: Check)
    ensures c.found <==> !ScanRaises(table) && |ConflictPids(table, self)| > 0 &&
                         !Terminate(ConflictPids(table, self), kill).escaped
    ensures !ScanRaises(table) ==> c.signalled == Terminate(ConflictPids(table, self), kill).attempted
    ensures ScanRaises(table) ==> c == Check([], false)
  {
    if ScanRaises(table) then Check([], false)
    else
      var t := Terminate(ConflictPids(table, self), kill);
      Check(t.attempted, |ConflictPids(table, self)| > 0 && !t.escaped)
  }

  // ----- the daemon -----

  /** What ended the poll loop: Ctrl+C without the handler installed, or SIGINT /
      SIGTERM delivered to the handler, which raises `SystemExit(0)`. */
  datatype Signal = SIGINT | SIGTERM
  datatype StopCause = KeyboardInterrupt | Delivered(sig: Signal)

  /** The point of `start_daily_scheduler` at which the stop arrives. */
  datatype Phase = BeforeScan | BeforePidFile | BeforeClear | BeforeRegister | InLoop

  /** How `start_daily_scheduler` ends: it returns, or `SystemExit(code)` propagates. */
  datatype Exit = Returned | SystemExit(code: int)

  /** `signal_handler`: either signal becomes a successful exit. */
  function SignalHandler(sig: Signal): (e: Exit)
    ensures e.SystemExit? && e.code == 0
  {
    SystemExit(0)
  }

  /** How a stop cause leaves the method: `except KeyboardInterrupt` swallows the
      first; `SystemExit` is no `Exception`, so it passes every handler. */
  function ExitFor(cause: StopCause): Exit {
    match cause
    case KeyboardInterrupt => Returned
    case Delivered(sig) => SignalHandler(sig)
  }

  /** An entry of the `schedule` package's job registry: `every().day.at(time)`. */
  datatype DailyJob = DailyJob(time: string)

  /** One call of `schedule.run_pending()`: the job is not due, or it is due and
      runs with today's date, the CSV files as pandas would read them (by path),
      and the webhook's answer. */
  datatype Poll = Idle | Fire(today: string, csvFiles: map<string, CsvDirect.CsvFile>, http: Webhook.HttpOutcome)

  /** The file at `path`, or `Missing` when there is none (`os.path.exists`). */
  function CsvAt(csvFiles: map<string, CsvDirect.CsvFile>, path: string): CsvDirect.CsvFile {
    if path in csvFiles then csvFiles[path] else CsvDirect.Missing
  }

  /** What one poll posts: nothing if the job is not due; if it is, the payload
      of the day's schedule read from `csvFile`, unless formatting it raised. */
  function PollPosts(p: Poll, channel: Option<string>, csvFile: string): seq<Webhook.Payload> {
    if p.Idle? then []
    else
      match CsvDirect.DirectMessage(CsvDirect.ScheduleOf(CsvAt(p.csvFiles, csvFile), p.today), p.today)
      case None => []
      case Some(message) => [Webhook.BuildPayload(message, channel)]
  }

  /** The payloads posted by a run of polls, in order. */
  function Posted(polls: seq<Poll>, channel: Option<string>, csvFile: string): seq<Webhook.Payload> {
    if |polls| == 0 then [] else PollPosts(polls[0], channel, csvFile) + Posted(polls[1..], channel, csvFile)
  }

  lemma {:induction false} PostedSnoc(polls: seq<Poll>, p: Poll, channel: Option<string>, csvFile: string)
    ensures Posted(polls + [p], channel, csvFile) == Posted(polls, channel, csvFile) + PollPosts(p, channel, csvFile)
  {
    if |polls| > 0 {
      assert (polls + [p])[1..] == polls[1..] + [p];
      PostedSnoc(polls[1..], p, channel, csvFile);
    } else {
      assert polls + [p] == [p];
    }
  }

  /** How `with open(PID_FILE, 'w') as f: f.write(str(pid))` went: the open failed
      (the file is untouched); the open created or truncated the file but the
      write or the close failed after `flushed` characters reached it; or the
      pid was written. */
  datatype PidWrite = OpenFailed | WriteFailed(flushed: nat) | Written

  /** The working directory after `create_pid_file`: the file holds the daemon's
      pid in decimal, overwriting what was there; a failure after the open leaves
      the truncated file with only what was flushed; a failed open changes
      nothing. */
  function AfterCreate(fs: map<string, string>, pid: nat, w: PidWrite): (r: map<string, string>)
    ensures w == Written ==> PidFileName in r && r[PidFileName] == Decimal(pid)
    ensures w.WriteFailed? ==> PidFileName in r && IsPrefix(r[PidFileName], Decimal(pid))
    ensures w == WriteFailed(0) ==> PidFileName in r && r[PidFileName] == ""
    ensures w == OpenFailed ==> r == fs
    ensures r - {PidFileName} == fs - {PidFileName}
  {
    match w
    case OpenFailed => fs
    case WriteFailed(flushed) =>
      var text := Decimal(pid);
      fs[PidFileName := text[..if flushed < |text| then flushed else |text|]]
    case Written => fs[PidFileName := Decimal(pid)]
  }

  /** The working directory after `remove_pid_file`: the file is gone if it was
      there and removing worked; a failed removal leaves it as it was, and
      nothing else changes. */
  function AfterRemove(fs: map<string, string>, removeOk: bool): (r: map<string, string>)
    ensures removeOk ==> PidFileName !in r
    ensures !removeOk || PidFileName !in fs ==> r == fs
    ensures r - {PidFileName} == fs - {PidFileName}
  {
    if PidFileName in fs && removeOk then fs - {PidFileName} else fs
  }

  /** Releasing twice is releasing once. */
  lemma RemoveIdempotent(fs: map<string, string>, removeOk: bool)
    ensures AfterRemove(AfterRemove(fs, true), removeOk) == AfterRemove(fs, true)
  {
  }

  class SimpleAutoScheduler {
    /** `os.getpid()` */
    const ownPid: nat
    const csvFile: string
    const channel: Option<string>
    /** The working directory: file name to contents. */
    var fs: map<string, string>
    /** The `schedule` package's job registry (module state shared by all callers). */
    var jobs: seq<DailyJob>
    /** The pids `os.kill(pid, SIGTERM)` was called on, in order. */
    var sigterms: seq<int>
    /** Seconds spent in `time.sleep`. */
    var slept: nat
    /** The payloads the job posted, in order. */
    var posts: seq<Webhook.Payload>

    constructor (ownPid: nat, csvFile: string, channel: Option<string>,
                 fs: map<string, string>, jobs: seq<DailyJob>)
      ensures this.ownPid == ownPid && this.csvFile == csvFile && this.channel == channel
      ensures this.fs == fs && this.jobs == jobs
      ensures sigterms == [] && slept == 0 && posts == []
    {
      this.ownPid := ownPid;
      this.csvFile := csvFile;
      this.channel := channel;
      this.fs := fs;
      this.jobs := jobs;
      sigterms := [];
      slept := 0;
      posts := [];
    }

    /** `check_existing_processes`: scan the process table, SIGTERM every conflict
        in order, wait the grace period if there was any. */
    method CheckExistingProcesses(table: seq<Probe>, kill: int -> KillOutcome) returns (found: bool)
      modifies this
      ensures found == CheckOutcome(table, kill, ownPid).found
      ensures sigterms == old(sigterms) + CheckOutcome(table, kill, ownPid).signalled
      ensures slept == old(slept) + (if found then GraceSeconds else 0)
      ensures fs == old(fs) && jobs == old(jobs) && posts == old(posts)
    {
      var scan := ScanProcesses(table, ownPid);
      if scan.None? || |scan.value| == 0 {
        return false;
      }
      var completed := TerminateProcesses(scan.value, kill);
      if !completed {
        return false;
      }
      slept := slept + GraceSeconds;
      found := true;
    }

    /** The kill loop of `check_existing_processes`: SIGTERM each pid in order; a
        vanished process or a refused permission is reported and skipped, any other
        error ends the loop (`completed` is then false). */
    method TerminateProcesses(pids: seq<int>, kill: int -> KillOutcome) returns (completed: bool)
      modifies this
      ensures completed == !Terminate(pids, kill).escaped
      ensures sigterms == old(sigterms) + Terminate(pids, kill).attempted
      ensures fs == old(fs) && jobs == old(jobs) && posts == old(posts) && slept == old(slept)
    {
      var k := 0;
      while k < |pids|
        invariant 0 <= k <= |pids|
        invariant AllCaught(pids[..k], kill)
        invariant sigterms == old(sigterms) + pids[..k]
        invariant fs == old(fs) && jobs == old(jobs) && posts == old(posts) && slept == old(slept)
      {
        var pid := pids[k];
        sigterms := sigterms + [pid];
        assert pids[..k + 1] == pids[..k] + [pid];
        if kill(pid) == OtherOSError {
          TerminateStopsAtError(pids, kill, k);
          return false;
        }
        k := k + 1;
      }
      assert pids[..k] == pids;
      TerminateAll(pids, kill);
      return true;
    }

    /** `create_pid_file` */
    method CreatePidFile(w: PidWrite)
      modifies this
      ensures fs == AfterCreate(old(fs), ownPid, w)
      ensures jobs == old(jobs) && sigterms == old(sigterms) && slept == old(slept) && posts == old(posts)
    {
      if w.OpenFailed? {
        return;
      }
      var text := Decimal(ownPid);
      fs := fs[PidFileName := ""];
      if w.WriteFailed? {
        fs := fs[PidFileName := text[..if w.flushed < |text| then w.flushed else |text|]];
      } else {
        fs := fs[PidFileName := text];
      }
    }

    /** `remove_pid_file` */
    method RemovePidFile(removeOk: bool)
      modifies this
      ensures fs == AfterRemove(old(fs), removeOk)
      ensures jobs == old(jobs) && sigterms == old(sigterms) && slept == old(slept) && posts == old(posts)
    {
      if PidFileName in fs && removeOk {
        fs := fs - {PidFileName};
      }
    }

    /** `daily_schedule_job`: post today's schedule from the daemon's CSV file;
        the outcome is only logged, and no failure leaves the job. */
    method DailyScheduleJob(today: string, csvFiles: map<string, CsvDirect.CsvFile>, http: Webhook.HttpOutcome)
      returns (success: bool)
      modifies this
      ensures posts == old(posts) + PollPosts(Fire(today, csvFiles, http), channel, csvFile)
      ensures success <==> |posts| > |old(posts)| && http == Webhook.Response(200)
      ensures fs == old(fs) && jobs == old(jobs) && sigterms == old(sigterms) && slept == old(slept)
    {
      var a := CsvDirect.SendDailySchedule(CsvAt(csvFiles, csvFile), today, channel, http);
      if a.posted.Some? {
        posts := posts + [a.posted.value];
      }
      success := a.ok;
    }

    /** One iteration of the `while True` loop: `run_pending()` then `sleep(60)`. */
    method PollOnce(p: Poll)
      modifies this
      ensures posts == old(posts) + PollPosts(p, channel, csvFile)
      ensures slept == old(slept) + PollSeconds
      ensures fs == old(fs) && jobs == old(jobs) && sigterms == old(sigterms)
    {
      if p.Fire? {
        var _ := DailyScheduleJob(p.today, p.csvFiles, p.http);
      }
      slept := slept + PollSeconds;
    }

    /** The `while True` loop, run for the polls before the stop arrives. */
    method PollLoop(polls: seq<Poll>)
      modifies this
      ensures posts == old(posts) + Posted(polls, channel, csvFile)
      ensures slept == old(slept) + PollSeconds * |polls|
      ensures fs == old(fs) && jobs == old(jobs) && sigterms == old(sigterms)
    {
      var i := 0;
      while i < |polls|
        invariant 0 <= i <= |polls|
        // While the loop runs, the PID file and the registry stay as startup left them.
        invariant fs == old(fs) && jobs == old(jobs) && sigterms == old(sigterms)
        invariant posts == old(posts) + Posted(polls[..i], channel, csvFile)
        invariant slept == old(slept) + PollSeconds * i
      {
        PostedSnoc(polls[..i], polls[i], channel, csvFile);
        assert polls[..i + 1] == polls[..i] + [polls[i]];
        PollOnce(polls[i]);
        i := i + 1;
      }
      assert polls[..i] == polls;
    }

    /** `start_daily_scheduler(notification_time)`. The stop cause arrives at
        `stop`; `timeAccepted` is whether `every().day.at(time)` accepted the time
        (otherwise it raises, which `except Exception` swallows). Whatever the
        exit, the `finally` block removes the PID file. */
    method StartDailyScheduler(time: string, table: seq<Probe>, kill: int -> KillOutcome,
                               write: PidWrite, timeAccepted: bool, polls: seq<Poll>,
                               cause: StopCause, stop: Phase, removeOk: bool)
      returns (exit: Exit)
      modifies this
      // The PID file is gone afterwards, and no other file was touched.
      ensures removeOk ==> PidFileName !in fs
      ensures fs - {PidFileName} == old(fs) - {PidFileName}
      ensures !removeOk ==>
                fs == (if stop == BeforeScan || stop == BeforePidFile then old(fs) else AfterCreate(old(fs), ownPid, write))
      // The registry is untouched if the stop comes before `schedule.clear()`;
      // after it, it holds at most the daily job, and exactly it once registered.
      ensures stop in {BeforeScan, BeforePidFile, BeforeClear} ==> jobs == old(jobs)
      ensures stop in {BeforeRegister} ==> jobs == []
      ensures stop == InLoop ==> jobs == (if timeAccepted then [DailyJob(time)] else [])
      // The scan runs first, once.
      ensures sigterms == old(sigterms) +
                (if stop == BeforeScan then [] else CheckOutcome(table, kill, ownPid).signalled)
      // The job posts only while the loop runs.
      ensures posts == old(posts) + (if stop == InLoop && timeAccepted then Posted(polls, channel, csvFile) else [])
      // A signal ends in `SystemExit(0)`; Ctrl+C and a rejected time return.
      ensures exit == (if stop == InLoop && !timeAccepted then Returned else ExitFor(cause))
    {
      ghost var fs0 := fs;
      exit := ExitFor(cause);
      if stop != BeforeScan {
        var _ := CheckExistingProcesses(table, kill);
        if stop != BeforePidFile {
          CreatePidFile(write);
          if stop != BeforeClear {
            jobs := [];
            if stop != BeforeRegister {
              if !timeAccepted {
                exit := Returned;
              } else {
                jobs := [DailyJob(time)];
                PollLoop(polls);
              }
            }
          }
        }
      }
      RemovePidFile(removeOk);
    }
  }
}
