/** The status as a summary of a log. `Replay` folds `RecordRun` over every run that was ever
    persisted; the lemmas say what the counters and the five-entry window mean in terms of that log.
    The first group holds for every log the controller can write; the second needs the Jobs to
    appear in creation order. */
module StatusHistory {
  import opened Wrappers
  import opened Jobs
  import opened Truncation
  import opened RunStatus

  /** One persisted status update: the run, its Job's creation time, and when it was recorded. */
  datatype Entry = Entry(run: Run, created: int, at: int)

  ghost function Replay(log: seq<Entry>): Status {
    if log == [] then EMPTY_STATUS
    else
      var last := log[|log| - 1];
      RecordRun(Replay(log[..|log| - 1]), last.run, last.at)
  }

  lemma ReplayStep(log: seq<Entry>, e: Entry)
    ensures Replay(log + [e]) == RecordRun(Replay(log), e.run, e.at)
  {
    assert (log + [e])[..|log|] == log;
  }

  ghost predicate SameJob(e: Entry, f: Entry) {
    e.run.jobName == f.run.jobName
  }

  /** No entry repeats the Job and phase of the one before it: the controller's early return. */
  ghost predicate Guarded(log: seq<Entry>) {
    forall i :: 0 < i < |log| ==> !(SameJob(log[i - 1], log[i]) && log[i - 1].run.phase == log[i].run.phase)
  }

  ghost predicate TimesRise(log: seq<Entry>) {
    forall i, j :: 0 <= i <= j < |log| ==> log[i].at <= log[j].at
  }

  // ----- Facts about every log -----

  ghost predicate DistinctJobs(runs: seq<Run>) {
    forall i, j :: 0 <= i < j < |runs| ==> runs[i].jobName != runs[j].jobName
  }

  /** The shape every stored status has. */
  ghost predicate WellFormed(s: Status) {
    && |s.recentRuns| <= 5
    && DistinctJobs(s.recentRuns)
    && (s.lastRun.None? <==> s.recentRuns == [])
    && (s.lastRun.None? <==> s.phase.None?)
    && (s.lastRun.Some? ==> s.lastRun.value in s.recentRuns && s.phase == Some(s.lastRun.value.phase))
  }

  lemma AddKeepsDistinct(runs: seq<Run>, run: Run)
    requires DistinctJobs(runs) && |runs| <= MAX_RECENT_RUNS
    ensures DistinctJobs(AddToRecentRuns(runs, run))
    ensures |AddToRecentRuns(runs, run)| <= MAX_RECENT_RUNS
    ensures run in AddToRecentRuns(runs, run)
    ensures forall r :: r in AddToRecentRuns(runs, run) ==> r == run || r in runs
  {
    var i := IndexOf(runs, run.jobName);
    var added := AddToRecentRuns(runs, run);
    assert added[if i < |runs| then i else 0] == run;
  }

  /** Recording any run in a well-formed status keeps it well-formed. */
  lemma RecordKeepsWellFormed(s: Status, run: Run, now: int)
    requires WellFormed(s)
    ensures WellFormed(RecordRun(s, run, now))
  {
    AddKeepsDistinct(s.recentRuns, run);
  }

  lemma {:induction false} ReplayWellFormed(log: seq<Entry>)
    ensures WellFormed(Replay(log))
    ensures log != [] ==> Replay(log).lastRun == Some(log[|log| - 1].run)
    ensures log == [] ==> Replay(log).lastRun == None
  {
    if log != [] {
      var last := log[|log| - 1];
      ReplayWellFormed(log[..|log| - 1]);
      RecordKeepsWellFormed(Replay(log[..|log| - 1]), last.run, last.at);
    }
  }

  /** The number of persisted transitions into Succeeded. */
  ghost function SuccessesIn(log: seq<Entry>): nat {
    if log == [] then 0
    else SuccessesIn(log[..|log| - 1]) + if log[|log| - 1].run.phase == Succeeded then 1 else 0
  }

  /** The length of the run of Failed entries that ends the log's terminal entries. */
  ghost function TrailingFailures(log: seq<Entry>): nat {
    if log == [] then 0
    else
      match log[|log| - 1].run.phase
      case Succeeded => 0
      case Failed => TrailingFailures(log[..|log| - 1]) + 1
      case _ => TrailingFailures(log[..|log| - 1])
  }

  /** The time of the last Succeeded entry. */
  ghost function LastSuccessAt(log: seq<Entry>): Option<int> {
    if log == [] then None
    else if log[|log| - 1].run.phase == Succeeded then Some(log[|log| - 1].at)
    else LastSuccessAt(log[..|log| - 1])
  }

  lemma WrapStep(n: nat)
    ensures Wrap32(Wrap32(n) + 1) == Wrap32(n + 1)
    ensures Wrap32(0) == 0
  {}

  /** Past the early return, a run moves a counter exactly when its phase is terminal. */
  lemma TransitionCounts(log: seq<Entry>)
    requires Guarded(log) && log != []
    ensures CountsRun(Replay(log[..|log| - 1]), log[|log| - 1].run) <==> Terminal(log[|log| - 1].run.phase)
  {
    var n := |log| - 1;
    var front := log[..n];
    ReplayWellFormed(front);
    if front != [] {
      assert front[n - 1] == log[n - 1];
      assert !(SameJob(log[n - 1], log[n]) && log[n - 1].run.phase == log[n].run.phase);
    }
  }

  lemma GuardedFront(log: seq<Entry>)
    requires Guarded(log) && log != []
    ensures Guarded(log[..|log| - 1])
  {}

  lemma CountersStep(s: Status, run: Run, now: int)
    requires CountsRun(s, run) <==> Terminal(run.phase)
    ensures var s' := RecordRun(s, run, now);
            && s'.successCount == (if run.phase == Succeeded then Wrap32(s.successCount + 1) else s.successCount)
            && s'.failureCount == (if run.phase == Succeeded then 0
                                   else if run.phase == Failed then Wrap32(s.failureCount + 1)
                                   else s.failureCount)
            && s'.lastSuccessfulBackupTime == (if run.phase == Succeeded then Some(now) else s.lastSuccessfulBackupTime)
            && s'.lastBackupTime == Some(now)
  {
    hide CountsRun, AddToRecentRuns, Wrap32;
  }

  /** The counters and times are functions of the log, whatever the Jobs did. */
  lemma {:induction false} CountersSummariseLog(log: seq<Entry>)
    requires Guarded(log)
    ensures Replay(log).successCount == Wrap32(SuccessesIn(log))
    ensures Replay(log).failureCount == Wrap32(TrailingFailures(log))
    ensures ShowsCount(Replay(log).successCount, SuccessesIn(log))
    ensures ShowsCount(Replay(log).failureCount, TrailingFailures(log))
    ensures Replay(log).lastSuccessfulBackupTime == LastSuccessAt(log)
    ensures Replay(log).lastBackupTime == if log == [] then None else Some(log[|log| - 1].at)
  {
    hide CountsRun, RecordRun, Guarded, Wrap32, ShowsCount;
    WrapStep(0);
    WrapShows(SuccessesIn(log));
    WrapShows(TrailingFailures(log));
    if log != [] {
      var front, last := log[..|log| - 1], log[|log| - 1];
      GuardedFront(log);
      CountersSummariseLog(front);
      TransitionCounts(log);
      CountersStep(Replay(front), last.run, last.at);
      WrapStep(SuccessesIn(front));
      WrapStep(TrailingFailures(front));
    }
  }

  /** LastSuccessfulBackupTime is set exactly when something succeeded, and never lies after
      LastBackupTime while the clock does not go back. */
  lemma {:induction false} LastSuccessBounds(log: seq<Entry>)
    ensures LastSuccessAt(log).Some? <==> SuccessesIn(log) > 0
    ensures TimesRise(log) && LastSuccessAt(log).Some? ==> LastSuccessAt(log).value <= log[|log| - 1].at
  {
    if log != [] {
      var front := log[..|log| - 1];
      LastSuccessBounds(front);
      if TimesRise(log) && front != [] {
        assert forall i, j :: 0 <= i <= j < |front| ==> front[i].at == log[i].at && front[j].at == log[j].at;
        assert log[|log| - 2].at <= log[|log| - 1].at;
      }
    }
  }

  ghost predicate BoundedRun(r: Run) {
    && |r.message| <= 1024
    && |r.logs| <= 4096
    && (r.logs != "" ==> r.phase == Failed)
  }

  /** Whatever the Jobs' messages and the Pods' logs hold, the status stays small. */
  lemma {:induction false} StatusStaysBounded(log: seq<Entry>)
    requires forall e :: e in log ==> exists job, pod :: e.run == BuildRun(job, pod)
    ensures var s := Replay(log);
            && |s.recentRuns| <= 5
            && (forall r :: r in s.recentRuns ==> BoundedRun(r))
            && (s.lastRun.Some? ==> BoundedRun(s.lastRun.value))
  {
    ReplayWellFormed(log);
    if log != [] {
      var front, last := log[..|log| - 1], log[|log| - 1];
      StatusStaysBounded(front);
      ReplayWellFormed(front);
      AddKeepsDistinct(Replay(front).recentRuns, last.run);
      assert last in log;
    }
  }

  // ----- Logs in creation order -----

  /** Jobs appear in creation order, a creation time belongs to one name, and the phases of a Job
      only move the way its counters can. */
  ghost predicate Ordered(log: seq<Entry>) {
    forall i, j :: 0 <= i < j < |log| ==>
      && log[i].created <= log[j].created
      && (log[i].created == log[j].created <==> SameJob(log[i], log[j]))
      && (SameJob(log[i], log[j]) ==> CanFollow(log[i].run.phase, log[j].run.phase))
  }

  /** Each Job adds at most one success and at most one failure. */
  lemma TerminalOncePerJob(log: seq<Entry>, i: nat, j: nat)
    requires Guarded(log) && Ordered(log)
    requires i < j < |log| && SameJob(log[i], log[j]) && Terminal(log[i].run.phase)
    ensures log[i].run.phase == Failed && log[j].run.phase == Succeeded
  {
    assert log[i].created <= log[i + 1].created <= log[j].created;
    assert SameJob(log[i], log[i + 1]);
    assert !(SameJob(log[(i + 1) - 1], log[i + 1]) && log[i].run.phase == log[i + 1].run.phase);
    assert CanFollow(log[i].run.phase, log[i + 1].run.phase);
    if i + 1 < j {
      assert CanFollow(log[i + 1].run.phase, log[j].run.phase);
    }
  }

  lemma OrderedFront(log: seq<Entry>)
    requires Ordered(log) && log != []
    ensures Ordered(log[..|log| - 1])
  {
    var front := log[..|log| - 1];
    forall i, j | 0 <= i < j < |front|
      ensures && front[i].created <= front[j].created
              && (front[i].created == front[j].created <==> SameJob(front[i], front[j]))
              && (SameJob(front[i], front[j]) ==> CanFollow(front[i].run.phase, front[j].run.phase))
    {
      assert front[i] == log[i] && front[j] == log[j];
    }
  }

  ghost function SucceededJobs(log: seq<Entry>): set<string> {
    set e | e in log && e.run.phase == Succeeded :: e.run.jobName
  }

  lemma SuccessIsNew(log: seq<Entry>)
    requires Guarded(log) && Ordered(log) && log != [] && log[|log| - 1].run.phase == Succeeded
    ensures log[|log| - 1].run.jobName !in SucceededJobs(log[..|log| - 1])
  {
    var n := |log| - 1;
    forall i | 0 <= i < n && SameJob(log[i], log[n])
      ensures log[i].run.phase != Succeeded
    {
      if Terminal(log[i].run.phase) {
        TerminalOncePerJob(log, i, n);
      }
    }
    forall e | e in log[..n] && e.run.phase == Succeeded
      ensures e.run.jobName != log[n].run.jobName
    {
      var i :| 0 <= i < n && log[..n][i] == e;
      assert log[i] == e;
    }
  }

  lemma SucceededJobsGrow(log: seq<Entry>)
    requires log != []
    ensures SucceededJobs(log) == SucceededJobs(log[..|log| - 1])
                                  + if log[|log| - 1].run.phase == Succeeded then {log[|log| - 1].run.jobName} else {}
  {
    var front, last := log[..|log| - 1], log[|log| - 1];
    assert log == front + [last];
    assert forall e :: e in log <==> e in front || e == last;
  }

  lemma {:induction false} SuccessesAreDistinctJobs(log: seq<Entry>)
    requires Guarded(log) && Ordered(log)
    ensures SuccessesIn(log) == |SucceededJobs(log)|
  {
    if log != [] {
      var n := |log| - 1;
      var front, last := log[..n], log[n];
      OrderedFront(log);
      SuccessesAreDistinctJobs(front);
      SucceededJobsGrow(log);
      if last.run.phase == Succeeded {
        SuccessIsNew(log);
      }
    }
  }

  ghost predicate SucceedOnce(log: seq<Entry>) {
    forall i, j :: 0 <= i < j < |log| && log[i].run.phase == Succeeded && log[j].run.phase == Succeeded
                   ==> !SameJob(log[i], log[j])
  }

  lemma SucceedOnceFront(log: seq<Entry>)
    requires log != []
    ensures SucceedOnce(log) <==>
            SucceedOnce(log[..|log| - 1]) &&
            (log[|log| - 1].run.phase == Succeeded ==> log[|log| - 1].run.jobName !in SucceededJobs(log[..|log| - 1]))
  {
    var front, last := log[..|log| - 1], log[|log| - 1];
    assert forall i :: 0 <= i < |front| ==> front[i] == log[i] && front[i] in front;
    if last.run.phase == Succeeded && last.run.jobName in SucceededJobs(front) {
      var e :| e in front && e.run.phase == Succeeded && e.run.jobName == last.run.jobName;
      var i :| 0 <= i < |front| && front[i] == e;
      assert SameJob(log[i], last);
    }
  }

  /** For every log: the successes are at least the distinct Jobs that succeeded, and exactly those when no
      Job has two. */
  lemma {:induction false} CountIsExactIff(log: seq<Entry>)
    ensures SuccessesIn(log) >= |SucceededJobs(log)|
    ensures SuccessesIn(log) == |SucceededJobs(log)| <==> SucceedOnce(log)
  {
    if log != [] {
      var front, last := log[..|log| - 1], log[|log| - 1];
      CountIsExactIff(front);
      SucceededJobsGrow(log);
      SucceedOnceFront(log);
      hide SucceedOnce, SucceededJobs, SameJob;
      OneMoreName(SucceededJobs(front), last.run.jobName);
    }
  }

  lemma OneMoreName(names: set<string>, name: string)
    ensures |names + {name}| == |names| + if name in names then 0 else 1
  {
    if name in names {
      assert names + {name} == names;
    }
  }

  /** Exactly-once counting: SuccessCount is the number of distinct Jobs ever recorded Succeeded. */
  lemma SuccessCountIsDistinctJobs(log: seq<Entry>)
    requires Guarded(log) && Ordered(log)
    ensures ShowsCount(Replay(log).successCount, |SucceededJobs(log)|)
  {
    CountersSummariseLog(log);
    SuccessesAreDistinctJobs(log);
  }

  ghost predicate IsLateFailure(log: seq<Entry>, i: int) {
    0 <= i < |log| && log[i].run.phase == Failed && forall j :: i < j < |log| ==> log[j].run.phase != Succeeded
  }

  /** The Jobs recorded Failed since the last success. */
  ghost function FailedSinceSuccess(log: seq<Entry>): set<string> {
    set i | 0 <= i < |log| && IsLateFailure(log, i) :: log[i].run.jobName
  }

  lemma FailedSinceSuccessGrows(log: seq<Entry>)
    requires log != []
    ensures var front, last := log[..|log| - 1], log[|log| - 1].run;
            FailedSinceSuccess(log) == if last.phase == Succeeded then {}
                                       else FailedSinceSuccess(front) + if last.phase == Failed then {last.jobName} else {}
  {
    var n := |log| - 1;
    var front, last := log[..n], log[n].run;
    if last.phase != Succeeded {
      forall i | 0 <= i < n
        ensures IsLateFailure(log, i) <==> IsLateFailure(front, i)
      {
        assert forall j :: i < j < n ==> front[j] == log[j];
      }
      assert IsLateFailure(log, n) <==> last.phase == Failed;
      hide IsLateFailure;
      assert forall name :: name in FailedSinceSuccess(front) ==> name in FailedSinceSuccess(log) by {
        assert forall i :: 0 <= i < n ==> front[i] == log[i];
      }
    }
  }

  lemma FailureIsNew(log: seq<Entry>)
    requires Guarded(log) && Ordered(log) && log != [] && log[|log| - 1].run.phase == Failed
    ensures log[|log| - 1].run.jobName !in FailedSinceSuccess(log[..|log| - 1])
  {
    var n := |log| - 1;
    forall i | 0 <= i < n && IsLateFailure(log[..n], i)
      ensures log[..n][i].run.jobName != log[n].run.jobName
    {
      if SameJob(log[i], log[n]) {
        TerminalOncePerJob(log, i, n);
      }
    }
  }

  lemma {:induction false} TrailingFailuresAreDistinctJobs(log: seq<Entry>)
    requires Guarded(log) && Ordered(log)
    ensures TrailingFailures(log) == |FailedSinceSuccess(log)|
  {
    if log != [] {
      var front, last := log[..|log| - 1], log[|log| - 1];
      OrderedFront(log);
      GuardedFront(log);
      TrailingFailuresAreDistinctJobs(front);
      FailedSinceSuccessGrows(log);
      if last.run.phase == Failed {
        FailureIsNew(log);
      }
      hide Guarded, Ordered, FailedSinceSuccess;
    }
  }

  /** FailureCount is the number of distinct Jobs recorded Failed since the last success. */
  lemma FailureCountIsDistinctJobs(log: seq<Entry>)
    requires Guarded(log) && Ordered(log)
    ensures ShowsCount(Replay(log).failureCount, |FailedSinceSuccess(log)|)
  {
    CountersSummariseLog(log);
    TrailingFailuresAreDistinctJobs(log);
  }

  lemma SucceededJobsAreLogged(log: seq<Entry>, name: string)
    requires name in SucceededJobs(log)
    ensures log != []
  {}

  lemma ForgottenSuccessCounts(s: Status, job: Job, pod: PodLogs, now: int)
    requires s.lastRun.Some? && GetJobPhase(job) == Succeeded
    requires s.lastRun.value.jobName == job.name ==> s.lastRun.value.phase == Succeeded
    ensures !AlreadyRecorded(s, job) <==> s.lastRun.value.jobName != job.name
    ensures !AlreadyRecorded(s, job) ==>
              RecordRun(s, BuildRun(job, pod), now).successCount == Wrap32(s.successCount + 1)
  {
    hide GetJobPhase, AddToRecentRuns, MessageOf, LogsOf, Wrap32;
  }

  /** Where exactly-once counting ends. A Job already counted as Succeeded, listed again as the latest
      one, is counted a second time exactly when some other Job was recorded last: the newest Job was
      removed while this older one remained, or their creation times tie. */
  lemma CountedAgainIff(log: seq<Entry>, job: Job, pod: PodLogs, now: int)
    requires Guarded(log) && job.name in SucceededJobs(log) && GetJobPhase(job) == Succeeded
    requires log[|log| - 1].run.jobName == job.name ==> log[|log| - 1].run.phase == Succeeded
    ensures !AlreadyRecorded(Replay(log), job) <==> log[|log| - 1].run.jobName != job.name
    ensures !AlreadyRecorded(Replay(log), job) ==>
              ShowsCount(RecordRun(Replay(log), BuildRun(job, pod), now).successCount, SuccessesIn(log) + 1)
  {
    hide *;
    var n := SuccessesIn(log);
    SucceededJobsAreLogged(log, job.name);
    ReplayWellFormed(log);
    CountersSummariseLog(log);
    WrapStep(n);
    WrapShows(n + 1);
    ForgottenSuccessCounts(Replay(log), job, pod, now);
  }

  // ----- The window is a prefix of the unbounded history -----

  ghost predicate IsFinalEntry(e: Entry, log: seq<Entry>) {
    exists p :: FinalAt(e, log, p)
  }

  ghost predicate FinalAt(e: Entry, log: seq<Entry>, p: int) {
    && 0 <= p < |log|
    && log[p] == e
    && forall q :: p < q < |log| ==> !SameJob(log[q], e)
  }

  ghost predicate Covers(h: seq<Entry>, e: Entry) {
    exists i :: 0 <= i < |h| && SameJob(h[i], e)
  }

  ghost predicate Descending(h: seq<Entry>) {
    forall i, j :: 0 <= i < j < |h| ==> h[i].created > h[j].created
  }

  /** The unbounded history of recorded Jobs: newest first, one entry per recorded Job, each the
      last one recorded for it. */
  ghost predicate IsHistory(h: seq<Entry>, log: seq<Entry>) {
    && Descending(h)
    && (forall e :: e in h ==> IsFinalEntry(e, log))
    && (forall e :: e in log ==> Covers(h, e))
  }

  /** The history after one more entry: the entry replaces its Job's head or goes before it. */
  ghost function Prepend(h: seq<Entry>, e: Entry): seq<Entry> {
    [e] + if h != [] && SameJob(h[0], e) then h[1..] else h
  }

  ghost function History(log: seq<Entry>): seq<Entry> {
    if log == [] then []
    else
      Prepend(History(log[..|log| - 1]), log[|log| - 1])
  }

  lemma FinalExtends(e: Entry, front: seq<Entry>, last: Entry)
    requires IsFinalEntry(e, front) && !SameJob(last, e)
    ensures IsFinalEntry(e, front + [last])
  {
    var p :| FinalAt(e, front, p);
    assert FinalAt(e, front + [last], p);
  }

  /** The log never goes back: a remembered Job other than the newest is strictly older than the
      next Job recorded. */
  lemma RememberedIsOlder(log: seq<Entry>, h: seq<Entry>, k: nat)
    requires Ordered(log) && |log| > 1 && IsHistory(h, log[..|log| - 1])
    requires h != [] && h[0] == log[|log| - 2]
    requires k < |h| && (k == 0 ==> !SameJob(h[0], log[|log| - 1]))
    ensures h[k].created < log[|log| - 1].created && !SameJob(h[k], log[|log| - 1])
  {
    var n := |log| - 1;
    assert h[k] in h;
    var p :| FinalAt(h[k], log[..n], p);
    assert log[p] == h[k];
    assert k > 0 ==> h[0].created > h[k].created;
    assert log[n - 1].created <= log[n].created;
  }

  lemma PrependDescends(log: seq<Entry>, h: seq<Entry>)
    requires Ordered(log) && |log| > 1 && IsHistory(h, log[..|log| - 1])
    requires h != [] && h[0] == log[|log| - 2]
    ensures Descending(Prepend(h, log[|log| - 1]))
  {
    var last := log[|log| - 1];
    var h' := Prepend(h, last);
    var shift := if SameJob(h[0], last) then 0 else 1;
    forall i, j | 0 <= i < j < |h'|
      ensures h'[i].created > h'[j].created
    {
      assert h'[j] == h[j - shift];
      if i == 0 {
        RememberedIsOlder(log, h, j - shift);
      } else {
        assert h'[i] == h[i - shift];
      }
    }
  }

  lemma PrependIsFinal(log: seq<Entry>, h: seq<Entry>)
    requires Ordered(log) && |log| > 1 && IsHistory(h, log[..|log| - 1])
    requires h != [] && h[0] == log[|log| - 2]
    ensures forall e :: e in Prepend(h, log[|log| - 1]) ==> IsFinalEntry(e, log)
  {
    var n := |log| - 1;
    var last := log[n];
    assert log == log[..n] + [last];
    assert FinalAt(last, log, n);
    var h' := Prepend(h, last);
    var shift := if SameJob(h[0], last) then 0 else 1;
    forall j | 0 < j < |h'|
      ensures IsFinalEntry(h'[j], log)
    {
      assert h'[j] == h[j - shift] && h[j - shift] in h;
      RememberedIsOlder(log, h, j - shift);
      FinalExtends(h[j - shift], log[..n], last);
    }
  }

  lemma PrependCovers(front: seq<Entry>, last: Entry, h: seq<Entry>)
    requires forall e :: e in front ==> Covers(h, e)
    ensures forall e :: e in front + [last] ==> Covers(Prepend(h, last), e)
  {
    var h' := Prepend(h, last);
    var shift := if h != [] && SameJob(h[0], last) then 0 else 1;
    forall e | e in front + [last]
      ensures Covers(h', e)
    {
      if SameJob(e, last) {
        assert h'[0] == last;
      } else {
        assert e in front;
        var i :| 0 <= i < |h| && SameJob(h[i], e);
        assert h'[i + shift] == h[i];
      }
    }
  }

  lemma {:induction false} HistoryIsHistory(log: seq<Entry>)
    requires Ordered(log)
    ensures IsHistory(History(log), log)
    ensures log != [] ==> History(log) != [] && History(log)[0] == log[|log| - 1]
  {
    if |log| == 1 {
      assert History(log[..0]) == [];
      assert FinalAt(log[0], log, 0);
      assert History(log)[0] == log[0];
    } else if log != [] {
      var n := |log| - 1;
      OrderedFront(log);
      HistoryIsHistory(log[..n]);
      var h := History(log[..n]);
      assert log[..n][|log[..n]| - 1] == log[n - 1];
      PrependDescends(log, h);
      PrependIsFinal(log, h);
      PrependCovers(log[..n], log[n], h);
      assert log == log[..n] + [log[n]];
    }
  }

  lemma FinalIsUnique(log: seq<Entry>, e: Entry, f: Entry)
    requires IsFinalEntry(e, log) && IsFinalEntry(f, log) && SameJob(e, f)
    ensures e == f
  {
    var p :| FinalAt(e, log, p);
    var q :| FinalAt(f, log, q);
  }

  lemma HistoryMembers(h: seq<Entry>, g: seq<Entry>, log: seq<Entry>)
    requires IsHistory(h, log) && IsHistory(g, log)
    ensures forall e :: e in h ==> e in g
  {
    forall e | e in h
      ensures e in g
    {
      var p :| FinalAt(e, log, p);
      assert e in log && Covers(g, e);
      var i :| 0 <= i < |g| && SameJob(g[i], e);
      assert g[i] in g;
      FinalIsUnique(log, g[i], e);
    }
  }

  lemma HeadIsNewest(h: seq<Entry>, i: nat)
    requires i < |h| && Descending(h)
    ensures h[i].created <= h[0].created
    ensures h[i].created == h[0].created ==> i == 0
  {}

  lemma {:induction false} DescendingSetsAreEqual(h: seq<Entry>, g: seq<Entry>)
    requires Descending(h) && Descending(g)
    requires forall e :: e in h <==> e in g
    ensures h == g
  {
    assert g != [] ==> g[0] in h;
    if h != [] {
      assert h[0] in g && g != [] && g[0] in h;
      var i :| 0 <= i < |g| && g[i] == h[0];
      var k :| 0 <= k < |h| && h[k] == g[0];
      HeadIsNewest(g, i);
      HeadIsNewest(h, k);
      forall e
        ensures e in h[1..] <==> e in g[1..]
      {
        assert e in h[1..] ==> e in h && e != h[0];
        assert e in g[1..] ==> e in g && e != g[0];
        assert h == [h[0]] + h[1..] && g == [g[0]] + g[1..];
      }
      DescendingSetsAreEqual(h[1..], g[1..]);
      assert h == [h[0]] + h[1..] && g == [g[0]] + g[1..];
    }
  }

  ghost function RunsOf(h: seq<Entry>): (r: seq<Run>)
    ensures |r| == |h| && forall i :: 0 <= i < |h| ==> r[i] == h[i].run
  {
    seq(|h|, i requires 0 <= i < |h| => h[i].run)
  }

  ghost function Window(h: seq<Entry>): seq<Run> {
    RunsOf(if |h| > 5 then h[..5] else h)
  }

  /** Adding a run to the window of a history is the window of the longer history, when only the
      newest remembered Job can be the run's own. */
  lemma WindowAfterAdd(h: seq<Entry>, e: Entry)
    requires forall k :: 0 <= k < |h| && (k == 0 ==> !SameJob(h[0], e)) ==> !SameJob(h[k], e)
    ensures AddToRecentRuns(Window(h), e.run)
            == Window(Prepend(h, e))
  {
    hide Window, IndexOf;
    if h != [] && SameJob(h[0], e) {
      WindowOfReplaced(h, e);
    } else {
      WindowLacks(h, e);
      WindowOfPrepended(h, e);
    }
  }

  lemma WindowOfReplaced(h: seq<Entry>, e: Entry)
    requires h != [] && SameJob(h[0], e)
    ensures IndexOf(Window(h), e.run.jobName) == 0 < |Window(h)|
    ensures Window(h)[0 := e.run] == Window([e] + h[1..])
  {}

  lemma WindowLacks(h: seq<Entry>, e: Entry)
    requires forall k :: 0 <= k < |h| ==> !SameJob(h[k], e)
    ensures IndexOf(Window(h), e.run.jobName) == |Window(h)|
  {
    hide IndexOf;
    assert forall k :: 0 <= k < |Window(h)| ==> Window(h)[k] == h[k].run && !SameJob(h[k], e);
  }

  lemma WindowOfPrepended(h: seq<Entry>, e: Entry)
    ensures var longer := [e.run] + Window(h);
            Window([e] + h) == if |longer| > MAX_RECENT_RUNS then longer[..MAX_RECENT_RUNS] else longer
  {}

  lemma {:induction false} WindowFollowsHistory(log: seq<Entry>)
    requires Ordered(log)
    ensures Replay(log).recentRuns == Window(History(log))
  {
    if log != [] {
      var n := |log| - 1;
      OrderedFront(log);
      WindowFollowsHistory(log[..n]);
      HistoryIsHistory(log[..n]);
      var h := History(log[..n]);
      forall k | 0 <= k < |h| && (k == 0 ==> !SameJob(h[0], log[n]))
        ensures !SameJob(h[k], log[n])
      {
        assert h != [] ==> n > 0;
        assert log[..n][n - 1] == log[n - 1];
        RememberedIsOlder(log, h, k);
      }
      WindowAfterAdd(h, log[n]);
    }
  }

  /** Window refinement: RecentRuns is the first five entries of the unbounded newest-first history,
      each with its last recorded phase, and LastRun is its head. */
  lemma RecentRunsAreNewestFive(log: seq<Entry>, h: seq<Entry>)
    requires Ordered(log) && IsHistory(h, log)
    ensures Replay(log).recentRuns == Window(h)
    ensures log != [] ==> h != [] && Replay(log).lastRun == Some(h[0].run)
  {
    WindowFollowsHistory(log);
    HistoryIsHistory(log);
    HistoryMembers(h, History(log), log);
    HistoryMembers(History(log), h, log);
    DescendingSetsAreEqual(h, History(log));
    ReplayWellFormed(log);
  }
}
