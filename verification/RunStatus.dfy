/** The Backup's status as a value, and the bookkeeping of one recorded run: the counters, the last
    run and the sliding window of recent runs. */
module RunStatus {
  import opened Wrappers
  import opened Jobs
  import opened Truncation

  const MAX_RECENT_RUNS := 5

  /** BackupRunStatus. */
  datatype Run = Run(
    jobName: string,
    startTime: Option<int>,
    completionTime: Option<int>,
    phase: Phase,
    message: string,
    logs: string)

  /** metav1.Condition. The controller carries the status's conditions along and never sets any. */
  datatype StatusCondition = StatusCondition(
    kind: string,
    status: string,
    observedGeneration: int,
    lastTransitionTime: int,
    reason: string,
    message: string)

  /** BackupStatus. `phase` is None for the empty string of a status nothing was recorded in. */
  datatype Status = Status(
    lastBackupTime: Option<int>,
    lastSuccessfulBackupTime: Option<int>,
    phase: Option<Phase>,
    conditions: seq<StatusCondition>,
    lastRun: Option<Run>,
    recentRuns: seq<Run>,
    failureCount: int,
    successCount: int,
    observedGeneration: int)

  const EMPTY_STATUS := Status(None, None, None, [], None, [], 0, 0, 0)

  /** Two's-complement int32 arithmetic, which the counters use. */
  function Wrap32(n: int): int {
    (n + 0x8000_0000) % 0x1_0000_0000 - 0x8000_0000
  }

  /** An int32 counter that was raised `n` times from zero: `n` itself while that fits, and otherwise the one
      int32 that differs from it by a multiple of 2^32. */
  ghost predicate ShowsCount(counter: int, n: nat) {
    && -0x8000_0000 <= counter < 0x8000_0000
    && (n < 0x8000_0000 ==> counter == n)
    && (n - counter) % 0x1_0000_0000 == 0
  }

  lemma WrapShows(n: nat)
    ensures ShowsCount(Wrap32(n), n)
  {}

  /** One increment: the next integer, or the least one after the greatest. */
  lemma WrapIncrements(c: int)
    requires -0x8000_0000 <= c < 0x8000_0000
    ensures Wrap32(c + 1) == if c == 0x7FFF_FFFF then -0x8000_0000 else c + 1
  {}

  /** What reading the Pod's log gave: no clientset, an error, or the raw text. */
  datatype PodLogs = NoClientset | LogError(reason: string) | LogText(text: string)

  /** Conditions are scanned in order and each match overwrites the message. */
  function MessageOf(conditions: seq<Condition>): (m: string)
    ensures |m| <= MAX_MESSAGE_SIZE
  {
    if conditions == [] then ""
    else
      var c := conditions[|conditions| - 1];
      if c.kind == JobComplete && c.isTrue then Fit("Backup completed successfully", MAX_MESSAGE_SIZE)
      else if c.kind == JobFailed && c.isTrue then Fit("Backup failed: " + c.message, MAX_MESSAGE_SIZE)
      else MessageOf(conditions[..|conditions| - 1])
  }

  /** The last condition that ends the Job decides the message; without one it is empty. The success text is
      never cut, and a failure's text keeps its end. */
  lemma {:induction false} LastTellingConditionDecides(conditions: seq<Condition>)
    ensures MessageOf(conditions) == "" <==> forall i :: 0 <= i < |conditions| ==> !EndsJob(conditions[i])
    ensures forall i :: 0 <= i < |conditions| && EndsJob(conditions[i])
                        && (forall k :: i < k < |conditions| ==> !EndsJob(conditions[k])) ==>
                          if conditions[i].kind == JobComplete
                          then MessageOf(conditions) == "Backup completed successfully"
                          else MessageOf(conditions) == Fit("Backup failed: " + conditions[i].message, MAX_MESSAGE_SIZE)
  {
    if conditions != [] {
      var n := |conditions| - 1;
      var front := conditions[..n];
      LastTellingConditionDecides(front);
      assert conditions == front + [conditions[n]];
      assert forall i :: 0 <= i < n ==> front[i] == conditions[i];
      assert |"Backup failed: " + conditions[n].message| > 0;
      FittingTextIsKept("Backup completed successfully", MAX_MESSAGE_SIZE);
    }
  }

  function LogsOf(phase: Phase, pod: PodLogs): (l: string)
    ensures |l| <= MAX_LOG_SIZE
    ensures l != "" ==> phase == Failed
  {
    if phase != Failed then ""
    else
      match pod
      case NoClientset => ""
      case LogError(reason) => Fit("Failed to collect logs: " + reason, MAX_LOG_SIZE)
      case LogText(text) => Fit(text, MAX_LOG_SIZE)
  }

  function BuildRun(job: Job, pod: PodLogs): Run {
    Run(job.name, job.startTime, job.completionTime, GetJobPhase(job),
        MessageOf(job.conditions), LogsOf(GetJobPhase(job), pod))
  }

  /** What a run says of its Job and its Pod: the Job's own name and times, and a failed Job's log, whole if
      it fits and otherwise its end, or why it could not be read. */
  lemma RunTellsJob(job: Job, pod: PodLogs)
    ensures var run := BuildRun(job, pod);
            && run.jobName == job.name && run.startTime == job.startTime && run.completionTime == job.completionTime
            && run.phase == GetJobPhase(job) && run.message == MessageOf(job.conditions)
            && (run.phase != Failed || pod.NoClientset? ==> run.logs == "")
            && (run.phase == Failed && pod.LogText? ==>
                  if |pod.text| <= 4096 then run.logs == pod.text
                  else |run.logs| == 4096 && IsSuffix(run.logs[18..], pod.text))
            && (run.phase == Failed && pod.LogError? && |pod.reason| <= 4000 ==>
                  run.logs == "Failed to collect logs: " + pod.reason)
  {
    if pod.LogText? {
      TruncateKeepsLongestTail(pod.text, 4096);
    }
    assert |"Failed to collect logs: "| == 24;
  }

  /** The position of the first entry for `jobName`, or the length when there is none. */
  function IndexOf(runs: seq<Run>, jobName: string): (i: nat)
    ensures i <= |runs|
    ensures i < |runs| ==> runs[i].jobName == jobName
    ensures forall k :: 0 <= k < i ==> runs[k].jobName != jobName
  {
    if runs == [] then 0
    else if runs[0].jobName == jobName then 0
    else IndexOf(runs[1..], jobName) + 1
  }

  function AddToRecentRuns(runs: seq<Run>, run: Run): seq<Run> {
    var i := IndexOf(runs, run.jobName);
    if i < |runs| then runs[i := run]
    else
      var longer := [run] + runs;
      if |longer| > MAX_RECENT_RUNS then longer[..MAX_RECENT_RUNS] else longer
  }

  /** The early return for a Job that was already recorded with the phase it shows. */
  predicate AlreadyRecorded(status: Status, job: Job) {
    status.lastRun.Some?
    && status.lastRun.value.jobName == job.name
    && status.lastRun.value.phase == GetJobPhase(job)
  }

  /** Whether recording `run` moves a counter: a new Job, or a changed phase, that is terminal. */
  predicate CountsRun(status: Status, run: Run) {
    if status.lastRun.None? || status.lastRun.value.jobName != run.jobName then Terminal(run.phase)
    else if status.lastRun.value.phase != run.phase then Terminal(run.phase)
    else false
  }

  /** The status that `reconcileJobStatus` writes for `run` at time `now`. */
  function RecordRun(status: Status, run: Run, now: int): Status {
    var base := status.(
                lastBackupTime := Some(now),
                phase := Some(run.phase),
                lastRun := Some(run),
                recentRuns := AddToRecentRuns(status.recentRuns, run));
    if !CountsRun(status, run) then base
    else if run.phase == Succeeded then
      base.(lastSuccessfulBackupTime := Some(now),
            successCount := Wrap32(status.successCount + 1),
            failureCount := 0)
    else base.(failureCount := Wrap32(status.failureCount + 1))
  }
}
