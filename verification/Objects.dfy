/** The in-memory Backup with its pointers and slices: deep copies, and the in-place edits of the
    status that rely on them. Each object has a view, the value the other modules reason about. */
module Objects {
  import opened Wrappers
  import opened Jobs
  import opened RunStatus
  import Values = Cluster

  /** *metav1.Time. The pointers are shared and copied; no code writes through one. */
  class Time {
    const seconds: int

    constructor (seconds: int)
      ensures this.seconds == seconds
    {
      this.seconds := seconds;
    }
  }

  function TimeView(t: Time?): Option<int> {
    if t == null then None else Some(t.seconds)
  }

  /** BackupRunStatus, a struct whose two times are pointers. */
  datatype RunRecord = RunRecord(
    jobName: string,
    startTime: Time?,
    completionTime: Time?,
    phase: Phase,
    message: string,
    logs: string)

  /** What a pointer points to. */
  function Cell(o: object?): set<object> {
    if o == null then {} else {o}
  }

  function RunCells(r: RunRecord): set<object> {
    Cell(r.startTime) + Cell(r.completionTime)
  }

  function RunView(r: RunRecord): Run {
    Run(r.jobName, TimeView(r.startTime), TimeView(r.completionTime), r.phase, r.message, r.logs)
  }

  ghost function CellsOf(runs: seq<RunRecord>): set<object> {
    set i, c | 0 <= i < |runs| && c in RunCells(runs[i]) :: c
  }

  function RunsView(runs: seq<RunRecord>): (v: seq<Run>)
    ensures |v| == |runs| && forall i :: 0 <= i < |runs| ==> v[i] == RunView(runs[i])
  {
    seq(|runs|, i requires 0 <= i < |runs| => RunView(runs[i]))
  }

  method CopyTime(t: Time?) returns (c: Time?)
    ensures TimeView(c) == TimeView(t)
    ensures fresh(Cell(c))
  {
    if t == null {
      return null;
    }
    c := new Time(t.seconds);
  }

  /** BackupRunStatus.DeepCopyInto. */
  method CopyRun(r: RunRecord) returns (c: RunRecord)
    ensures RunView(c) == RunView(r)
    ensures fresh(RunCells(c))
  {
    c := r;
    if r.startTime != null {
      var start := CopyTime(r.startTime);
      c := c.(startTime := start);
    }
    if r.completionTime != null {
      var completion := CopyTime(r.completionTime);
      c := c.(completionTime := completion);
    }
  }

  /** A slice; null is the nil slice. */
  function Elements<T>(slice: array?<T>): seq<T>
    reads slice
  {
    if slice == null then [] else slice[..]
  }

  /** Conditions hold no pointers, so copying the elements is a deep copy. */
  method CopyConditions(conditions: array?<StatusCondition>) returns (c: array?<StatusCondition>)
    ensures c == null <==> conditions == null
    ensures fresh(Cell(c))
    ensures Elements(c) == Elements(conditions)
  {
    if conditions == null {
      return null;
    }
    c := new StatusCondition[conditions.Length](_ => StatusCondition("", "", 0, 0, "", ""));
    for i := 0 to conditions.Length
      invariant conditions[..] == old(conditions[..])
      invariant c[..i] == conditions[..i]
    {
      c[i] := conditions[i];
    }
  }

  method CopyRuns(runs: array?<RunRecord>) returns (c: array?<RunRecord>)
    ensures c == null <==> runs == null
    ensures fresh(Cell(c))
    ensures fresh(CellsOf(Elements(c)))
    ensures RunsView(Elements(c)) == RunsView(Elements(runs))
  {
    if runs == null {
      return null;
    }
    c := new RunRecord[runs.Length](i => RunRecord("", null, null, Pending, "", ""));
    for i := 0 to runs.Length
      invariant fresh(c) && c.Length == runs.Length
      invariant runs[..] == old(runs[..])
      invariant forall k :: 0 <= k < c.Length ==> fresh(RunCells(c[k]))
      invariant forall k :: 0 <= k < i ==> RunView(c[k]) == RunView(runs[k])
    {
      c[i] := CopyRun(runs[i]);
    }
  }

  /** *BackupRunStatus. */
  class RunCell {
    var run: RunRecord

    constructor (run: RunRecord)
      ensures this.run == run
    {
      this.run := run;
    }
  }

  method CopyRunCell(cell: RunCell?) returns (c: RunCell?)
    ensures c == null <==> cell == null
    ensures fresh(Cell(c))
    ensures c != null ==> fresh(RunCells(c.run)) && RunView(c.run) == RunView(cell.run)
  {
    if cell == null {
      return null;
    }
    var run := CopyRun(cell.run);
    c := new RunCell(run);
  }

  /** A status as a value, from its fields. */
  function ViewOf(last: Time?, success: Time?, phase: Option<Phase>, conditions: seq<StatusCondition>,
                  lastRun: Option<RunRecord>, runs: seq<RunRecord>, failures: int, successes: int, generation: int): Status
  {
    Status(TimeView(last), TimeView(success), phase, conditions,
           if lastRun.None? then None else Some(RunView(lastRun.value)),
           RunsView(runs), failures, successes, generation)
  }

  class BackupStatus {
    var lastBackupTime: Time?
    var lastSuccessfulBackupTime: Time?
    var phase: Option<Phase>
    var conditions: array?<StatusCondition>
    var lastRun: RunCell?
    var recentRuns: array?<RunRecord>
    var failureCount: int
    var successCount: int
    var observedGeneration: int

    /** Everything reachable from the status. */
    ghost function Repr(): set<object>
      reads this, lastRun, recentRuns
    {
      {this} + Cell(lastBackupTime) + Cell(lastSuccessfulBackupTime)
      + Cell(conditions) + Cell(lastRun) + (if lastRun == null then {} else RunCells(lastRun.run))
      + Cell(recentRuns) + CellsOf(Elements(recentRuns))
    }

    function LastRun(): Option<RunRecord>
      reads this, lastRun
    {
      if lastRun == null then None else Some(lastRun.run)
    }

    function View(): Status
      reads this, conditions, lastRun, recentRuns
    {
      ViewOf(lastBackupTime, lastSuccessfulBackupTime, phase, Elements(conditions), LastRun(), Elements(recentRuns),
             failureCount, successCount, observedGeneration)
    }

    constructor (last: Time?, success: Time?, phase: Option<Phase>, conditions: array?<StatusCondition>,
                 lastRun: RunCell?, recentRuns: array?<RunRecord>,
                 failureCount: int, successCount: int, observedGeneration: int)
      ensures lastBackupTime == last && lastSuccessfulBackupTime == success && this.phase == phase
      ensures this.conditions == conditions
      ensures this.lastRun == lastRun && this.recentRuns == recentRuns
      ensures this.failureCount == failureCount && this.successCount == successCount
      ensures this.observedGeneration == observedGeneration
    {
      lastBackupTime, lastSuccessfulBackupTime, this.phase := last, success, phase;
      this.conditions, this.lastRun, this.recentRuns := conditions, lastRun, recentRuns;
      this.failureCount, this.successCount := failureCount, successCount;
      this.observedGeneration := observedGeneration;
    }

    /** `*out = *in`: every field, pointers included. */
    constructor Shallow(other: BackupStatus)
      ensures lastBackupTime == other.lastBackupTime
      ensures lastSuccessfulBackupTime == other.lastSuccessfulBackupTime
      ensures phase == other.phase && conditions == other.conditions
      ensures lastRun == other.lastRun && recentRuns == other.recentRuns
      ensures failureCount == other.failureCount && successCount == other.successCount
      ensures observedGeneration == other.observedGeneration
    {
      lastBackupTime, lastSuccessfulBackupTime := other.lastBackupTime, other.lastSuccessfulBackupTime;
      phase, conditions := other.phase, other.conditions;
      lastRun, recentRuns := other.lastRun, other.recentRuns;
      failureCount, successCount := other.failureCount, other.successCount;
      observedGeneration := other.observedGeneration;
    }

    method CopyTimesInto(out: BackupStatus)
      requires out != this
      modifies out`lastBackupTime, out`lastSuccessfulBackupTime
      ensures TimeView(out.lastBackupTime) == TimeView(lastBackupTime)
      ensures TimeView(out.lastSuccessfulBackupTime) == TimeView(lastSuccessfulBackupTime)
      ensures fresh(Cell(out.lastBackupTime)) && fresh(Cell(out.lastSuccessfulBackupTime))
    {
      hide TimeView, Cell;
      out.lastBackupTime := CopyTime(lastBackupTime);
      out.lastSuccessfulBackupTime := CopyTime(lastSuccessfulBackupTime);
    }

    method CopyRunsInto(out: BackupStatus)
      requires out != this
      modifies out`conditions, out`lastRun, out`recentRuns
      ensures Elements(out.conditions) == Elements(conditions)
      ensures RunsView(Elements(out.recentRuns)) == RunsView(Elements(recentRuns))
      ensures fresh(Cell(out.conditions)) && fresh(Cell(out.recentRuns)) && fresh(CellsOf(Elements(out.recentRuns)))
      ensures out.lastRun == null <==> lastRun == null
      ensures fresh(Cell(out.lastRun))
      ensures lastRun != null ==> fresh(RunCells(out.lastRun.run)) && RunView(out.lastRun.run) == RunView(lastRun.run)
    {
      hide RunsView, RunView, CellsOf, RunCells, Cell;
      out.conditions := CopyConditions(conditions);
      out.lastRun := CopyRunCell(lastRun);
      out.recentRuns := CopyRuns(recentRuns);
    }

    /** BackupStatus.DeepCopy: an equal status that shares nothing with this one, which stays as it was. */
    method DeepCopy() returns (out: BackupStatus)
      ensures fresh(out.Repr())
      ensures out.View() == View()
    {
      hide RunsView, RunView, CellsOf, RunCells, TimeView, Cell;
      out := new BackupStatus.Shallow(this);
      CopyTimesInto(out);
      CopyRunsInto(out);
    }
  }

  /** The in-memory Backup. */
  class BackupObject {
    var generation: int
    var spec: Values.Spec
    var resourceVersion: int
    var status: BackupStatus

    function View(): Values.Backup
      reads this, status, status.conditions, status.lastRun, status.recentRuns
    {
      Values.Backup(generation, spec, resourceVersion, status.View())
    }

    constructor (generation: int, spec: Values.Spec, resourceVersion: int, status: BackupStatus)
      ensures this.generation == generation && this.spec == spec
      ensures this.resourceVersion == resourceVersion && this.status == status
    {
      this.generation, this.spec, this.resourceVersion, this.status := generation, spec, resourceVersion, status;
    }

    /** Backup.DeepCopy, with the spec as a value. */
    method DeepCopy() returns (out: BackupObject)
      ensures fresh(out) && fresh(out.status.Repr())
      ensures out.View() == View()
    {
      var copy := status.DeepCopy();
      out := new BackupObject(generation, spec, resourceVersion, copy);
    }
  }

  // ----- Objects from values: what decoding an API reply gives -----

  method DecodeTime(t: Option<int>) returns (c: Time?)
    ensures TimeView(c) == t && fresh(Cell(c))
  {
    if t.None? {
      return null;
    }
    c := new Time(t.value);
  }

  method DecodeRun(r: Run) returns (c: RunRecord)
    ensures RunView(c) == r && fresh(RunCells(c))
  {
    var start := DecodeTime(r.startTime);
    var completion := DecodeTime(r.completionTime);
    c := RunRecord(r.jobName, start, completion, r.phase, r.message, r.logs);
  }

  method DecodeRuns(runs: seq<Run>) returns (c: array<RunRecord>)
    ensures fresh(c) && fresh(CellsOf(c[..])) && RunsView(c[..]) == runs
  {
    c := new RunRecord[|runs|](i => RunRecord("", null, null, Pending, "", ""));
    for i := 0 to |runs|
      invariant forall k :: 0 <= k < c.Length ==> fresh(RunCells(c[k]))
      invariant forall k :: 0 <= k < i ==> RunView(c[k]) == runs[k]
    {
      c[i] := DecodeRun(runs[i]);
    }
  }

  method DecodeConditions(conditions: seq<StatusCondition>) returns (c: array<StatusCondition>)
    ensures fresh(c) && c[..] == conditions
  {
    c := new StatusCondition[|conditions|](i requires 0 <= i < |conditions| => conditions[i]);
  }

  method DecodeLastRun(r: Option<Run>) returns (c: RunCell?)
    ensures c == null <==> r.None?
    ensures c != null ==> fresh(c) && fresh(RunCells(c.run)) && RunView(c.run) == r.value
  {
    if r.None? {
      return null;
    }
    var run := DecodeRun(r.value);
    c := new RunCell(run);
  }

  method DecodeStatus(s: Status) returns (c: BackupStatus)
    ensures fresh(c) && c.View() == s
  {
    hide RunsView, RunView, CellsOf, RunCells;
    var last := DecodeTime(s.lastBackupTime);
    var success := DecodeTime(s.lastSuccessfulBackupTime);
    var conditions := DecodeConditions(s.conditions);
    var lastRun := DecodeLastRun(s.lastRun);
    var runs := DecodeRuns(s.recentRuns);
    c := new BackupStatus(last, success, s.phase, conditions, lastRun, runs, s.failureCount, s.successCount, s.observedGeneration);
  }

  method DecodeBackup(b: Values.Backup) returns (c: BackupObject)
    ensures fresh(c) && fresh(c.status) && c.View() == b
  {
    var status := DecodeStatus(b.status);
    c := new BackupObject(b.generation, b.spec, b.resourceVersion, status);
  }

  /** The new slice of addToRecentRuns: the run in front, cut to the window's size. */
  method PrependRun(runs: array?<RunRecord>, run: RunRecord) returns (r: array<RunRecord>)
    requires IndexOf(RunsView(Elements(runs)), run.jobName) == |Elements(runs)|
    ensures fresh(r)
    ensures RunsView(r[..]) == AddToRecentRuns(RunsView(Elements(runs)), RunView(run))
    ensures CellsOf(r[..]) <= CellsOf(Elements(runs)) + RunCells(run)
  {
    hide RunsView, CellsOf, RunCells, IndexOf;
    ghost var before, all := Elements(runs), [run] + Elements(runs);
    var n := if runs == null then 0 else runs.Length;
    var m := if n + 1 > MAX_RECENT_RUNS then MAX_RECENT_RUNS else n + 1;
    r := new RunRecord[m](_ => run);
    for i := 1 to m
      invariant r[..i] == all[..i]
    {
      r[i] := runs[i - 1];
    }
    assert r[..] == all[..m];
    CellsOfPrefix(run, before, m);
    ViewOfPrefix(run, before, m);
  }

  lemma ViewOfPrefix(run: RunRecord, runs: seq<RunRecord>, m: nat)
    requires m <= |runs| + 1
    ensures RunsView(([run] + runs)[..m]) == ([RunView(run)] + RunsView(runs))[..m]
    ensures m == |runs| + 1 ==> ([RunView(run)] + RunsView(runs))[..m] == [RunView(run)] + RunsView(runs)
  {}

  lemma CellsOfPrefix(run: RunRecord, runs: seq<RunRecord>, m: nat)
    requires m <= |runs| + 1
    ensures CellsOf(([run] + runs)[..m]) <= CellsOf(runs) + RunCells(run)
  {
    forall c | c in CellsOf(([run] + runs)[..m])
      ensures c in CellsOf(runs) + RunCells(run)
    {
      var i :| 0 <= i < m && c in RunCells(([run] + runs)[..m][i]);
      assert i > 0 ==> ([run] + runs)[..m][i] == runs[i - 1];
    }
  }

  lemma CellsOfUpdate(runs: seq<RunRecord>, i: nat, run: RunRecord)
    requires i < |runs|
    ensures CellsOf(runs[i := run]) <= CellsOf(runs) + RunCells(run)
  {}

  /** addToRecentRuns: overwrites an entry of the given slice in place, or builds a new slice. */
  method AddToRecentRunsInPlace(runs: array?<RunRecord>, run: RunRecord) returns (r: array<RunRecord>)
    modifies Cell(runs)
    ensures r == runs || fresh(r)
    ensures RunsView(r[..]) == AddToRecentRuns(old(RunsView(Elements(runs))), RunView(run))
    ensures CellsOf(r[..]) <= old(CellsOf(Elements(runs))) + RunCells(run)
  {
    ghost var before := Elements(runs);
    var n := if runs == null then 0 else runs.Length;
    for i := 0 to n
      invariant forall k :: 0 <= k < i ==> before[k].jobName != run.jobName
      invariant unchanged(Cell(runs))
    {
      if runs[i].jobName == run.jobName {
        assert IndexOf(RunsView(before), run.jobName) == i;
        runs[i] := run;
        assert runs[..] == before[i := run];
        CellsOfUpdate(before, i, run);
        assert RunsView(before[i := run]) == RunsView(before)[i := RunView(run)];
        return runs;
      }
    }
    assert IndexOf(RunsView(before), run.jobName) == |before|;
    r := PrependRun(runs, run);
  }

  /** Whether this run moves a counter, branch by branch (lines 601 to 609). */
  method ShouldIncrement(status: BackupStatus, run: RunRecord) returns (should: bool)
    ensures should == CountsRun(status.View(), RunView(run))
  {
    should := false;
    if status.lastRun == null || status.lastRun.run.jobName != run.jobName {
      should := run.phase == Succeeded || run.phase == Failed;
    } else if status.lastRun.run.phase != run.phase {
      should := run.phase == Succeeded || run.phase == Failed;
    }
  }

  /** The counters and the time of the last success (lines 620 to 630). */
  method BumpCounters(status: BackupStatus, run: RunRecord, now: Time, shouldIncrement: bool)
    modifies status`successCount, status`failureCount, status`lastSuccessfulBackupTime
    ensures status.lastSuccessfulBackupTime
            == if shouldIncrement && run.phase == Succeeded then now else old(status.lastSuccessfulBackupTime)
    ensures status.successCount
            == if shouldIncrement && run.phase == Succeeded then Wrap32(old(status.successCount) + 1)
               else old(status.successCount)
    ensures status.failureCount
            == if !shouldIncrement || !Terminal(run.phase) then old(status.failureCount)
               else if run.phase == Succeeded then 0
               else Wrap32(old(status.failureCount) + 1)
    ensures shouldIncrement && run.phase == Succeeded && -0x8000_0000 <= old(status.successCount) < 0x7FFF_FFFF ==>
              status.successCount == old(status.successCount) + 1
    ensures shouldIncrement && run.phase == Failed && -0x8000_0000 <= old(status.failureCount) < 0x7FFF_FFFF ==>
              status.failureCount == old(status.failureCount) + 1
  {
    if shouldIncrement {
      if run.phase == Succeeded {
        status.lastSuccessfulBackupTime := now;
        status.successCount := Wrap32(status.successCount + 1);
        status.failureCount := 0;
      } else if run.phase == Failed {
        status.failureCount := Wrap32(status.failureCount + 1);
      }
    }
  }

  /** The last run and its time (lines 615 to 617). */
  method SetLastRun(status: BackupStatus, run: RunRecord, now: Time)
    modifies status`lastBackupTime, status`phase, status`lastRun
    ensures status.lastBackupTime == now && status.phase == Some(run.phase)
    ensures status.lastRun != null && fresh(status.lastRun) && status.lastRun.run == run
  {
    status.lastBackupTime := now;
    status.phase := Some(run.phase);
    status.lastRun := new RunCell(run);
  }

  /** The edited fields are those of RecordRun. */
  lemma EditedFields(success: Time?, phase: Option<Phase>, conditions: seq<StatusCondition>,
                     last: Time?, lastRun: Option<RunRecord>, runs: seq<RunRecord>, runs': seq<RunRecord>,
                     failures: int, successes: int, generation: int, run: RunRecord, now: Time)
    requires RunsView(runs') == AddToRecentRuns(RunsView(runs), RunView(run))
    ensures var before := ViewOf(last, success, phase, conditions, lastRun, runs, failures, successes, generation);
            var counts := CountsRun(before, RunView(run));
            ViewOf(now,
                   if counts && run.phase == Succeeded then now else success,
                   Some(run.phase), conditions, Some(run), runs',
                   if !counts || !Terminal(run.phase) then failures
                   else if run.phase == Succeeded then 0
                   else Wrap32(failures + 1),
                   if counts && run.phase == Succeeded then Wrap32(successes + 1) else successes,
                   generation)
            == RecordRun(before, RunView(run), now.seconds)
  {
    hide RunsView, AddToRecentRuns, Wrap32;
  }

  /** All edits but the window (lines 615 to 630), in terms of the value. */
  method EditScalars(status: BackupStatus, run: RunRecord, nowCell: Time, shouldIncrement: bool)
    modifies status`lastBackupTime, status`phase, status`lastRun
    modifies status`successCount, status`failureCount, status`lastSuccessfulBackupTime
    ensures status.lastBackupTime == nowCell && status.phase == Some(run.phase)
    ensures status.lastRun != null && fresh(status.lastRun) && status.lastRun.run == run
    ensures status.lastSuccessfulBackupTime
            == if shouldIncrement && run.phase == Succeeded then nowCell else old(status.lastSuccessfulBackupTime)
    ensures status.successCount
            == if shouldIncrement && run.phase == Succeeded then Wrap32(old(status.successCount) + 1)
               else old(status.successCount)
    ensures status.failureCount
            == if !shouldIncrement || !Terminal(run.phase) then old(status.failureCount)
               else if run.phase == Succeeded then 0
               else Wrap32(old(status.failureCount) + 1)
  {
    SetLastRun(status, run, nowCell);
    BumpCounters(status, run, nowCell, shouldIncrement);
  }

  /** All edits of statusCopy (lines 615 to 633). */
  method EditStatus(status: BackupStatus, run: RunRecord, now: int, shouldIncrement: bool)
    requires shouldIncrement == CountsRun(status.View(), RunView(run))
    modifies status, Cell(status.recentRuns)
    ensures status.View() == RecordRun(old(status.View()), RunView(run), now)
    ensures forall o :: o in status.Repr() ==> fresh(o) || o in old(status.Repr()) || o in RunCells(run)
  {
    hide RunsView, RunView, AddToRecentRuns, CellsOf, RunCells, CountsRun, RecordRun, ViewOf, Wrap32, TimeView, Terminal;
    var nowCell := new Time(now);
    EditScalars(status, run, nowCell, shouldIncrement);
    status.recentRuns := AddToRecentRunsInPlace(status.recentRuns, run);
    EditedFields(old(status.lastSuccessfulBackupTime), old(status.phase), old(Elements(status.conditions)),
                 old(status.lastBackupTime), old(status.LastRun()), old(Elements(status.recentRuns)), Elements(status.recentRuns),
                 old(status.failureCount), old(status.successCount), status.observedGeneration, run, nowCell);
  }

  /** The part of reconcileJobStatus that edits the status (lines 601 to 636). Every write before the
      last goes to the deep copy: nothing but the Backup's status field changes, and the status it
      pointed to is as it was. */
  method RecordRunInMemory(backup: BackupObject, run: RunRecord, now: int)
    modifies backup
    ensures backup.status.View() == RecordRun(old(backup.status.View()), RunView(run), now)
    ensures old(backup.status).View() == old(backup.status.View())
    ensures backup.generation == old(backup.generation) && backup.spec == old(backup.spec)
    ensures backup.resourceVersion == old(backup.resourceVersion)
    ensures forall o :: o in backup.status.Repr() ==> fresh(o) || o in RunCells(run)
  {
    hide RunsView, RunView, CellsOf, RunCells, RecordRun, CountsRun, ViewOf, TimeView, Cell;
    var shouldIncrement := ShouldIncrement(backup.status, run);
    var statusCopy := backup.status.DeepCopy();
    EditStatus(statusCopy, run, now, shouldIncrement);
    backup.status := statusCopy;
  }

  // ----- The merge patch -----

  /** A JSON merge patch of the status: only the fields it sets. */
  datatype StatusPatch = StatusPatch(
    lastBackupTime: Option<Option<int>>,
    lastSuccessfulBackupTime: Option<Option<int>>,
    phase: Option<Option<Phase>>,
    conditions: Option<seq<StatusCondition>>,
    lastRun: Option<Option<Run>>,
    recentRuns: Option<seq<Run>>,
    failureCount: Option<int>,
    successCount: Option<int>,
    observedGeneration: Option<int>)

  function Changed<T(==)>(base: T, modified: T): Option<T> {
    if base == modified then None else Some(modified)
  }

  function Merged<T>(stored: T, change: Option<T>): T {
    if change.Some? then change.value else stored
  }

  /** `client.MergeFrom(base)` applied to the modified object. */
  function PatchBetween(base: Status, modified: Status): StatusPatch {
    StatusPatch(
      Changed(base.lastBackupTime, modified.lastBackupTime),
      Changed(base.lastSuccessfulBackupTime, modified.lastSuccessfulBackupTime),
      Changed(base.phase, modified.phase),
      Changed(base.conditions, modified.conditions),
      Changed(base.lastRun, modified.lastRun),
      Changed(base.recentRuns, modified.recentRuns),
      Changed(base.failureCount, modified.failureCount),
      Changed(base.successCount, modified.successCount),
      Changed(base.observedGeneration, modified.observedGeneration))
  }

  function ApplyPatch(stored: Status, patch: StatusPatch): Status {
    Status(
      Merged(stored.lastBackupTime, patch.lastBackupTime),
      Merged(stored.lastSuccessfulBackupTime, patch.lastSuccessfulBackupTime),
      Merged(stored.phase, patch.phase),
      Merged(stored.conditions, patch.conditions),
      Merged(stored.lastRun, patch.lastRun),
      Merged(stored.recentRuns, patch.recentRuns),
      Merged(stored.failureCount, patch.failureCount),
      Merged(stored.successCount, patch.successCount),
      Merged(stored.observedGeneration, patch.observedGeneration))
  }

  /** The patch that carries a generation and nothing else. */
  function GenerationPatch(generation: int): StatusPatch {
    StatusPatch(None, None, None, None, None, None, None, None, Some(generation))
  }

  /** Applied to any stored status, however far it has moved on from the base, such a patch changes
      observedGeneration only; and it is the patch between two statuses that differ there only. */
  lemma GenerationPatchIsNarrow(base: Status, stored: Status, generation: int)
    requires base.observedGeneration != generation
    ensures PatchBetween(base, base.(observedGeneration := generation)) == GenerationPatch(generation)
    ensures ApplyPatch(stored, GenerationPatch(generation)) == stored.(observedGeneration := generation)
  {}

  /** A merge patch carries exactly the changed fields: applied to any stored status, it gives the modified
      value where the two differ and leaves the stored one where they agree. */
  lemma PatchCarriesChanges(base: Status, modified: Status, stored: Status)
    ensures ApplyPatch(base, PatchBetween(base, modified)) == modified
    ensures ApplyPatch(stored, PatchBetween(modified, modified)) == stored
    ensures var merged := ApplyPatch(stored, PatchBetween(base, modified));
            && merged.recentRuns == (if base.recentRuns == modified.recentRuns then stored.recentRuns else modified.recentRuns)
            && merged.lastRun == (if base.lastRun == modified.lastRun then stored.lastRun else modified.lastRun)
            && merged.successCount == if base.successCount == modified.successCount then stored.successCount
                                      else modified.successCount
  {}

  /** recordObservedGeneration up to the call (lines 531 and 532): the base is a deep copy, so the write
      to the Backup's own status leaves it alone, and the patch carries the generation and nothing else. */
  method PrepareGenerationPatch(backup: BackupObject) returns (patch: StatusPatch)
    requires backup.status.observedGeneration != backup.generation
    modifies backup.status
    ensures backup.View() == old(backup.View()).(status := old(backup.View()).status.(observedGeneration := backup.generation))
    ensures backup.status == old(backup.status)
    ensures patch == GenerationPatch(backup.generation)
  {
    hide RunsView, RunView, TimeView, Cell, CellsOf, RunCells;
    var base := backup.DeepCopy();
    backup.status.observedGeneration := backup.generation;
    patch := PatchBetween(base.status.View(), backup.status.View());
  }
}
