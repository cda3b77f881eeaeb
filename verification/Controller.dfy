/** The controller in the form the Go code has: methods that call the API, work on an in-memory Backup
    and branch on what comes back. Every call goes to a World that follows the step system, so the
    methods' contracts say that running them is a run of it, and that the result and error they return
    are the outcome the step system reaches. */
module Controller {
  import opened Jobs
  import opened RunStatus
  import opened Reconciler
  import opened Objects
  import opened Truncation
  import Values = Cluster

  /** ctrl.Result; zero means no requeue. */
  datatype ReconcileResult = ReconcileResult(requeueAfter: nat)

  /** Jobs are stored under their names. */
  ghost predicate JobsNamed(s: State) {
    forall n :: n in s.objects.jobs ==> s.objects.jobs[n].name == n
  }

  /** Errors of a Create call. */
  datatype CreateError = NoError | AlreadyExists | OtherError

  /** The API server and everyone who uses it. `start` and `steps` record the run that led here, and
      `begun` the number of reconciles begun in it. */
  class World {
    const name: string
    var state: State
    ghost var start: State
    ghost var steps: seq<Step>
    ghost var begun: nat

    constructor (state: State)
      requires JobsNamed(state)
      ensures Valid() && this.state == state && this.name == state.name
      ensures start == state && steps == [] && begun == 0
    {
      this.name := state.name;
      this.state := state;
      this.start := state;
      this.steps := [];
      this.begun := 0;
    }

    ghost predicate Valid()
      reads this
    {
      && state.name == name && JobsNamed(state)
      && ValidRun(start, steps) && After(start, steps) == state && Begun(start, steps) == begun
    }

    /** The run only got longer, and no reconcile was begun. */
    twostate predicate Extended()
      reads this
    {
      start == old(start) && old(steps) <= steps && begun == old(begun)
    }

    /** The run got longer, and one reconcile was begun. */
    twostate predicate ExtendedByOne()
      reads this
    {
      start == old(start) && old(steps) <= steps && begun == old(begun) + 1
    }

    method Take(step: Step)
      requires Valid() && Enabled(state, step)
      modifies this
      ensures Valid() && start == old(start) && old(steps) <= steps && begun == old(begun) + Begins(old(state), step)
      ensures state == Apply(old(state), step)
    {
      NameStays(state, step);
      NamedStays(state, step);
      hide Enabled, Apply, JobsNamed, Begins;
      RunExtends(start, steps, step);
      begun := begun + Begins(state, step);
      state := Apply(state, step);
      steps := steps + [step];
    }

    /** Anything the environment can do, any number of times. */
    method Interfere()
      requires Valid()
      modifies this
      ensures Valid() && Extended()
      ensures state.pc == old(state.pc)
    {
      var n: nat := *;
      while n > 0
        invariant Valid() && Extended() && state.pc == old(state.pc)
      {
        var step: Step := *;
        if Possible(state.objects, step) {
          PcStays(state, step);
          Take(step);
        }
        n := n - 1;
      }
    }

    // ----- API calls: the environment acts first, then the call is answered -----

    method Call(listed: seq<Job>, pod: PodLogs) returns (reply: Reply)
      requires Valid()
      requires state.pc.ListingRunning? || state.pc.ListingJobs? ==> Values.Lists(listed, state.objects.jobs)
      modifies this
      ensures Valid() && if old(state.pc.Idle?) then ExtendedByOne() else Extended()
      ensures state == ActOnce(old(state), Input(reply, listed, pod))
    {
      reply := *;
      Take(Act(Input(reply, listed, pod)));
    }

    method GetBackup() returns (err: bool, b: BackupObject?, deleting: bool)
      requires Valid() && state.pc.Idle?
      modifies this
      ensures Valid() && ExtendedByOne()
      ensures err ==> state.pc == Idle(Errored)
      ensures !err && (b == null || deleting) ==> state.pc == Idle(Done(0, false))
      ensures !err && b != null && !deleting ==>
                fresh(b) && fresh(b.status) && state.pc == GettingCronJob(b.View())
    {
      Interfere();
      var o := state.objects;
      var reply := Call([], NoClientset);
      if reply != Ok {
        return true, null, false;
      }
      if o.life == Values.Gone {
        return false, null, false;
      }
      b := DecodeBackup(o.backup);
      return false, b, o.life == Values.Deleting;
    }

    method GetCronJob(b: BackupObject) returns (err: bool, found: bool)
      requires Valid() && state.pc == GettingCronJob(b.View())
      modifies this
      ensures Valid() && Extended()
      ensures err ==> state.pc == Idle(Errored)
      ensures !err ==> state.pc == Routed(b.View(), Values.Judge(b.spec), found)
    {
      hide Values.Judge, Valid, ViewOf, RunsView;
      Interfere();
      found := state.objects.cronJob.Some?;
      var reply := Call([], NoClientset);
      err := reply != Ok;
    }

    method CreateSecret(b: BackupObject, update: bool) returns (err: bool)
      requires Valid() && state.pc == WritingSecret(b.View(), update)
      modifies this
      ensures Valid() && Extended()
      ensures err ==> state.pc == Idle(Errored)
      ensures !err ==> state.pc == if update then DeletingCronJob(b.View()) else CreatingCronJob(b.View(), false)
    {
      hide Valid, ViewOf, RunsView;
      Interfere();
      var reply := Call([], NoClientset);
      err := reply != Ok;
    }

    method DeleteCronJob(b: BackupObject) returns (err: bool, notFound: bool)
      requires Valid() && state.pc == DeletingCronJob(b.View())
      modifies this
      ensures Valid() && Extended()
      ensures err && !notFound ==> state.pc == Idle(Errored)
      ensures !err || notFound ==> state.pc == CreatingCronJob(b.View(), true)
    {
      Interfere();
      var found := state.objects.cronJob.Some?;
      var reply := Call([], NoClientset);
      notFound := reply == Ok && !found;
      err := reply != Ok || notFound;
    }

    method CreateCronJob(b: BackupObject, update: bool) returns (err: CreateError)
      requires Valid() && state.pc == CreatingCronJob(b.View(), update)
      modifies this
      ensures Valid() && Extended()
      ensures err == NoError ==> state.pc == if update then ListingRunning(b.View()) else AfterCreate(b.View())
      ensures err == AlreadyExists ==> state.pc == if update then ListingJobs(b.View(), RETRY_SECONDS) else Idle(Errored)
      ensures err == OtherError ==> state.pc == Idle(Errored)
    {
      hide Values.BuildCronJobSpec;
      Interfere();
      var found := state.objects.cronJob.Some?;
      var reply := Call([], NoClientset);
      err := if reply != Ok then OtherError else if found then AlreadyExists else NoError;
    }

    /** The Jobs of the namespace, in whatever order the loop takes them. */
    method SomeListing() returns (listed: seq<Job>)
      requires Valid()
      ensures Values.Lists(listed, state.objects.jobs)
    {
      var jobs := state.objects.jobs;
      var remaining := jobs.Keys;
      listed := [];
      while remaining != {}
        invariant remaining <= jobs.Keys
        invariant forall j :: j in listed ==> j.name in jobs && j.name !in remaining && jobs[j.name] == j
        invariant forall n :: n in jobs && n !in remaining ==> jobs[n] in listed
        invariant forall i, k :: 0 <= i < k < |listed| ==> listed[i].name != listed[k].name
      {
        var n :| n in remaining;
        assert forall i :: 0 <= i < |listed| ==> listed[i] in listed;
        listed := listed + [jobs[n]];
        remaining := remaining - {n};
      }
    }

    method ListRunning(b: BackupObject) returns (err: bool, listed: seq<Job>)
      requires Valid() && state.pc == ListingRunning(b.View())
      modifies this
      ensures Valid() && Extended()
      ensures err ==> state.pc == Idle(Errored)
      ensures !err ==> state.pc == if AnyUnfinished(name, listed) then AfterCreate(b.View()) else StartingManualJob(b.View())
    {
      hide AnyUnfinished;
      Interfere();
      listed := SomeListing();
      var reply := Call(listed, NoClientset);
      err := reply != Ok;
    }

    method CreateManualJob(b: BackupObject) returns (err: bool)
      requires Valid() && state.pc == StartingManualJob(b.View())
      modifies this
      ensures Valid() && Extended()
      ensures err ==> state.pc == Idle(Errored)
      ensures !err ==> state.pc == AfterCreate(b.View())
    {
      hide Values.ManualJobName, RelatedTo;
      Interfere();
      var exists' := Values.ManualJobName(name, state.objects.clock) in state.objects.jobs;
      var reply := Call([], NoClientset);
      err := reply != Ok || exists';
    }

    /** The reply of the patch is decoded into the in-memory Backup. */
    method PatchStatus(b: BackupObject, patch: StatusPatch) returns (err: bool)
      requires Valid() && state.pc.RecordingGeneration?
      requires b.View() == state.pc.b.(status := state.pc.b.status.(observedGeneration := b.generation))
      requires patch == GenerationPatch(b.generation)
      modifies this, b
      ensures Valid() && Extended()
      ensures err ==> state.pc == Idle(Errored) && b.status == old(b.status)
      ensures !err ==> fresh(b.status) && state.pc == ListingJobs(b.View(), 0)
    {
      hide ApplyPatch, Valid, ViewOf, GenerationPatch, RunsView;
      var generation := b.generation;
      Interfere();
      var o := state.objects;
      PatchMeans(o.backup.status, generation);
      var patched := Values.WithStatus(o.backup, ApplyPatch(o.backup.status, patch));
      var reply := Call([], NoClientset);
      err := reply != Ok || o.life == Values.Gone;
      if !err {
        assert state.pc == ListingJobs(patched, 0);
        b.generation, b.spec, b.resourceVersion := patched.generation, patched.spec, patched.resourceVersion;
        b.status := DecodeStatus(patched.status);
      }
    }

    /** The list, and with it the time of the update and the log the Pod will give. */
    method ListJobs(b: BackupObject, requeue: nat) returns (err: bool, listed: seq<Job>, pod: PodLogs, now: int)
      requires Valid() && state.pc == ListingJobs(b.View(), requeue)
      modifies this
      ensures Valid() && Extended()
      ensures err ==> state.pc == Idle(Errored)
      ensures !err ==> state.pc == AfterListing(name, b.View(), requeue, listed, pod, now)
    {
      hide RelatedJobs, LatestJob, AlreadyRecorded, BuildRun;
      Interfere();
      listed := SomeListing();
      pod := *;
      now := state.objects.clock;
      var reply := Call(listed, pod);
      err := reply != Ok;
    }

    method UpdateStatus(b: BackupObject) returns (err: bool, conflict: bool)
      requires Valid() && state.pc.UpdatingStatus? && b.resourceVersion == state.pc.b.resourceVersion
      requires b.status.View() == RecordRun(state.pc.b.status, state.pc.run, state.pc.at)
      modifies this
      ensures Valid() && Extended()
      ensures conflict ==> err
      ensures err && !conflict ==> state.pc == Idle(Errored)
      ensures !err || conflict ==> state.pc == Finished(b.status.View(), old(state.pc.requeue), conflict)
    {
      hide RecordRun, Valid, ViewOf, RunsView;
      Interfere();
      var o := state.objects;
      var reply := Call([], NoClientset);
      conflict := reply == Ok && o.life != Values.Gone && b.resourceVersion != o.backup.resourceVersion;
      err := conflict || reply != Ok || o.life == Values.Gone;
    }
  }

  lemma PatchMeans(stored: Status, generation: int)
    ensures ApplyPatch(stored, GenerationPatch(generation)) == stored.(observedGeneration := generation)
  {}

  lemma NameStays(s: State, step: Step)
    requires Enabled(s, step)
    ensures Apply(s, step).name == s.name
  {
    hide Values.Judge, RecordRun, RelatedJobs, LatestJob, AlreadyRecorded, AnyUnfinished, BuildRun, Values.ManualJobName, RelatedTo;
  }

  lemma NamedStays(s: State, step: Step)
    requires Enabled(s, step) && JobsNamed(s)
    ensures JobsNamed(Apply(s, step))
  {
    hide Values.Judge, RecordRun, RelatedJobs, LatestJob, AlreadyRecorded, AnyUnfinished, BuildRun, Values.ManualJobName, RelatedTo;
  }

  lemma PcStays(s: State, step: Step)
    requires Possible(s.objects, step)
    ensures Enabled(s, step) && Apply(s, step).pc == s.pc
  {}

  // ----- The controller's methods -----

  /** buildRunStatus, with the scan over the Job's conditions. */
  method BuildRunStatus(job: Job, pod: PodLogs) returns (run: RunRecord)
    ensures RunView(run) == BuildRun(job, pod)
    ensures TimeView(run.startTime) == job.startTime && TimeView(run.completionTime) == job.completionTime
  {
    var start := DecodeTime(job.startTime);
    var completion := DecodeTime(job.completionTime);
    var message := "";
    for i := 0 to |job.conditions|
      invariant message == MessageOf(job.conditions[..i])
    {
      assert job.conditions[..i + 1][..i] == job.conditions[..i];
      var c := job.conditions[i];
      if c.kind == JobComplete && c.isTrue {
        message := Fit("Backup completed successfully", MAX_MESSAGE_SIZE);
      } else if c.kind == JobFailed && c.isTrue {
        message := Fit("Backup failed: " + c.message, MAX_MESSAGE_SIZE);
      }
    }
    assert job.conditions[..|job.conditions|] == job.conditions;
    var logs := "";
    if GetJobPhase(job) == Failed && pod != NoClientset {
      match pod
      case LogError(reason) => logs := Fit("Failed to collect logs: " + reason, MAX_LOG_SIZE);
      case LogText(text) => logs := Fit(text, MAX_LOG_SIZE);
    }
    run := RunRecord(job.name, start, completion, GetJobPhase(job), message, logs);
  }

  method RecordObservedGeneration(world: World, b: BackupObject) returns (err: bool)
    requires world.Valid() && world.state.pc == AfterCreate(b.View())
    modifies world, b, b.status
    ensures world.Valid() && world.Extended()
    ensures err ==> world.state.pc == Idle(Errored)
    ensures !err ==> world.state.pc == ListingJobs(b.View(), 0)
    ensures fresh(b.status) || b.status == old(b.status)
  {
    hide World.Valid, RunsView;
    if b.status.observedGeneration == b.generation {
      return false;
    }
    var patch := PrepareGenerationPatch(b);
    err := world.PatchStatus(b, patch);
  }

  method HasRunningBackupJob(world: World, b: BackupObject) returns (err: bool, running: bool)
    requires world.Valid() && world.state.pc == ListingRunning(b.View())
    modifies world
    ensures world.Valid() && world.Extended()
    ensures err ==> world.state.pc == Idle(Errored)
    ensures !err ==> world.state.pc == if running then AfterCreate(b.View()) else StartingManualJob(b.View())
  {
    hide World.Valid, ViewOf, AnyUnfinished;
    var failed, listed := world.ListRunning(b);
    if failed {
      return true, false;
    }
    running := HasUnfinished(world.name, listed);
    return false, running;
  }

  /** The first checks of both handlers: an error, nothing to do, or neither. */
  method Validate(spec: Values.Spec) returns (err: bool, ignored: bool)
    ensures Values.Judge(spec) == if err then Values.Invalid else if ignored then Values.Ignored else Values.Accepted
    ensures err ==> !ignored
  {
    if spec.schedule.None? || Values.Blank(spec.schedule.value.cron) {
      return false, true;
    }
    if Values.CountFields(spec.schedule.value.cron) != 5 {
      return true, false;
    }
    if |spec.storageRefs| == 0 {
      return true, false;
    }
    if |spec.databaseRefs| == 0 {
      return true, false;
    }
    return false, false;
  }

  method HandleBackupCreate(world: World, b: BackupObject) returns (err: bool)
    requires world.Valid() && world.state.pc == Routed(b.View(), Values.Judge(b.spec), false)
    modifies world, b, b.status
    ensures world.Valid() && world.Extended()
    ensures err ==> world.state.pc == Idle(Errored)
    ensures !err ==> world.state.pc == ListingJobs(b.View(), 0)
    ensures fresh(b.status) || b.status == old(b.status)
  {
    hide World.Valid, ViewOf, Values.Judge;
    var invalid, ignored := Validate(b.spec);
    if invalid || ignored {
      return invalid;
    }
    err := world.CreateSecret(b, false);
    if err {
      return true;
    }
    var failure := world.CreateCronJob(b, false);
    if failure != NoError {
      return true;
    }
    err := RecordObservedGeneration(world, b);
  }

  method HandleBackupUpdate(world: World, b: BackupObject) returns (result: ReconcileResult, err: bool)
    requires world.Valid() && world.state.pc == Routed(b.View(), Values.Judge(b.spec), true)
    modifies world, b, b.status
    ensures world.Valid() && world.Extended()
    ensures err ==> world.state.pc == Idle(Errored)
    ensures !err ==> world.state.pc == ListingJobs(b.View(), result.requeueAfter)
    ensures fresh(b.status) || b.status == old(b.status)
  {
    hide World.Valid, ViewOf, Values.Judge;
    result := ReconcileResult(0);
    var invalid, ignored := Validate(b.spec);
    if invalid || ignored {
      return result, invalid;
    }
    var unchanged' := SpecUnchanged(b);
    if unchanged' {
      return result, false;
    }
    err := world.CreateSecret(b, true);
    if err {
      return result, true;
    }
    err := DeleteOldCronJob(world, b);
    if err {
      return result, true;
    }
    var failure := world.CreateCronJob(b, true);
    if failure != NoError {
      if failure == AlreadyExists {
        return ReconcileResult(RETRY_SECONDS), false;
      }
      return result, true;
    }
    err := RunIfNeeded(world, b);
    if err {
      return result, true;
    }
    err := RecordObservedGeneration(world, b);
  }

  /** The generation test of the update path. */
  method SpecUnchanged(b: BackupObject) returns (same: bool)
    ensures same <==> b.View().generation == b.View().status.observedGeneration
  {
    hide RunsView, RunView;
    same := b.generation == b.status.observedGeneration;
  }

  /** A missing CronJob is treated as success. */
  method DeleteOldCronJob(world: World, b: BackupObject) returns (err: bool)
    requires world.Valid() && world.state.pc == DeletingCronJob(b.View())
    modifies world
    ensures world.Valid() && world.Extended()
    ensures err ==> world.state.pc == Idle(Errored)
    ensures !err ==> world.state.pc == CreatingCronJob(b.View(), true)
  {
    var failed, notFound := world.DeleteCronJob(b);
    if failed {
      if notFound {
        return false;
      }
      return true;
    }
    return false;
  }

  /** The immediate run, unless one is in progress. */
  method RunIfNeeded(world: World, b: BackupObject) returns (err: bool)
    requires world.Valid() && world.state.pc == ListingRunning(b.View())
    modifies world
    ensures world.Valid() && world.Extended()
    ensures err ==> world.state.pc == Idle(Errored)
    ensures !err ==> world.state.pc == AfterCreate(b.View())
  {
    hide World.Valid, ViewOf;
    var failed, inProgress := HasRunningBackupJob(world, b);
    if failed {
      return true;
    }
    if inProgress {
      return false;
    }
    err := world.CreateManualJob(b);
  }

  method ReconcileJobStatus(world: World, b: BackupObject, requeue: nat) returns (err: bool, ghost conflicted: bool)
    requires world.Valid() && world.state.pc == ListingJobs(b.View(), requeue)
    modifies world, b
    ensures world.Valid() && world.Extended()
    ensures err ==> world.state.pc == Idle(Errored)
    ensures !err ==> world.state.pc == Finished(b.status.View(), requeue, conflicted)
  {
    hide World.Valid, ViewOf, RecordRun, BuildRun, RunView;
    conflicted := false;
    var failed, listed, pod, now := world.ListJobs(b, requeue);
    if failed {
      return true, false;
    }
    var related := FilterRelated(world.name, listed);
    if |related| == 0 {
      return false, false;
    }
    var latest := FindLatest(related);
    var latestJob := latest.value;
    var currentPhase := GetJobPhase(latestJob);
    var seen := SameAsLastRun(b.status, latestJob.name, currentPhase);
    assert seen == AlreadyRecorded(b.status.View(), latestJob);
    if seen {
      return false, false;
    }
    var run := BuildRunStatus(latestJob, pod);
    RecordRunInMemory(b, run, now);
    var rejected, conflict := world.UpdateStatus(b);
    if rejected {
      if conflict {
        return false, true;
      }
      return true, false;
    }
    return false, false;
  }

  /** The early return's test. */
  method SameAsLastRun(status: BackupStatus, jobName: string, phase: Phase) returns (same: bool)
    ensures same <==> status.View().lastRun.Some? && status.View().lastRun.value.jobName == jobName
                      && status.View().lastRun.value.phase == phase
  {
    if status.lastRun != null && status.lastRun.run.jobName == jobName {
      if status.lastRun.run.phase == phase {
        return true;
      }
    }
    return false;
  }

  /** Reconcile. Whatever the environment and the API answers, running it extends the run of the step
      system by one reconcile, from its Get to the next idle state, and what it returns is the outcome
      reached there. */
  method Reconcile(world: World) returns (result: ReconcileResult, err: bool)
    requires world.Valid() && world.state.pc.Idle?
    modifies world
    ensures world.Valid() && world.ExtendedByOne()
    ensures world.state.pc.Idle?
    ensures err ==> world.state.pc.last == Errored
    ensures !err ==> world.state.pc.last.Done? && world.state.pc.last.requeueAfter == result.requeueAfter
  {
    hide World.Valid, ViewOf, Values.Judge;
    result := ReconcileResult(0);
    var getFailed, b, deleting := world.GetBackup();
    if getFailed || b == null || deleting {
      return result, getFailed;
    }
    var checkFailed, found := world.GetCronJob(b);
    if checkFailed {
      return result, true;
    }
    if !found {
      err := HandleBackupCreate(world, b);
    } else {
      result, err := HandleBackupUpdate(world, b);
    }
    if err {
      return result, true;
    }
    var statusFailed, conflicted := ReconcileJobStatus(world, b, result.requeueAfter);
    if statusFailed {
      return ReconcileResult(0), true;
    }
    var shouldRequeue := LastRunUnfinished(b.status);
    if shouldRequeue && result.requeueAfter == 0 {
      result := ReconcileResult(POLL_SECONDS);
    }
    return result, false;
  }

  method LastRunUnfinished(status: BackupStatus) returns (unfinished: bool)
    ensures unfinished <==> status.View().lastRun.Some? && Unfinished(status.View().lastRun.value.phase)
  {
    unfinished := false;
    if status.lastRun != null {
      match status.lastRun.run.phase
      case Running => unfinished := true;
      case Pending => unfinished := true;
      case _ =>
    }
  }
}
