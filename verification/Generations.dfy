/** What every run keeps about generations and about the stored status, whatever the environment,
    the failures and the crashes do. */
module Generations {
  import opened Jobs
  import opened RunStatus
  import opened Cluster
  import opened Reconciler

  ghost predicate IsSpecAt(specs: seq<Spec>, generation: int, spec: Spec) {
    1 <= generation <= |specs| && specs[generation - 1] == spec
  }

  ghost predicate CronJobFrom(specs: seq<Spec>, c: CronJob) {
    && 1 <= c.builtFrom <= |specs|
    && Judge(specs[c.builtFrom - 1]) == Accepted
    && c.spec == BuildCronJobSpec(specs[c.builtFrom - 1])
  }

  /** The calls that lead to a new CronJob are made for an accepted spec only. */
  predicate Building(pc: Pc) {
    pc.WritingSecret? || pc.DeletingCronJob? || pc.CreatingCronJob?
  }

  /** observedGeneration <= the CronJob's generation <= the Secret's generation <= generation. */
  ghost predicate Sandwich(s: State) {
    var o := s.objects;
    && 0 <= o.backup.status.observedGeneration <= o.backup.generation
    && (o.secret.Some? ==> o.secret.value.renderedFrom <= o.backup.generation)
    && (s.hist.secretLost ==> o.secret.None?)
    && (o.cronJob.Some? ==>
          && o.backup.status.observedGeneration <= o.cronJob.value.builtFrom <= o.backup.generation
          && (o.secret.Some? ==> o.cronJob.value.builtFrom <= o.secret.value.renderedFrom)
          && (!s.hist.secretLost ==> o.secret.Some?))
  }

  /** The tags are truthful: each object holds what the spec of its generation says. */
  ghost predicate TagsMatch(s: State) {
    var o := s.objects;
    && o.backup.generation == |s.hist.specs|
    && IsSpecAt(s.hist.specs, o.backup.generation, o.backup.spec)
    && (o.secret.Some? ==> IsSpecAt(s.hist.specs, o.secret.value.renderedFrom, o.secret.value.spec))
    && (o.cronJob.Some? ==> CronJobFrom(s.hist.specs, o.cronJob.value))
    && (!s.pc.Idle? ==> IsSpecAt(s.hist.specs, s.pc.b.generation, s.pc.b.spec))
    && (Building(s.pc) ==> Judge(s.pc.b.spec) == Accepted)
  }

  /** The Secret has been written in this reconcile. */
  predicate AfterSecret(pc: Pc) {
    pc.DeletingCronJob? || pc.CreatingCronJob? || AfterCreation(pc)
  }

  /** The CronJob has been created in this reconcile and the generation is not yet recorded. */
  predicate AfterCreation(pc: Pc) {
    pc.ListingRunning? || pc.StartingManualJob? || pc.RecordingGeneration?
  }

  predicate OnUpdatePath(pc: Pc) {
    || (pc.WritingSecret? && pc.update)
    || pc.DeletingCronJob?
    || (pc.CreatingCronJob? && pc.update)
    || pc.ListingRunning?
    || pc.StartingManualJob?
  }

  /** What the in-memory Backup has to do with the stored one. */
  ghost predicate MemoryFollows(s: State) {
    s.pc.Idle? ||
    var o, b := s.objects, s.pc.b;
    && b.status == o.backup.status
    && b.generation <= o.backup.generation
    && b.status.observedGeneration <= b.generation
    && (o.secret.Some? ==> o.secret.value.renderedFrom <= b.generation)
    && (o.cronJob.Some? ==> o.cronJob.value.builtFrom <= b.generation)
  }

  ghost predicate PcPromises(s: State) {
    var o, pc := s.objects, s.pc;
    && (AfterSecret(pc) ==>
          && (o.secret.Some? ==> o.secret.value.renderedFrom == pc.b.generation)
          && (!s.hist.secretLost ==> o.secret.Some?))
    && (AfterCreation(pc) && o.cronJob.Some? ==> o.cronJob.value.builtFrom == pc.b.generation)
    && (pc.WritingSecret? && !pc.update ==> o.cronJob.None?)
    && (pc.CreatingCronJob? && o.cronJob.Some? ==> pc.update && o.cronJob.value.terminating)
    && (OnUpdatePath(pc) || pc.RecordingGeneration? ==> pc.b.status.observedGeneration < pc.b.generation)
  }

  ghost predicate Inv(s: State) {
    Sandwich(s) && MemoryFollows(s) && PcPromises(s)
  }

  lemma InitInv(s: State)
    requires Init(s)
    ensures Inv(s) && TagsMatch(s)
  {}

  /** The calls that write none of the tagged objects keep them and the in-memory Backup. */
  lemma QuietCallsKeepTagged(s: State, input: Input)
    requires !s.pc.WritingSecret? && !s.pc.DeletingCronJob? && !s.pc.CreatingCronJob?
    requires !s.pc.RecordingGeneration? && !s.pc.UpdatingStatus?
    ensures var s' := ActOnce(s, input);
            && s'.objects.backup == s.objects.backup
            && s'.objects.cronJob == s.objects.cronJob
            && s'.objects.secret == s.objects.secret
            && s'.hist.specs == s.hist.specs
            && (Building(s'.pc) ==> Judge(s'.pc.b.spec) == Accepted)
            && (s'.pc.Idle? || s'.pc.b == if s.pc.Idle? then s.objects.backup else s.pc.b)
  {}

  lemma WriteSecretKeepsTags(s: State, input: Input)
    requires TagsMatch(s) && s.pc.WritingSecret?
    ensures TagsMatch(WriteSecret(s, input))
  {
    hide Judge, BuildCronJobSpec, CronJobFrom, IsSpecAt;
  }

  lemma DeleteCronJobKeepsTags(s: State, input: Input)
    requires TagsMatch(s) && s.pc.DeletingCronJob?
    ensures TagsMatch(DeleteCronJob(s, input))
  {
    hide Judge, BuildCronJobSpec, IsSpecAt;
  }

  lemma CreateCronJobKeepsTags(s: State, input: Input)
    requires TagsMatch(s) && s.pc.CreatingCronJob?
    ensures TagsMatch(CreateCronJob(s, input))
  {
    hide Judge, BuildCronJobSpec;
  }

  lemma RecordGenerationKeepsTags(s: State, input: Input)
    requires TagsMatch(s) && s.pc.RecordingGeneration?
    ensures TagsMatch(RecordGeneration(s, input))
  {
    hide Judge, BuildCronJobSpec, CronJobFrom, IsSpecAt;
  }

  lemma StoreStatusKeepsTags(s: State, input: Input, status: Status)
    requires TagsMatch(s) && s.pc.UpdatingStatus?
    ensures TagsMatch(StoreStatus(s, input, status))
  {
    hide Judge, BuildCronJobSpec, CronJobFrom, IsSpecAt;
  }

  lemma ActKeepsTags(s: State, input: Input)
    requires TagsMatch(s)
    ensures TagsMatch(ActOnce(s, input))
  {
    match s.pc
    case WritingSecret(_, _) => hide TagsMatch; WriteSecretKeepsTags(s, input);
    case DeletingCronJob(_) => hide TagsMatch; DeleteCronJobKeepsTags(s, input);
    case CreatingCronJob(_, _) => hide TagsMatch; CreateCronJobKeepsTags(s, input);
    case RecordingGeneration(_) => hide TagsMatch; RecordGenerationKeepsTags(s, input);
    case UpdatingStatus(b, run, _, at, _) =>
      hide TagsMatch;
      StoreStatusKeepsTags(s, input, RecordRun(b.status, run, at));
    case _ => QuietCallsKeepTagged(s, input);
  }

  lemma StepKeepsTags(s: State, step: Step)
    requires TagsMatch(s) && Enabled(s, step)
    ensures TagsMatch(Apply(s, step))
  {
    hide Judge, BuildCronJobSpec;
    if step.Act? {
      hide TagsMatch, ActOnce;
      ActKeepsTags(s, step.input);
    }
  }

  // ----- Potentials: what pays for a recreation -----

  /** Update-path creations not yet paid for, by an advance of observedGeneration or by a reconcile
      that broke off. The reconcile in flight may still pay for one. */
  function Debt(s: State): int {
    s.hist.updateCreates - s.objects.backup.status.observedGeneration - s.hist.broken
    - if AfterCreation(s.pc) then 1 else 0
  }

  /** Manual Jobs, and the one about to be created, against the creations that allow them. */
  function ManualDebt(s: State): int {
    s.hist.manualJobs + (if s.pc.ListingRunning? || s.pc.StartingManualJob? then 1 else 0) - s.hist.updateCreates
  }

  /** The in-memory Backup is of the stored generation. */
  ghost predicate Fresh(s: State) {
    s.pc.Idle? || s.pc.b.generation == s.objects.backup.generation
  }

  function Owed(s: State): int {
    if s.objects.backup.status.observedGeneration < s.objects.backup.generation then 1 else 0
  }

  function UneditedDebt(s: State): int {
    s.hist.updateCreates + Owed(s) - s.hist.broken - if AfterCreation(s.pc) then 1 else 0
  }

  /** One call of the controller keeps the invariant and pays for what it creates. */
  ghost predicate Pays(s: State, s': State) {
    Inv(s') && Cheaper(s, s')
  }

  ghost predicate Cheaper(s: State, s': State) {
    && Debt(s') <= Debt(s)
    && ManualDebt(s') <= ManualDebt(s)
    && (Fresh(s) ==> Fresh(s') && UneditedDebt(s') <= UneditedDebt(s))
  }

  lemma GetBackupPays(s: State, input: Input)
    requires Inv(s) && s.pc.Idle?
    ensures Pays(s, GetBackup(s, input))
  {}

  lemma WriteSecretKeepsInv(s: State, input: Input)
    requires Inv(s) && s.pc.WritingSecret?
    ensures Inv(WriteSecret(s, input))
  {}

  lemma WriteSecretIsCheaper(s: State, input: Input)
    requires Inv(s) && s.pc.WritingSecret?
    ensures Cheaper(s, WriteSecret(s, input))
  {}

  lemma DeleteCronJobPays(s: State, input: Input)
    requires Inv(s) && s.pc.DeletingCronJob?
    ensures Pays(s, DeleteCronJob(s, input))
  {}

  lemma CreateCronJobKeepsInv(s: State, input: Input)
    requires Inv(s) && s.pc.CreatingCronJob?
    ensures Inv(CreateCronJob(s, input))
  {}

  lemma CreateCronJobIsCheaper(s: State, input: Input)
    requires Inv(s) && s.pc.CreatingCronJob?
    ensures Cheaper(s, CreateCronJob(s, input))
  {}

  lemma ListRunningPays(s: State, input: Input)
    requires Inv(s) && s.pc.ListingRunning?
    ensures Pays(s, ListRunning(s, input))
  {}

  lemma LaunchJobKeepsInv(s: State, input: Input, job: Job)
    requires Inv(s) && s.pc.StartingManualJob?
    ensures Inv(LaunchJob(s, input, job))
  {}

  lemma LaunchJobIsCheaper(s: State, input: Input, job: Job)
    requires Inv(s) && s.pc.StartingManualJob?
    ensures Cheaper(s, LaunchJob(s, input, job))
  {}

  lemma RecordGenerationPays(s: State, input: Input)
    requires Inv(s) && s.pc.RecordingGeneration?
    ensures Pays(s, RecordGeneration(s, input))
  {}

  lemma ListJobsPays(s: State, input: Input)
    requires Inv(s) && s.pc.ListingJobs?
    ensures Pays(s, ListJobs(s, input))
  {}

  lemma RoutePays(s: State, verdict: Verdict)
    requires Inv(s) && s.pc.GettingCronJob?
    ensures Pays(s, Route(s, verdict))
  {}

  lemma StoreStatusKeepsInv(s: State, input: Input, status: Status)
    requires Inv(s) && s.pc.UpdatingStatus?
    requires status.observedGeneration == s.pc.b.status.observedGeneration
    ensures Inv(StoreStatus(s, input, status))
  {}

  lemma StoreStatusIsCheaper(s: State, input: Input, status: Status)
    requires Inv(s) && s.pc.UpdatingStatus?
    requires status.observedGeneration == s.pc.b.status.observedGeneration
    ensures Cheaper(s, StoreStatus(s, input, status))
  {}

  lemma FailPays(s: State)
    requires Inv(s)
    ensures Pays(s, FailReconcile(s))
  {}

  lemma ActPays(s: State, input: Input)
    requires Inv(s)
    ensures Pays(s, ActOnce(s, input))
  {
    hide Inv, Cheaper;
    match s.pc
    case GettingCronJob(b) =>
      RoutePays(s, Judge(b.spec));
      FailPays(s);
    case UpdatingStatus(b, run, _, at, _) =>
      StoreStatusKeepsInv(s, input, RecordRun(b.status, run, at));
      StoreStatusIsCheaper(s, input, RecordRun(b.status, run, at));
    case Idle(_) => GetBackupPays(s, input);
    case WritingSecret(_, _) =>
      WriteSecretKeepsInv(s, input);
      WriteSecretIsCheaper(s, input);
    case DeletingCronJob(_) => DeleteCronJobPays(s, input);
    case CreatingCronJob(_, _) =>
      CreateCronJobKeepsInv(s, input);
      CreateCronJobIsCheaper(s, input);
    case ListingRunning(_) => ListRunningPays(s, input);
    case StartingManualJob(_) =>
      LaunchJobKeepsInv(s, input, ManualJob(s.name, s.objects.clock));
      LaunchJobIsCheaper(s, input, ManualJob(s.name, s.objects.clock));
    case RecordingGeneration(_) => RecordGenerationPays(s, input);
    case ListingJobs(_, _) => ListJobsPays(s, input);
  }

  lemma StepPays(s: State, step: Step)
    requires Inv(s) && Enabled(s, step)
    ensures Inv(Apply(s, step))
    ensures Debt(Apply(s, step)) <= Debt(s) && ManualDebt(Apply(s, step)) <= ManualDebt(s)
    ensures Fresh(s) && !step.Edit? ==> Fresh(Apply(s, step)) && UneditedDebt(Apply(s, step)) <= UneditedDebt(s)
  {
    if step.Act? {
      hide Inv, ActOnce, Debt, ManualDebt, UneditedDebt, Fresh;
      ActPays(s, step.input);
    } else {
      hide Inv, Debt, ManualDebt, UneditedDebt, Fresh;
      OtherStepsKeepInv(s, step);
      OtherStepsPay(s, step);
    }
  }

  lemma OtherStepsKeepInv(s: State, step: Step)
    requires Inv(s) && Enabled(s, step) && !step.Act?
    ensures Inv(Apply(s, step))
  {
    hide Sandwich, MemoryFollows, PcPromises, Apply, Enabled;
    OtherStepsKeepSandwich(s, step);
    OtherStepsKeepMemory(s, step);
    OtherStepsKeepPromises(s, step);
  }

  lemma OtherStepsKeepSandwich(s: State, step: Step)
    requires Sandwich(s) && Enabled(s, step) && !step.Act?
    ensures Sandwich(Apply(s, step))
  {}

  lemma OtherStepsKeepMemory(s: State, step: Step)
    requires MemoryFollows(s) && Enabled(s, step) && !step.Act?
    ensures MemoryFollows(Apply(s, step))
  {}

  lemma OtherStepsKeepPromises(s: State, step: Step)
    requires PcPromises(s) && Enabled(s, step) && !step.Act?
    ensures PcPromises(Apply(s, step))
  {}

  lemma OtherStepsPay(s: State, step: Step)
    requires Inv(s) && Enabled(s, step) && !step.Act?
    ensures Debt(Apply(s, step)) <= Debt(s) && ManualDebt(Apply(s, step)) <= ManualDebt(s)
    ensures Fresh(s) && !step.Edit? ==> Fresh(Apply(s, step)) && UneditedDebt(Apply(s, step)) <= UneditedDebt(s)
  {
    hide Sandwich, PcPromises;
  }

  lemma {:induction false} RunKeepsInv(s: State, steps: seq<Step>)
    requires Inv(s) && TagsMatch(s) && ValidRun(s, steps)
    ensures Inv(After(s, steps)) && TagsMatch(After(s, steps))
    decreases |steps|
  {
    if steps != [] {
      StepPays(s, steps[0]);
      StepKeepsTags(s, steps[0]);
      RunKeepsInv(Apply(s, steps[0]), steps[1..]);
    }
  }

  /** The generation sandwich holds at the end of every run. */
  lemma GenerationSandwich(s: State, steps: seq<Step>)
    requires Init(s) && ValidRun(s, steps)
    ensures Sandwich(After(s, steps))
  {
    InitInv(s);
    RunKeepsInv(s, steps);
  }

  /** Once observedGeneration has caught up and the CronJob is there, the CronJob was built from the
      current spec, and so was the Secret it mounts. */
  lemma ObservedMeansCurrent(s: State, steps: seq<Step>)
    requires Init(s) && ValidRun(s, steps)
    ensures var o := After(s, steps).objects;
            o.cronJob.Some? && o.backup.status.observedGeneration == o.backup.generation ==>
              && BuiltFor(o.cronJob.value.spec, o.backup.spec)
              && (o.secret.Some? ==> o.secret.value.spec == o.backup.spec)
              && (!After(s, steps).hist.secretLost ==> o.secret.Some?)
  {
    InitInv(s);
    RunKeepsInv(s, steps);
    var o := After(s, steps).objects;
    hide Judge, BuildCronJobSpec, BuiltFor, Init, ValidRun, After;
    if o.cronJob.Some? && o.backup.status.observedGeneration == o.backup.generation {
      assert o.cronJob.value.spec == BuildCronJobSpec(o.backup.spec) && Judge(o.backup.spec) == Accepted;
      AcceptedIsBuilt(o.backup.spec);
    }
  }

  // ----- No lost status updates -----

  /** How one step may change the stored status: not at all; only observedGeneration, upwards (the
      unguarded merge patch); or by recording one run on top of exactly what was stored (the guarded
      full update). */
  ghost predicate StatusChange(s: State, s': State) {
    var old', new', log, log' := s.objects.backup.status, s'.objects.backup.status, s.hist.log, s'.hist.log;
    || (new' == old' && log' == log)
    || (&& log' == log
        && new' == old'.(observedGeneration := new'.observedGeneration)
        && old'.observedGeneration < new'.observedGeneration)
    || (&& |log'| == |log| + 1 && log' == log + [log'[|log|]]
        && new' == RecordRun(old', log'[|log|].run, log'[|log|].at))
  }

  lemma OtherCallsKeepStatus(s: State, input: Input)
    requires !s.pc.RecordingGeneration? && !s.pc.UpdatingStatus?
    ensures ActOnce(s, input).objects.backup == s.objects.backup
    ensures ActOnce(s, input).hist.log == s.hist.log
  {}

  lemma RecordGenerationChangesStatus(s: State, input: Input)
    requires Inv(s) && s.pc.RecordingGeneration?
    ensures StatusChange(s, RecordGeneration(s, input))
  {}

  lemma StoreStatusChangesStatus(s: State, input: Input)
    requires Inv(s) && s.pc.UpdatingStatus?
    ensures StatusChange(s, StoreStatus(s, input, RecordRun(s.pc.b.status, s.pc.run, s.pc.at)))
  {
    hide RecordRun, Sandwich, PcPromises;
  }

  lemma ActChangesStatus(s: State, input: Input)
    requires Inv(s)
    ensures StatusChange(s, ActOnce(s, input))
  {
    hide Inv;
    if s.pc.RecordingGeneration? {
      hide StatusChange;
      RecordGenerationChangesStatus(s, input);
    } else if s.pc.UpdatingStatus? {
      hide StatusChange;
      StoreStatusChangesStatus(s, input);
    } else {
      OtherCallsKeepStatus(s, input);
      hide ActOnce;
    }
  }

  lemma StepChangesStatus(s: State, step: Step)
    requires Inv(s) && Enabled(s, step)
    ensures StatusChange(s, Apply(s, step))
  {
    if step.Act? {
      hide Inv, StatusChange, ActOnce;
      ActChangesStatus(s, step.input);
    }
  }

  /** A conflicted update changes no object, and the log does not grow. */
  lemma ConflictChangesNothing(s: State, input: Input)
    requires s.pc.UpdatingStatus? && s.pc.b.resourceVersion != s.objects.backup.resourceVersion
    ensures ActOnce(s, input).objects == s.objects
    ensures ActOnce(s, input).hist.log == s.hist.log
  {}

  /** The stored observedGeneration never goes down and no recorded run is ever lost. */
  lemma {:induction false} StoredStatusOnlyGrows(s: State, steps: seq<Step>)
    requires Inv(s) && ValidRun(s, steps)
    ensures s.objects.backup.status.observedGeneration <= After(s, steps).objects.backup.status.observedGeneration
    ensures s.hist.log <= After(s, steps).hist.log
    decreases |steps|
  {
    if steps != [] {
      StepPays(s, steps[0]);
      StepChangesStatus(s, steps[0]);
      StoredStatusOnlyGrows(Apply(s, steps[0]), steps[1..]);
    }
  }

  /** The Backup is as it was, or has a later version. */
  ghost predicate LaterVersion(s: State, s': State) {
    s'.objects.backup == s.objects.backup || s'.objects.backup.resourceVersion > s.objects.backup.resourceVersion
  }

  lemma ActRaisesVersion(s: State, input: Input)
    ensures LaterVersion(s, ActOnce(s, input))
  {
    if s.pc.RecordingGeneration? || s.pc.UpdatingStatus? {
      hide RecordRun;
    } else {
      OtherCallsKeepStatus(s, input);
      hide ActOnce;
    }
  }

  /** Over every stretch of a run the version identifies the Backup: no write, by whomever, leaves it. */
  lemma {:induction false} VersionIdentifies(s: State, steps: seq<Step>)
    requires ValidRun(s, steps)
    ensures LaterVersion(s, After(s, steps))
    decreases |steps|
  {
    if steps != [] {
      if steps[0].Act? {
        ActRaisesVersion(s, steps[0].input);
      }
      VersionIdentifies(Apply(s, steps[0]), steps[1..]);
      hide ActOnce;
    }
  }

  /** The version tells whether the Backup was written since it was read. */
  ghost predicate VersionGuards(s: State) {
    s.pc.Idle? ||
    var b, stored := s.pc.b, s.objects.backup;
    b.resourceVersion <= stored.resourceVersion && (b.resourceVersion == stored.resourceVersion ==> b == stored)
  }

  lemma ActKeepsVersionGuard(s: State, input: Input)
    requires VersionGuards(s)
    ensures VersionGuards(ActOnce(s, input))
  {
    if s.pc.WritingSecret? || s.pc.DeletingCronJob? || s.pc.CreatingCronJob? || s.pc.RecordingGeneration?
       || s.pc.UpdatingStatus?
    {
      hide RecordRun, BuildCronJobSpec;
    } else {
      hide ActOnce;
      QuietCallsKeepTagged(s, input);
    }
  }

  lemma StepKeepsVersionGuard(s: State, step: Step)
    requires VersionGuards(s) && Enabled(s, step)
    ensures VersionGuards(Apply(s, step))
  {
    if step.Act? {
      hide ActOnce, VersionGuards;
      ActKeepsVersionGuard(s, step.input);
    }
  }

  /** Over every run an unchanged version means an unchanged Backup, so a full update that is accepted
      overwrites nothing but what was read. */
  lemma {:induction false} RunKeepsVersionGuard(s: State, steps: seq<Step>)
    requires VersionGuards(s) && ValidRun(s, steps)
    ensures VersionGuards(After(s, steps))
    decreases |steps|
  {
    if steps != [] {
      StepKeepsVersionGuard(s, steps[0]);
      hide VersionGuards;
      RunKeepsVersionGuard(Apply(s, steps[0]), steps[1..]);
    }
  }

  // ----- Amortised bound on recreations -----

  lemma {:induction false} RunPaysDebt(s: State, steps: seq<Step>)
    requires Inv(s) && ValidRun(s, steps)
    ensures Debt(After(s, steps)) <= Debt(s)
    ensures ManualDebt(After(s, steps)) <= ManualDebt(s)
    decreases |steps|
  {
    if steps != [] {
      StepPays(s, steps[0]);
      RunPaysDebt(Apply(s, steps[0]), steps[1..]);
    }
  }

  /** Over any stretch of a run between two idle states, the CronJob is recreated no more often than
      observedGeneration advances and reconciles break off, and each immediate run has its own
      recreation. */
  lemma RecreationsAreAmortised(s: State, steps: seq<Step>)
    requires Inv(s) && ValidRun(s, steps) && s.pc.Idle? && After(s, steps).pc.Idle?
    ensures var s' := After(s, steps);
            && s'.hist.updateCreates - s.hist.updateCreates
               <= (s'.objects.backup.status.observedGeneration - s.objects.backup.status.observedGeneration)
                  + (s'.hist.broken - s.hist.broken)
            && s'.hist.manualJobs - s.hist.manualJobs <= s'.hist.updateCreates - s.hist.updateCreates
  {
    RunPaysDebt(s, steps);
  }

  // ----- Without edits: at most one recreation -----

  ghost predicate NoEdits(steps: seq<Step>) {
    forall i :: 0 <= i < |steps| ==> !steps[i].Edit?
  }

  lemma {:induction false} UneditedRun(s: State, steps: seq<Step>)
    requires Inv(s) && Fresh(s) && ValidRun(s, steps) && NoEdits(steps)
    ensures UneditedDebt(After(s, steps)) <= UneditedDebt(s)
    decreases |steps|
  {
    if steps != [] {
      StepPays(s, steps[0]);
      UneditedRun(Apply(s, steps[0]), steps[1..]);
    }
  }

  /** No endless delete/recreate loop: while the spec is not edited, reconciles that do not break off
      recreate the CronJob at most once, and not at all once the generation has been recorded. */
  lemma NoRecreateLoop(s: State, steps: seq<Step>)
    requires Inv(s) && ValidRun(s, steps) && NoEdits(steps) && s.pc.Idle? && After(s, steps).pc.Idle?
    ensures var s' := After(s, steps);
            s'.hist.updateCreates - s.hist.updateCreates <= Owed(s) + (s'.hist.broken - s.hist.broken)
  {
    UneditedRun(s, steps);
  }
}
