/** With an accepted spec that is no longer edited, reconciles that do not break off bring the CronJob,
    the Secret and observedGeneration to the current generation, and keep them there. The only thing
    that can delay them is a CronJob that is still terminating. */
module Convergence {
  import opened Wrappers
  import opened Jobs
  import opened RunStatus
  import opened Cluster
  import opened Reconciler
  import opened Generations

  /** A step that is no edit, no outside deletion of what the controller maintains, no failed call and
      no error return. Jobs and metadata may change, time passes, and orphan deletion may finish. */
  ghost predicate CalmStep(s: State, step: Step) {
    match step
    case Act(input) => input.reply == Ok && ActOnce(s, input).pc != Idle(Errored)
    case Touch => true
    case AddJob(_) => true
    case SetJob(_) => true
    case RemoveJob(_) => true
    case FinishCronJobDeletion => true
    case Tick(_) => true
    case _ => false
  }

  ghost predicate CalmRun(s: State, steps: seq<Step>)
    requires ValidRun(s, steps)
    decreases |steps|
  {
    steps == [] || (CalmStep(s, steps[0]) && CalmRun(Apply(s, steps[0]), steps[1..]))
  }

  predicate Accepting(s: State) {
    s.objects.life == Alive && Judge(s.objects.backup.spec) == Accepted
  }

  predicate Terminating(s: State) {
    s.objects.cronJob.Some? && s.objects.cronJob.value.terminating
  }

  /** A live CronJob and a recorded generation. By the sandwich, everything between them agrees. */
  predicate Converged(s: State) {
    && s.objects.cronJob.Some? && !s.objects.cronJob.value.terminating
    && s.objects.backup.status.observedGeneration == s.objects.backup.generation
  }

  lemma ConvergedMeansCurrent(s: State)
    requires Inv(s) && TagsMatch(s) && Converged(s)
    ensures s.objects.cronJob.value.builtFrom == s.objects.backup.generation
    ensures BuiltFor(s.objects.cronJob.value.spec, s.objects.backup.spec)
    ensures s.objects.secret.Some? ==>
              && s.objects.secret.value.renderedFrom == s.objects.backup.generation
              && s.objects.secret.value.spec == s.objects.backup.spec
    ensures !s.hist.secretLost ==> s.objects.secret.Some?
  {
    AcceptedIsBuilt(s.objects.backup.spec);
  }

  /** When every call is answered, a reconcile of a live Backup breaks off exactly for a malformed spec or a
      manual Job whose name is taken; and the name of a manual Job is taken by another one only if that was
      made in the same second. In particular the create path never meets an existing CronJob. */
  lemma AnsweredCallsFailOnlyWhen(s: State, input: Input)
    requires Inv(s) && s.objects.life == Alive && input.reply == Ok
    ensures ActOnce(s, input).pc == Idle(Errored) <==>
              || (s.pc.GettingCronJob? && Judge(s.pc.b.spec) == Invalid)
              || (s.pc.StartingManualJob? && ManualJobName(s.name, s.objects.clock) in s.objects.jobs)
    ensures forall t :: ManualJob(s.name, t).name == ManualJobName(s.name, s.objects.clock) ==> t == s.objects.clock
  {
    forall t | ManualJob(s.name, t).name == ManualJobName(s.name, s.objects.clock)
      ensures t == s.objects.clock
    {
      ManualJobNameIff(s.name, t, s.objects.clock);
    }
    hide Judge, ManualJobName, RecordRun, RelatedJobs, LatestJob, AlreadyRecorded, AnyUnfinished;
  }

  /** The calls before the CronJob is created, made for a generation that is no longer current. */
  predicate StaleWork(s: State) {
    && (s.pc.GettingCronJob? || s.pc.WritingSecret? || s.pc.DeletingCronJob? || s.pc.CreatingCronJob?)
    && s.pc.b.generation != s.objects.backup.generation
  }

  /** Calls left until the CronJob exists, when there is none. */
  function RankWithout(s: State): nat {
    var late := if StaleWork(s) then 20 else 0;
    match s.pc
    case CreatingCronJob(_, _) => 4 + late
    case DeletingCronJob(_) => 5 + late
    case WritingSecret(_, _) => 6 + late
    case GettingCronJob(_) => 7 + late
    case Idle(_) => 8
    case UpdatingStatus(_, _, _, _, _) => 9
    case ListingJobs(_, _) => 10
    case RecordingGeneration(_) => 11
    case StartingManualJob(_) => 12
    case ListingRunning(_) => 13
  }

  /** Calls left while the CronJob is live but its generation is not recorded. */
  function RankLive(s: State): nat {
    var stale := !s.pc.Idle? && s.pc.b.generation != s.objects.backup.generation;
    match s.pc
    case RecordingGeneration(_) => if stale then 21 else 1
    case StartingManualJob(_) => if stale then 22 else 2
    case ListingRunning(_) => if stale then 23 else 3
    case CreatingCronJob(_, _) => 15
    case DeletingCronJob(_) => if stale then 29 else 15
    case WritingSecret(_, _) => if stale then 30 else 16
    case GettingCronJob(_) => if stale then 31 else 17
    case Idle(_) => 18
    case UpdatingStatus(_, _, _, _, _) => 19
    case ListingJobs(_, _) => 20
  }

  const MAX_RANK: nat := 31

  /** The measure. It encodes, in lexicographic order: work for an outdated generation, then a live
      outdated CronJob, then a terminating one, then none, and within each the calls left. */
  function Rank(s: State): nat {
    if Converged(s) then 0
    else if Terminating(s) then if StaleWork(s) then 28 else 14
    else if s.objects.cronJob.None? then RankWithout(s)
    else RankLive(s)
  }

  /** What one calm step does to the measure. */
  ghost predicate Closer(s: State, s': State, mustProgress: bool) {
    && Accepting(s')
    && (Converged(s) ==> Converged(s'))
    && Rank(s') <= Rank(s)
    && (mustProgress && !Converged(s) && !Terminating(s) ==> Rank(s') < Rank(s))
  }

  lemma GetBackupIsCloser(s: State, input: Input)
    requires Inv(s) && Accepting(s) && s.pc.Idle? && CalmStep(s, Act(input))
    ensures Closer(s, GetBackup(s, input), true)
  {}

  lemma RouteIsCloser(s: State, verdict: Verdict)
    requires Inv(s) && Accepting(s) && s.pc.GettingCronJob?
    requires s.pc.b.generation == s.objects.backup.generation ==> verdict == Accepted
    requires verdict != Invalid
    ensures Closer(s, Route(s, verdict), true)
  {}

  lemma GetCronJobIsCloser(s: State, input: Input)
    requires Inv(s) && TagsMatch(s) && Accepting(s) && s.pc.GettingCronJob? && CalmStep(s, Act(input))
    ensures Closer(s, GetCronJob(s, input), true)
  {
    RouteIsCloser(s, Judge(s.pc.b.spec));
  }

  lemma WriteSecretIsCloser(s: State, input: Input)
    requires Inv(s) && Accepting(s) && s.pc.WritingSecret? && input.reply == Ok
    ensures Closer(s, WriteSecret(s, input), true)
  {
    hide Judge;
  }

  lemma DeleteCronJobIsCloser(s: State, input: Input)
    requires Inv(s) && Accepting(s) && s.pc.DeletingCronJob? && input.reply == Ok
    ensures Closer(s, DeleteCronJob(s, input), true)
  {
    hide Judge;
  }

  lemma CreateCronJobIsCloser(s: State, input: Input)
    requires Inv(s) && Accepting(s) && s.pc.CreatingCronJob? && CalmStep(s, Act(input))
    ensures Closer(s, CreateCronJob(s, input), true)
  {
    hide Judge;
  }

  lemma ListRunningIsCloser(s: State, input: Input)
    requires Inv(s) && Accepting(s) && s.pc.ListingRunning? && input.reply == Ok
    ensures Closer(s, ListRunning(s, input), true)
  {
    hide Judge, AnyUnfinished;
  }

  lemma LaunchJobIsCloser(s: State, input: Input, job: Job)
    requires Inv(s) && Accepting(s) && s.pc.StartingManualJob?
    requires LaunchJob(s, input, job).pc != Idle(Errored)
    ensures Closer(s, LaunchJob(s, input, job), true)
  {
    hide Judge;
  }

  lemma RecordGenerationIsCloser(s: State, input: Input)
    requires Inv(s) && Accepting(s) && s.pc.RecordingGeneration? && input.reply == Ok
    ensures Closer(s, RecordGeneration(s, input), true)
  {
    hide Judge;
  }

  lemma ListJobsIsCloser(s: State, input: Input)
    requires Inv(s) && Accepting(s) && s.pc.ListingJobs? && input.reply == Ok
    ensures Closer(s, ListJobs(s, input), true)
  {
    hide Judge, RelatedJobs, LatestJob, AlreadyRecorded, BuildRun;
  }

  lemma StoreStatusIsCloser(s: State, input: Input, status: Status)
    requires Inv(s) && Accepting(s) && s.pc.UpdatingStatus? && input.reply == Ok
    requires status.observedGeneration == s.pc.b.status.observedGeneration
    ensures Closer(s, StoreStatus(s, input, status), true)
  {
    hide Judge;
  }

  lemma ActIsCloser(s: State, input: Input)
    requires Inv(s) && TagsMatch(s) && Accepting(s) && CalmStep(s, Act(input))
    ensures Closer(s, ActOnce(s, input), true)
  {
    hide Inv, TagsMatch, Closer, Accepting;
    match s.pc
    case Idle(_) => GetBackupIsCloser(s, input);
    case GettingCronJob(_) => GetCronJobIsCloser(s, input);
    case WritingSecret(_, _) => WriteSecretIsCloser(s, input);
    case DeletingCronJob(_) => DeleteCronJobIsCloser(s, input);
    case CreatingCronJob(_, _) => CreateCronJobIsCloser(s, input);
    case ListingRunning(_) => ListRunningIsCloser(s, input);
    case StartingManualJob(_) => LaunchJobIsCloser(s, input, ManualJob(s.name, s.objects.clock));
    case RecordingGeneration(_) => RecordGenerationIsCloser(s, input);
    case ListingJobs(_, _) => ListJobsIsCloser(s, input);
    case UpdatingStatus(b, run, _, at, _) => StoreStatusIsCloser(s, input, RecordRun(b.status, run, at));
  }

  lemma EnvironmentIsCloser(s: State, step: Step)
    requires Inv(s) && Accepting(s) && CalmStep(s, step) && Enabled(s, step) && !step.Act?
    ensures Closer(s, Apply(s, step), false)
  {
    hide Judge;
  }

  lemma CalmStepIsCloser(s: State, step: Step)
    requires Inv(s) && TagsMatch(s) && Accepting(s) && CalmStep(s, step) && Enabled(s, step)
    ensures Closer(s, Apply(s, step), step.Act?)
  {
    hide Inv, TagsMatch, Closer, Accepting;
    if step.Act? {
      ActIsCloser(s, step.input);
    } else {
      EnvironmentIsCloser(s, step);
    }
  }

  /** The controller's calls in a run. */
  ghost function Calls(steps: seq<Step>): nat {
    if steps == [] then 0 else (if steps[0].Act? then 1 else 0) + Calls(steps[1..])
  }

  /** Those made while the CronJob was terminating. */
  ghost function CallsWhileTerminating(s: State, steps: seq<Step>): nat
    requires ValidRun(s, steps)
    decreases |steps|
  {
    if steps == [] then 0
    else (if steps[0].Act? && Terminating(s) then 1 else 0) + CallsWhileTerminating(Apply(s, steps[0]), steps[1..])
  }

  lemma {:induction false} CalmRunSpendsRank(s: State, steps: seq<Step>)
    requires Inv(s) && TagsMatch(s) && Accepting(s) && ValidRun(s, steps) && CalmRun(s, steps)
    ensures Converged(s) ==> Converged(After(s, steps))
    ensures Converged(After(s, steps)) || Calls(steps) + Rank(After(s, steps)) <= CallsWhileTerminating(s, steps) + Rank(s)
    decreases |steps|
  {
    if steps != [] {
      var s' := Apply(s, steps[0]);
      StepPays(s, steps[0]);
      StepKeepsTags(s, steps[0]);
      CalmStepIsCloser(s, steps[0]);
      hide Inv, TagsMatch, Accepting, Rank, Converged, Terminating;
      CalmRunSpendsRank(s', steps[1..]);
    }
  }

  lemma RankIsBounded(s: State)
    ensures Rank(s) <= MAX_RANK
  {}

  /** Convergence: from any reachable state with an accepted spec, a calm run with more than 31 calls
      besides those made while the CronJob was terminating ends with CronJob, Secret and
      observedGeneration at the current generation. */
  lemma CalmRunsConverge(s: State, past: seq<Step>, steps: seq<Step>)
    requires Init(s) && ValidRun(s, past) && Accepting(After(s, past))
    requires ValidRun(After(s, past), steps) && CalmRun(After(s, past), steps)
    requires Calls(steps) > CallsWhileTerminating(After(s, past), steps) + MAX_RANK
    ensures var o := After(After(s, past), steps).objects;
            && o.cronJob.Some? && !o.cronJob.value.terminating
            && o.backup.status.observedGeneration == o.backup.generation == o.cronJob.value.builtFrom
            && BuiltFor(o.cronJob.value.spec, o.backup.spec)
            && (o.secret.None? <==> After(After(s, past), steps).hist.secretLost)
            && (o.secret.Some? ==>
                  o.secret.value.renderedFrom == o.backup.generation && o.secret.value.spec == o.backup.spec)
  {
    InitInv(s);
    RunKeepsInv(s, past);
    CalmRunSpendsRank(After(s, past), steps);
    RankIsBounded(After(s, past));
    RunKeepsInv(After(s, past), steps);
    ConvergedMeansCurrent(After(After(s, past), steps));
  }

  /** Once converged, a calm run stays converged at every later point. */
  lemma ConvergedStays(s: State, steps: seq<Step>)
    requires Inv(s) && TagsMatch(s) && Accepting(s) && Converged(s)
    requires ValidRun(s, steps) && CalmRun(s, steps)
    ensures Converged(After(s, steps))
  {
    CalmRunSpendsRank(s, steps);
  }

  // ----- A lost Secret -----

  /** The Secret has been written, or will be before the generation is recorded. */
  ghost predicate SecretComes(s: State) {
    s.objects.secret.Some? || (!Converged(s) && !AfterSecret(s.pc))
  }

  lemma ActKeepsSecretComing(s: State, input: Input)
    requires Inv(s) && SecretComes(s)
    ensures SecretComes(ActOnce(s, input))
  {
    hide Judge, ManualJobName, RelatedJobs, LatestJob, AlreadyRecorded, AnyUnfinished, AddToRecentRuns, CountsRun, BuildRun;
  }

  lemma {:induction false} CalmRunKeepsSecretComing(s: State, steps: seq<Step>)
    requires Inv(s) && SecretComes(s) && ValidRun(s, steps) && CalmRun(s, steps)
    ensures SecretComes(After(s, steps))
    decreases |steps|
  {
    if steps != [] {
      StepPays(s, steps[0]);
      if steps[0].Act? {
        ActKeepsSecretComing(s, steps[0].input);
      }
      hide Inv;
      CalmRunKeepsSecretComing(Apply(s, steps[0]), steps[1..]);
    }
  }

  /** Convergence restores the Secret: from an idle state that has not converged, a calm run of enough
      calls ends with the Secret there and rendered from the current spec, even if it was lost before. */
  lemma ConvergenceRestoresSecret(s: State, past: seq<Step>, steps: seq<Step>)
    requires Init(s) && ValidRun(s, past) && Accepting(After(s, past))
    requires After(s, past).pc.Idle? && !Converged(After(s, past))
    requires ValidRun(After(s, past), steps) && CalmRun(After(s, past), steps)
    requires Calls(steps) > CallsWhileTerminating(After(s, past), steps) + MAX_RANK
    ensures var o := After(After(s, past), steps).objects;
            o.secret == Some(ConfigSecret(o.backup.generation, o.backup.spec))
  {
    CalmRunsConverge(s, past, steps);
    InitInv(s);
    RunKeepsInv(s, past);
    CalmRunKeepsSecretComing(After(s, past), steps);
    hide Init, ValidRun, After, CalmRun, Calls, CallsWhileTerminating, Inv, TagsMatch, Accepting;
  }

  /** Neither an edit nor the end of the CronJob. */
  predicate KeepsCronJob(step: Step) {
    !step.Edit? && !step.FinishCronJobDeletion? && !step.DropCronJob?
  }

  ghost predicate KeepsCronJobs(steps: seq<Step>) {
    forall i :: 0 <= i < |steps| ==> KeepsCronJob(steps[i])
  }

  /** The generation is recorded and the CronJob is there, but the Secret it mounts is not. */
  predicate SecretLost(s: State) {
    && s.objects.cronJob.Some? && s.objects.secret.None?
    && s.objects.backup.status.observedGeneration == s.objects.backup.generation
  }

  lemma ActKeepsSecretLost(s: State, input: Input)
    requires Inv(s) && SecretLost(s)
    ensures SecretLost(ActOnce(s, input))
  {
    hide Judge, ManualJobName, RelatedJobs, LatestJob, AlreadyRecorded, AnyUnfinished, AddToRecentRuns, CountsRun, BuildRun;
  }

  /** Nothing repairs a Secret that was deleted once the generation is recorded: it stays away until the
      spec is edited or the CronJob goes, however many reconciles there are. */
  lemma {:induction false} LostSecretStaysLost(s: State, steps: seq<Step>)
    requires Inv(s) && SecretLost(s) && ValidRun(s, steps) && KeepsCronJobs(steps)
    ensures SecretLost(After(s, steps))
    decreases |steps|
  {
    if steps != [] {
      StepPays(s, steps[0]);
      assert KeepsCronJob(steps[0]);
      if steps[0].Act? {
        ActKeepsSecretLost(s, steps[0].input);
      }
      assert KeepsCronJobs(steps[1..]);
      hide Inv;
      LostSecretStaysLost(Apply(s, steps[0]), steps[1..]);
    }
  }
}
