/** Immediate runs and runs already in progress. Whether a run is in progress is a fact about its Job's
    Pods and conditions; the controller asks for the Job's phase instead, in one API call, and creates the
    manual Job in another. Both the phase and the gap between the calls can let a second run through. */
module Stacking {
  import opened Jobs
  import opened RunStatus
  import opened Cluster
  import opened Reconciler
  import opened Scenarios

  predicate InProgress(name: string, job: Job) {
    RelatedTo(name, job.name) && HasWork(job)
  }

  ghost predicate NoneInProgress(name: string, jobs: map<string, Job>) {
    forall n :: n in jobs ==> !InProgress(name, jobs[n])
  }

  /** Something related is in progress, and whatever is has had a Pod end. */
  ghost predicate AllMasked(name: string, jobs: map<string, Job>) {
    && !NoneInProgress(name, jobs)
    && forall n :: n in jobs && InProgress(name, jobs[n]) ==> Masked(jobs[n])
  }

  ghost predicate SomePhantom(name: string, jobs: map<string, Job>) {
    exists n :: n in jobs && RelatedTo(name, jobs[n].name) && Phantom(jobs[n])
  }

  // ----- The check -----

  /** When the check of hasRunningBackupJob is wrong. It misses runs exactly when all runs in progress are
      masked and there is no phantom, and it reports a run that is not there exactly when nothing is in
      progress and there is a phantom. */
  lemma CheckIsWrongIff(name: string, jobs: map<string, Job>, listed: seq<Job>)
    requires Lists(listed, jobs)
    ensures !AnyUnfinished(name, listed) && !NoneInProgress(name, jobs) <==>
            AllMasked(name, jobs) && !SomePhantom(name, jobs)
    ensures AnyUnfinished(name, listed) && NoneInProgress(name, jobs) <==>
            NoneInProgress(name, jobs) && SomePhantom(name, jobs)
  {
    hide RelatedTo, Unfinished, GetJobPhase, HasWork, PodEnded;
    forall n | n in jobs
      ensures jobs[n] in listed
      ensures Unfinished(GetJobPhase(jobs[n])) <==> (HasWork(jobs[n]) && !Masked(jobs[n])) || Phantom(jobs[n])
    {
      PhaseShowsWorkIff(jobs[n]);
    }
    if AnyUnfinished(name, listed) {
      var j :| j in listed && RelatedTo(name, j.name) && Unfinished(GetJobPhase(j));
      assert j.name in jobs && jobs[j.name] == j;
    }
  }

  // ----- From the check to the creation -----

  /** Nothing related is in progress when the manual Job is about to be created. */
  ghost predicate ClearToStart(s: State) {
    s.pc.StartingManualJob? ==> NoneInProgress(s.name, s.objects.jobs)
  }

  /** A related Job is added, or is in progress again after it was over, between the check and the creation. */
  predicate Races(s: State, step: Step) {
    s.pc.StartingManualJob? &&
    match step
    case AddJob(job) => InProgress(s.name, job)
    case SetJob(job) => InProgress(s.name, job)
    case _ => false
  }

  /** The check is made while all runs in progress are masked and no phantom stands in for them. */
  ghost predicate Overlooks(s: State, step: Step) {
    && s.pc.ListingRunning? && step.Act? && step.input.reply == Ok
    && AllMasked(s.name, s.objects.jobs) && !SomePhantom(s.name, s.objects.jobs)
  }

  ghost predicate SafeRun(s: State, steps: seq<Step>)
    requires ValidRun(s, steps)
    decreases |steps|
  {
    steps == [] || (!Races(s, steps[0]) && !Overlooks(s, steps[0]) && SafeRun(Apply(s, steps[0]), steps[1..]))
  }

  lemma CheckClearsIff(s: State, input: Input)
    requires s.pc.ListingRunning? && Lists(input.listed, s.objects.jobs)
    ensures ClearToStart(ListRunning(s, input)) <==> !Overlooks(s, Act(input))
  {
    hide AnyUnfinished, NoneInProgress, AllMasked, SomePhantom;
    CheckIsWrongIff(s.name, s.objects.jobs, input.listed);
  }

  /** Only the check leads to the creation, and no other call stays there. */
  lemma OnlyCheckStarts(s: State, input: Input)
    requires !s.pc.ListingRunning?
    ensures !ActOnce(s, input).pc.StartingManualJob?
  {
    hide Judge, RelatedJobs, LatestJob, ManualJobName;
  }

  lemma SetJobsClearIff(s: State, s': State, job: Job)
    requires s.pc.StartingManualJob? && NoneInProgress(s.name, s.objects.jobs) && s'.pc == s.pc && s'.name == s.name
    requires s'.objects.jobs == s.objects.jobs[job.name := job]
    ensures ClearToStart(s') <==> !InProgress(s.name, job)
  {
    hide InProgress;
    assert s'.objects.jobs[job.name] == job;
  }

  /** Exactly which steps let a second run through. */
  lemma StepStaysClearIff(s: State, step: Step)
    requires ClearToStart(s) && Enabled(s, step)
    ensures ClearToStart(Apply(s, step)) <==> !Races(s, step) && !Overlooks(s, step)
  {
    match step
    case Act(input) =>
      hide ActOnce, ClearToStart, Overlooks;
      if s.pc.ListingRunning? {
        CheckClearsIff(s, input);
        assert ActOnce(s, input) == ListRunning(s, input) by { ActsByListing(s, input); }
      } else {
        OnlyCheckStarts(s, input);
        NotStartingIsClear(ActOnce(s, input));
        NotListingOverlooksNothing(s, step);
      }
    case AddJob(job) =>
      hide RelatedTo, InProgress;
      if s.pc.StartingManualJob? { SetJobsClearIff(s, WithJob(s, job), job); }
    case SetJob(job) =>
      hide RelatedTo, InProgress;
      if s.pc.StartingManualJob? { SetJobsClearIff(s, Apply(s, step), job); }
    case _ =>
  }

  lemma ActsByListing(s: State, input: Input)
    requires s.pc.ListingRunning?
    ensures ActOnce(s, input) == ListRunning(s, input)
  {}

  lemma NotStartingIsClear(s: State)
    requires !s.pc.StartingManualJob?
    ensures ClearToStart(s)
  {}

  lemma NotListingOverlooksNothing(s: State, step: Step)
    requires !s.pc.ListingRunning?
    ensures !Overlooks(s, step)
  {}

  lemma {:induction false} SafeRunStaysClear(s: State, steps: seq<Step>)
    requires ClearToStart(s) && ValidRun(s, steps) && SafeRun(s, steps)
    ensures ClearToStart(After(s, steps))
    decreases |steps|
  {
    if steps != [] {
      StepStaysClearIff(s, steps[0]);
      hide ClearToStart, Races, Overlooks;
      SafeRunStaysClear(Apply(s, steps[0]), steps[1..]);
    }
  }

  // ----- Stacked runs -----

  /** The manual Job and another related Job are both in progress. */
  ghost predicate Stacked(s: State, manual: string) {
    && manual in s.objects.jobs && InProgress(s.name, s.objects.jobs[manual])
    && exists n :: n in s.objects.jobs && n != manual && InProgress(s.name, s.objects.jobs[n])
  }

  /** A create call stacks the new Job on another exactly when it takes effect while something related
      is in progress. */
  lemma StacksIff(s: State, input: Input)
    requires s.pc.StartingManualJob? && ManualJobName(s.name, s.objects.clock) !in s.objects.jobs
    ensures Stacked(ActOnce(s, input), ManualJobName(s.name, s.objects.clock)) <==>
            input.reply != Fail && !NoneInProgress(s.name, s.objects.jobs)
  {
    ManualJobIsRelated(s.name, s.objects.clock);
    var manual := ManualJob(s.name, s.objects.clock);
    assert manual.name == ManualJobName(s.name, s.objects.clock) && InProgress(s.name, manual);
    hide ManualJob, ManualJobName, InProgress, RelatedTo;
    var s' := LaunchJob(s, input, manual);
    if input.reply != Fail {
      assert s'.objects.jobs == s.objects.jobs[manual.name := manual];
      assert forall n :: n in s.objects.jobs ==> n != manual.name && s'.objects.jobs[n] == s.objects.jobs[n];
    } else {
      assert manual.name !in s'.objects.jobs;
    }
  }

  /** Runs do not stack: at the end of every run in which the check overlooked no masked Job and no race
      took place, the create call leaves no other related Job in progress beside the new one. */
  lemma RunsDoNotStack(s: State, steps: seq<Step>, input: Input)
    requires Init(s) && ValidRun(s, steps) && SafeRun(s, steps) && After(s, steps).pc.StartingManualJob?
    ensures var s' := After(s, steps);
            !Stacked(ActOnce(s', input), ManualJobName(s'.name, s'.objects.clock))
  {
    SafeRunStaysClear(s, steps);
    var s' := After(s, steps);
    var manual := ManualJobName(s'.name, s'.objects.clock);
    if manual in s'.objects.jobs {
      hide InProgress, ManualJobName, After, ValidRun, SafeRun;
      assert ActOnce(s', input).objects.jobs == s'.objects.jobs && ActOnce(s', input).name == s'.name;
    } else {
      StacksIff(s', input);
    }
  }

  // ----- A run that stacks -----

  /** After an accepted edit, a reconcile can reach the check with the Jobs as they were. */
  lemma EditReachesCheck(s: State) returns (steps: seq<Step>)
    requires s.pc.Idle? && s.objects.life == Alive && Judge(s.objects.backup.spec) == Accepted
    requires s.objects.cronJob.Some? && s.objects.backup.status.observedGeneration != s.objects.backup.generation
    ensures ValidRun(s, steps) && After(s, steps).pc.ListingRunning? && SameScene(s, After(s, steps))
  {
    hide Judge, ValidRun, After;
    steps := [];
    NoStepsRun(s);
    steps := Answer(s, steps);
    steps := Answer(s, steps);
    steps := Answer(s, steps);
    steps := Answer(s, steps);
    RunExtends(s, steps, FinishCronJobDeletion);
    steps := steps + [FinishCronJobDeletion];
    steps := Answer(s, steps);
  }

  /** Runs do stack. For every new Backup with a masked related Job, such as one whose first Pod failed
      and whose retry runs, and every accepted edit, there is a run without races in which the immediate
      run is started next to that Job: the Jobs at the end are those at the start and the manual one. */
  lemma MaskedRunIsStacked(s: State, edited: Spec, listed: seq<Job>) returns (steps: seq<Step>)
    requires Init(s) && Judge(s.objects.backup.spec) == Accepted
    requires edited != s.objects.backup.spec && Judge(edited) == Accepted
    requires Lists(listed, s.objects.jobs) && AllMasked(s.name, s.objects.jobs) && !SomePhantom(s.name, s.objects.jobs)
    requires ManualJobName(s.name, s.objects.clock) !in s.objects.jobs
    ensures var manual := ManualJob(s.name, s.objects.clock);
            && ValidRun(s, steps)
            && Stacked(After(s, steps), manual.name)
            && After(s, steps).objects.jobs == s.objects.jobs[manual.name := manual]
  {
    var manual := ManualJob(s.name, s.objects.clock);
    assert manual.name == ManualJobName(s.name, s.objects.clock);
    hide Judge, Init, InProgress, ManualJob, ManualJobName, AnyUnfinished, Lists, NoneInProgress, AllMasked, SomePhantom,
         After, ValidRun, SameScene, ActOnce, Stacked;
    CheckIsWrongIff(s.name, s.objects.jobs, listed);
    steps := CheckPasses(s, edited, listed);
    SceneStays(s, After(s, steps));
    AnswerCreates(After(s, steps), manual);
    StacksIff(After(s, steps), ANSWERED);
    steps := Answer(s, steps);
  }

  lemma SceneStays(s: State, s': State)
    requires SameScene(s, s')
    ensures s'.name == s.name && s'.objects.jobs == s.objects.jobs && s'.objects.clock == s.objects.clock
  {}

  /** With a list in which no Job shows an unfinished phase, a new Backup and an accepted edit can get as far
      as the create call, with the Jobs as they were. */
  lemma CheckPasses(s: State, edited: Spec, listed: seq<Job>) returns (steps: seq<Step>)
    requires Init(s) && Judge(s.objects.backup.spec) == Accepted
    requires edited != s.objects.backup.spec && Judge(edited) == Accepted
    requires Lists(listed, s.objects.jobs) && !AnyUnfinished(s.name, listed)
    ensures ValidRun(s, steps) && After(s, steps).pc.StartingManualJob? && SameScene(s, After(s, steps))
  {
    hide Judge, Init, AnyUnfinished, Lists, After, ValidRun;
    var created := CreationIsRecorded(s);
    RunExtends(s, created, Edit(edited));
    created := created + [Edit(edited)];
    var checking := EditReachesCheck(After(s, created));
    RunsCompose(s, created, checking);
    steps := created + checking;
    var check := Act(Input(Ok, listed, NoClientset));
    RunExtends(s, steps, check);
    steps := steps + [check];
  }

  lemma AnswerCreates(s: State, manual: Job)
    requires s.pc.StartingManualJob? && manual == ManualJob(s.name, s.objects.clock)
    requires manual.name !in s.objects.jobs
    ensures ActOnce(s, ANSWERED).objects.jobs == s.objects.jobs[manual.name := manual]
  {}
}
