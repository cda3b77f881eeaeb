/** One reconcile that runs to its end with every call answered and nothing interfering, except that
    orphan deletion may finish right after the Delete call. What it writes, when writing stops, and when it
    starts an immediate run. */
module OneReconcile {
  import opened Wrappers
  import opened Jobs
  import opened RunStatus
  import opened Cluster
  import opened Reconciler
  import opened Convergence

  /** What the reconcile sees: the lists returned by its two List calls, the Pod's log, and whether the
      old CronJob is already gone when the new one is created. */
  datatype View = View(running: seq<Job>, listed: seq<Job>, pod: PodLogs, orphaned: bool)

  function InputFor(s: State, view: View): Input {
    Input(Ok, if s.pc.ListingRunning? then view.running else view.listed, view.pod)
  }

  function Advance(s: State, view: View): State {
    var s' := ActOnce(s, InputFor(s, view));
    if s.pc.DeletingCronJob? && view.orphaned then s'.(objects := s'.objects.(cronJob := None)) else s'
  }

  function CallsLeft(pc: Pc): nat {
    match pc
    case Idle(_) => 0
    case UpdatingStatus(_, _, _, _, _) => 1
    case ListingJobs(_, _) => 2
    case RecordingGeneration(_) => 3
    case StartingManualJob(_) => 4
    case ListingRunning(_) => 5
    case CreatingCronJob(_, _) => 6
    case DeletingCronJob(_) => 7
    case WritingSecret(_, _) => 8
    case GettingCronJob(_) => 9
  }

  function Continue(s: State, view: View): (r: State)
    ensures r.pc.Idle?
    decreases CallsLeft(s.pc)
  {
    if s.pc.Idle? then s
    else
      CallsRunOut(s, view);
      Continue(Advance(s, view), view)
  }

  lemma CallsRunOut(s: State, view: View)
    requires !s.pc.Idle?
    ensures CallsLeft(Advance(s, view).pc) < CallsLeft(s.pc)
  {
    hide Judge, RecordRun, RelatedJobs, LatestJob, AlreadyRecorded, AnyUnfinished, BuildRun, ManualJobName;
  }

  function ReconcileOnce(s: State, view: View): (r: State)
    requires s.pc.Idle?
    ensures r.pc.Idle?
  {
    Continue(Advance(s, view), view)
  }

  // ----- It is a run of the machine -----

  ghost function StepsFrom(s: State, view: View): seq<Step>
    decreases CallsLeft(s.pc)
  {
    if s.pc.Idle? then []
    else
      CallsRunOut(s, view);
      StepsOf(s, view) + StepsFrom(Advance(s, view), view)
  }

  ghost function StepsOf(s: State, view: View): seq<Step> {
    [Act(InputFor(s, view))]
    + if s.pc.DeletingCronJob? && view.orphaned && s.objects.cronJob.Some? then [FinishCronJobDeletion] else []
  }

  /** Both lists are taken from the Jobs there are when the call is made. */
  ghost predicate SeesJobs(s: State, view: View) {
    && (s.pc.ListingRunning? ==> Lists(view.running, s.objects.jobs))
    && (s.pc.ListingJobs? ==> Lists(view.listed, s.objects.jobs))
  }

  ghost predicate SeesJobsThroughout(s: State, view: View)
    decreases CallsLeft(s.pc)
  {
    s.pc.Idle? || (
      CallsRunOut(s, view);
      SeesJobs(s, view) && SeesJobsThroughout(Advance(s, view), view))
  }

  lemma AdvanceIsSteps(s: State, view: View)
    requires SeesJobs(s, view)
    ensures ValidRun(s, StepsOf(s, view)) && After(s, StepsOf(s, view)) == Advance(s, view)
  {
    var steps := StepsOf(s, view);
    var s1 := Apply(s, steps[0]);
    assert s1 == ActOnce(s, InputFor(s, view));
    if |steps| == 2 {
      assert steps[1..] == [FinishCronJobDeletion];
      assert s1.objects.cronJob.Some? && s1.objects.cronJob.value.terminating;
      assert ValidRun(Apply(s1, steps[1]), steps[1..][1..]);
      assert After(s1, steps[1..]) == Apply(s1, FinishCronJobDeletion);
    } else {
      assert steps[1..] == [];
    }
  }

  /** An uninterrupted reconcile is a valid run, so everything proved of runs holds of it. */
  lemma {:induction false} ContinueIsRun(s: State, view: View)
    requires SeesJobsThroughout(s, view)
    ensures ValidRun(s, StepsFrom(s, view)) && After(s, StepsFrom(s, view)) == Continue(s, view)
    decreases CallsLeft(s.pc)
  {
    if !s.pc.Idle? {
      CallsRunOut(s, view);
      AdvanceIsSteps(s, view);
      ContinueIsRun(Advance(s, view), view);
      RunsCompose(s, StepsOf(s, view), StepsFrom(Advance(s, view), view));
    }
  }

  // ----- What it leaves behind -----

  /** The in-memory Backup is the stored one. */
  predicate InSync(s: State) {
    s.objects.life == Alive && (s.pc.Idle? || s.pc.b == s.objects.backup)
  }

  /** The stored status shows the latest related Job with the phase it has. */
  predicate UpToDate(name: string, status: Status, listed: seq<Job>) {
    var related := RelatedJobs(name, listed);
    related == [] || AlreadyRecorded(status, LatestJob(related))
  }

  function StatusOf(s: State): Status {
    s.objects.backup.status
  }

  predicate SameExceptStatus(o: Objects, o': Objects) {
    o' == o.(backup := o.backup.(status := o'.backup.status, resourceVersion := o'.backup.resourceVersion))
    && o'.backup.status.observedGeneration == o.backup.status.observedGeneration
  }

  /** How a reconcile ends once it reaches the status part: no error, no conflict, an up-to-date status,
      and a positive requeue time while the recorded run is unfinished. */
  ghost predicate Settles(s: State, s': State, view: View, requeue: nat) {
    && s'.pc.Idle? && s'.pc.last.Done? && !s'.pc.last.conflicted
    && (requeue != 0 ==> s'.pc.last.requeueAfter == requeue)
    && (requeue == 0 ==> s'.pc.last.requeueAfter == if Polls(StatusOf(s')) then POLL_SECONDS else 0)
    && UpToDate(s.name, StatusOf(s'), view.listed)
    && s'.name == s.name
    && s'.hist.manualJobs == s.hist.manualJobs && s'.hist.updateCreates == s.hist.updateCreates
    && s'.hist.writes >= s.hist.writes
  }

  lemma RecordedIsUpToDate(status: Status, job: Job, pod: PodLogs, now: int)
    ensures AlreadyRecorded(RecordRun(status, BuildRun(job, pod), now), job)
  {}

  /** The status part: it writes exactly when the status is not up to date, and touches nothing else. */
  lemma StatusPartSettles(s: State, view: View)
    requires InSync(s) && s.pc.ListingJobs?
    ensures var s' := Continue(s, view);
            && Settles(s, s', view, s.pc.requeue)
            && SameExceptStatus(s.objects, s'.objects)
            && (s'.hist.writes == s.hist.writes <==> UpToDate(s.name, StatusOf(s), view.listed))
            && (UpToDate(s.name, StatusOf(s), view.listed) ==> s'.objects == s.objects)
  {
    hide RelatedJobs, LatestJob, RelatedTo;
    var related := RelatedJobs(s.name, view.listed);
    var s1 := Advance(s, view);
    assert Continue(s, view) == Continue(s1, view);
    if !UpToDate(s.name, StatusOf(s), view.listed) {
      var job := LatestJob(related);
      RecordedIsUpToDate(s.pc.b.status, job, view.pod, s.objects.clock);
      var s2 := Advance(s1, view);
      hide AlreadyRecorded, BuildRun, RecordRun;
      RecordKeepsObserved(s.pc.b.status, BuildRun(job, view.pod), s.objects.clock);
      assert s1.pc == UpdatingStatus(s.pc.b, BuildRun(job, view.pod), job.created, s.objects.clock, s.pc.requeue);
      assert s2.pc.Idle?;
      assert Continue(s1, view) == Continue(s2, view) == s2;
    }
  }

  lemma RecordKeepsObserved(status: Status, run: Run, now: int)
    ensures RecordRun(status, run, now).observedGeneration == status.observedGeneration
  {}

  /** The generation is recorded and the CronJob that was there stays. */
  predicate Recorded(s: State, s': State) {
    && s'.objects.cronJob == s.objects.cronJob
    && s'.objects.backup.generation == s.objects.backup.generation
    && s'.objects.backup.spec == s.objects.backup.spec
    && s'.objects.life == s.objects.life
    && StatusOf(s').observedGeneration == s'.objects.backup.generation
  }

  lemma RecordingSettles(s: State, view: View)
    requires InSync(s)
    requires s.pc.RecordingGeneration? || (s.pc == ListingJobs(s.objects.backup, 0)
                                           && StatusOf(s).observedGeneration == s.objects.backup.generation)
    ensures Settles(s, Continue(s, view), view, 0) && Recorded(s, Continue(s, view))
  {
    if s.pc.RecordingGeneration? {
      var s1 := Advance(s, view);
      assert Continue(s, view) == Continue(s1, view);
      StatusPartSettles(s1, view);
    } else {
      StatusPartSettles(s, view);
    }
  }

  /** Right after the update path created the CronJob: an immediate run starts exactly when nothing
      related is unfinished, and the only way to break off is a name taken within the same second. */
  lemma RunDecision(s: State, view: View)
    requires InSync(s) && s.pc.ListingRunning? && StatusOf(s).observedGeneration != s.objects.backup.generation
    ensures var s', free := Continue(s, view), !AnyUnfinished(s.name, view.running);
            if free && ManualJobName(s.name, s.objects.clock) in s.objects.jobs
            then s'.pc == Idle(Errored) && s'.hist.manualJobs == s.hist.manualJobs
            else
              && s'.pc.Idle? && s'.pc.last.Done? && s'.pc.last.requeueAfter != RETRY_SECONDS
              && !s'.pc.last.conflicted
              && UpToDate(s.name, StatusOf(s'), view.listed)
              && s'.name == s.name
              && Recorded(s, s')
              && s'.hist.manualJobs == s.hist.manualJobs + if free then 1 else 0
    ensures Continue(s, view).hist.updateCreates == s.hist.updateCreates
  {
    hide AnyUnfinished, ManualJobName, UpToDate, RelatedTo;
    var s1 := Advance(s, view);
    assert Continue(s, view) == Continue(s1, view);
    if s1.pc.StartingManualJob? {
      var s2 := Advance(s1, view);
      assert Continue(s1, view) == Continue(s2, view);
      if s2.pc.RecordingGeneration? {
        RecordingSettles(s2, view);
      }
    } else {
      RecordingSettles(s1, view);
    }
  }

  lemma {:induction false} WritesNeverDrop(s: State, view: View)
    ensures Continue(s, view).hist.writes >= s.hist.writes
    decreases CallsLeft(s.pc)
  {
    hide Judge, RecordRun, RelatedJobs, LatestJob, AlreadyRecorded, AnyUnfinished, BuildRun, ManualJobName;
    if !s.pc.Idle? {
      CallsRunOut(s, view);
      WritesNeverDrop(Advance(s, view), view);
    }
  }

  // ----- The whole reconcile, path by path -----

  /** A reconcile of a live Backup, after its two Get calls. */
  lemma AfterGets(s: State, view: View)
    requires s.pc.Idle? && s.objects.life == Alive
    ensures ReconcileOnce(s, view)
            == Continue(Route(s.(pc := GettingCronJob(s.objects.backup)), Judge(s.objects.backup.spec)), view)
  {
    hide Judge;
    var s1 := Advance(s, view);
    assert s1 == s.(pc := GettingCronJob(s.objects.backup));
    assert Continue(s1, view) == Continue(Advance(s1, view), view);
  }

  // ----- The Secret -----

  /** The reconcile of an accepted Backup that builds something. */
  predicate Builds(s: State) {
    && s.objects.life == Alive && Judge(s.objects.backup.spec) == Accepted
    && (s.objects.cronJob.None? || StatusOf(s).observedGeneration != s.objects.backup.generation)
  }

  lemma {:induction false} LaterCallsKeepSecret(s: State, view: View)
    requires !s.pc.GettingCronJob? && !s.pc.WritingSecret?
    ensures Continue(s, view).objects.secret == s.objects.secret
    decreases CallsLeft(s.pc)
  {
    if !s.pc.Idle? {
      OneCallKeepsSecret(s, view);
      CallsRunOut(s, view);
      hide ActOnce;
      LaterCallsKeepSecret(Advance(s, view), view);
    }
  }

  lemma OneCallKeepsSecret(s: State, view: View)
    requires !s.pc.Idle? && !s.pc.GettingCronJob? && !s.pc.WritingSecret?
    ensures var s' := Advance(s, view);
            s'.objects.secret == s.objects.secret && !s'.pc.GettingCronJob? && !s'.pc.WritingSecret?
  {
    hide RelatedJobs, LatestJob, AlreadyRecorded, AnyUnfinished, BuildRun, RecordRun, ManualJobName;
  }

  /** Exactly when a reconcile writes the Secret, lost or not: when it builds something. It then holds the
      current spec, and otherwise it stays as it was. */
  lemma SecretIsWrittenIff(s: State, view: View)
    requires s.pc.Idle?
    ensures ReconcileOnce(s, view).objects.secret
            == if Builds(s) then Some(ConfigSecret(s.objects.backup.generation, s.objects.backup.spec))
               else s.objects.secret
  {
    hide Judge, Continue;
    if s.objects.life != Alive {
      LaterCallsKeepSecret(Advance(s, view), view);
    } else {
      AfterGets(s, view);
      var s1 := Route(s.(pc := GettingCronJob(s.objects.backup)), Judge(s.objects.backup.spec));
      if Builds(s) {
        var s2 := Advance(s1, view);
        ContinueOnce(s1, view);
        LaterCallsKeepSecret(s2, view);
      } else {
        LaterCallsKeepSecret(s1, view);
      }
    }
  }

  lemma ContinueOnce(s: State, view: View)
    requires !s.pc.Idle?
    ensures Continue(s, view) == Continue(Advance(s, view), view)
  {}

  // ----- The paths -----

  /** No live Backup, or a malformed spec: nothing is written. */
  lemma NothingToDo(s: State, view: View)
    requires s.pc.Idle? && (s.objects.life != Alive || Judge(s.objects.backup.spec) == Invalid)
    ensures var s' := ReconcileOnce(s, view);
            && s'.objects == s.objects && s'.hist.writes == s.hist.writes && s'.hist.manualJobs == s.hist.manualJobs
            && s'.hist.updateCreates == s.hist.updateCreates
            && s'.pc == if s.objects.life != Alive then Idle(Done(0, false)) else Idle(Errored)
  {
    if s.objects.life == Alive {
      AfterGets(s, view);
    }
  }

  /** No schedule, or a CronJob whose generation is recorded: only the status part can write. */
  lemma NothingToBuild(s: State, view: View)
    requires s.pc.Idle? && s.objects.life == Alive
    requires || Judge(s.objects.backup.spec) == Ignored
             || (&& Judge(s.objects.backup.spec) == Accepted
                 && s.objects.cronJob.Some?
                 && StatusOf(s).observedGeneration == s.objects.backup.generation)
    ensures var s' := ReconcileOnce(s, view);
            && Settles(s, s', view, 0)
            && SameExceptStatus(s.objects, s'.objects)
            && (s'.hist.writes == s.hist.writes <==> UpToDate(s.name, StatusOf(s), view.listed))
            && (UpToDate(s.name, StatusOf(s), view.listed) ==> s'.objects == s.objects)
  {
    hide Judge;
    AfterGets(s, view);
    StatusPartSettles(s.(pc := ListingJobs(s.objects.backup, 0)), view);
  }

  /** The create path always ends with a CronJob of the current generation, recorded, and never starts
      an immediate run. */
  lemma CreatePath(s: State, view: View)
    requires s.pc.Idle? && s.objects.life == Alive
    requires Judge(s.objects.backup.spec) == Accepted && s.objects.cronJob.None?
    ensures var s', b := ReconcileOnce(s, view), s.objects.backup;
            && Settles(s, s', view, 0)
            && s'.objects.secret == Some(ConfigSecret(b.generation, b.spec))
            && s'.objects.cronJob == Some(CronJob(b.generation, BuildCronJobSpec(b.spec), false))
            && BuiltFor(s'.objects.cronJob.value.spec, b.spec)
            && StatusOf(s').observedGeneration == s'.objects.backup.generation == b.generation
            && s'.objects.backup.spec == b.spec
            && s'.objects.life == Alive
            && s'.hist.writes > s.hist.writes
  {
    AcceptedIsBuilt(s.objects.backup.spec);
    hide Judge, UpToDate, BuildCronJobSpec, BuiltFor;
    SecretIsWrittenIff(s, view);
    AfterGets(s, view);
    var s1 := s.(pc := WritingSecret(s.objects.backup, false));
    var s2 := Advance(s1, view);
    assert Continue(s1, view) == Continue(s2, view);
    var s3 := Advance(s2, view);
    assert Continue(s2, view) == Continue(s3, view);
    RecordingSettles(s3, view);
    WritesNeverDrop(s3, view);
  }

  /** The update path with the old CronJob still terminating: it comes back in two seconds, without an
      immediate run and without recording the generation. */
  lemma UpdatePathWaits(s: State, view: View)
    requires s.pc.Idle? && s.objects.life == Alive && !view.orphaned
    requires Judge(s.objects.backup.spec) == Accepted && s.objects.cronJob.Some?
    requires StatusOf(s).observedGeneration != s.objects.backup.generation
    ensures var s' := ReconcileOnce(s, view);
            && Settles(s, s', view, RETRY_SECONDS)
            && Terminating(s')
            && s'.objects.secret == Some(ConfigSecret(s.objects.backup.generation, s.objects.backup.spec))
            && s'.objects.backup.generation == s.objects.backup.generation
            && s'.objects.backup.spec == s.objects.backup.spec
            && s'.objects.life == Alive
            && StatusOf(s').observedGeneration == StatusOf(s).observedGeneration
            && s'.hist.writes > s.hist.writes
  {
    hide Judge, UpToDate;
    SecretIsWrittenIff(s, view);
    AfterGets(s, view);
    var s1 := s.(pc := WritingSecret(s.objects.backup, true));
    var s2 := Advance(s1, view);
    assert Continue(s1, view) == Continue(s2, view);
    var s3 := Advance(s2, view);
    assert Continue(s2, view) == Continue(s3, view);
    var s4 := Advance(s3, view);
    assert Continue(s3, view) == Continue(s4, view);
    StatusPartSettles(s4, view);
    WritesNeverDrop(s4, view);
  }

  /** The update path with the old CronJob gone in time. */
  lemma UpdatePathRecreates(s: State, view: View)
    requires s.pc.Idle? && s.objects.life == Alive && view.orphaned
    requires Judge(s.objects.backup.spec) == Accepted && s.objects.cronJob.Some?
    requires StatusOf(s).observedGeneration != s.objects.backup.generation
    ensures var s', b, free := ReconcileOnce(s, view), s.objects.backup, !AnyUnfinished(s.name, view.running);
            if free && ManualJobName(s.name, s.objects.clock) in s.objects.jobs
            then s'.pc == Idle(Errored) && s'.hist.manualJobs == s.hist.manualJobs
            else
              && s'.pc.Idle? && s'.pc.last.Done? && s'.pc.last.requeueAfter != RETRY_SECONDS
              && !s'.pc.last.conflicted
              && UpToDate(s.name, StatusOf(s'), view.listed)
              && s'.name == s.name
              && s'.objects.cronJob == Some(CronJob(b.generation, BuildCronJobSpec(b.spec), false))
              && BuiltFor(s'.objects.cronJob.value.spec, b.spec)
              && StatusOf(s').observedGeneration == s'.objects.backup.generation
              && s'.objects.backup.spec == b.spec
              && s'.objects.life == Alive
              && s'.hist.manualJobs == s.hist.manualJobs + if free then 1 else 0
    ensures ReconcileOnce(s, view).objects.secret
            == Some(ConfigSecret(s.objects.backup.generation, s.objects.backup.spec))
    ensures ReconcileOnce(s, view).hist.writes > s.hist.writes
  {
    AcceptedIsBuilt(s.objects.backup.spec);
    hide Judge, UpToDate, BuildCronJobSpec, BuiltFor, AnyUnfinished, ManualJobName;
    SecretIsWrittenIff(s, view);
    AfterGets(s, view);
    var s1 := s.(pc := WritingSecret(s.objects.backup, true));
    var s2 := Advance(s1, view);
    assert Continue(s1, view) == Continue(s2, view);
    var s3 := Advance(s2, view);
    assert Continue(s2, view) == Continue(s3, view);
    var s4 := Advance(s3, view);
    assert Continue(s3, view) == Continue(s4, view);
    RunDecision(s4, view);
    WritesNeverDrop(s4, view);
  }

  // ----- Idempotence -----

  /** Exactly when an uninterrupted reconcile writes nothing. */
  predicate Quiescent(s: State, listed: seq<Job>) {
    var verdict := Judge(s.objects.backup.spec);
    || s.objects.life != Alive
    || verdict == Invalid
    || (&& UpToDate(s.name, StatusOf(s), listed)
        && (verdict == Ignored
            || (s.objects.cronJob.Some? && StatusOf(s).observedGeneration == s.objects.backup.generation)))
  }

  lemma NoWriteIffQuiescent(s: State, view: View)
    requires s.pc.Idle?
    ensures ReconcileOnce(s, view).hist.writes == s.hist.writes <==> Quiescent(s, view.listed)
    ensures Quiescent(s, view.listed) ==> ReconcileOnce(s, view).objects == s.objects
  {
    hide Judge, UpToDate, ReconcileOnce, Settles, AnyUnfinished, ManualJobName;
    var verdict := Judge(s.objects.backup.spec);
    if s.objects.life != Alive || verdict == Invalid {
      NothingToDo(s, view);
    } else if verdict == Ignored {
      NothingToBuild(s, view);
    } else if s.objects.cronJob.None? {
      CreatePath(s, view);
    } else if StatusOf(s).observedGeneration == s.objects.backup.generation {
      NothingToBuild(s, view);
    } else if view.orphaned {
      UpdatePathRecreates(s, view);
    } else {
      UpdatePathWaits(s, view);
    }
  }

  lemma DoneMeansQuiescent(s: State, view: View)
    requires s.pc.Idle?
    requires ReconcileOnce(s, view).pc.last.Done? && ReconcileOnce(s, view).pc.last.requeueAfter != RETRY_SECONDS
    ensures Quiescent(ReconcileOnce(s, view), view.listed)
  {
    hide Judge, UpToDate, ReconcileOnce, AnyUnfinished, ManualJobName, Polls, BuiltFor;
    var verdict := Judge(s.objects.backup.spec);
    if s.objects.life != Alive || verdict == Invalid {
      NothingToDo(s, view);
    } else if verdict == Ignored {
      NothingToBuild(s, view);
    } else if s.objects.cronJob.None? {
      CreatePath(s, view);
    } else if StatusOf(s).observedGeneration == s.objects.backup.generation {
      NothingToBuild(s, view);
    } else if view.orphaned {
      UpdatePathRecreates(s, view);
    } else {
      UpdatePathWaits(s, view);
    }
  }

  /** Reconcile is idempotent: after one that returned no error and did not ask for the two-second
      retry, a second one on the unchanged objects with the same Job list writes nothing. */
  lemma ReconcileIsIdempotent(s: State, view: View, again: View)
    requires s.pc.Idle? && again.listed == view.listed
    requires ReconcileOnce(s, view).pc.last.Done? && ReconcileOnce(s, view).pc.last.requeueAfter != RETRY_SECONDS
    ensures var s' := ReconcileOnce(s, view);
            && ReconcileOnce(s', again).hist.writes == s'.hist.writes
            && ReconcileOnce(s', again).objects == s'.objects
  {
    DoneMeansQuiescent(s, view);
    NoWriteIffQuiescent(ReconcileOnce(s, view), again);
  }

  // ----- Immediate runs -----

  /** Exactly when an uninterrupted reconcile that returns no error starts an immediate run: the spec
      was edited, the old CronJob was gone before the new one was created, and nothing related was
      unfinished. */
  lemma ImmediateRunIff(s: State, view: View)
    requires s.pc.Idle? && ReconcileOnce(s, view).pc.last.Done?
    ensures ReconcileOnce(s, view).hist.manualJobs > s.hist.manualJobs <==>
              && s.objects.life == Alive
              && Judge(s.objects.backup.spec) == Accepted
              && s.objects.cronJob.Some?
              && StatusOf(s).observedGeneration != s.objects.backup.generation
              && view.orphaned
              && !AnyUnfinished(s.name, view.running)
  {
    hide Judge, UpToDate, ReconcileOnce, AnyUnfinished, ManualJobName, Polls, BuiltFor;
    var verdict := Judge(s.objects.backup.spec);
    if s.objects.life != Alive || verdict == Invalid {
      NothingToDo(s, view);
    } else if verdict == Ignored {
      NothingToBuild(s, view);
    } else if s.objects.cronJob.None? {
      CreatePath(s, view);
    } else if StatusOf(s).observedGeneration == s.objects.backup.generation {
      NothingToBuild(s, view);
    } else if view.orphaned {
      UpdatePathRecreates(s, view);
    } else {
      UpdatePathWaits(s, view);
    }
  }

  /** "Every edit triggers a run" is false. From every converged state, every accepted edit can be
      carried out completely without an immediate run: the first reconcile meets the terminating
      CronJob, orphan deletion finishes, and the next reconcile takes the create path. */
  lemma EditWithoutRun(s: State, spec: Spec, first: View, second: View)
    requires s.pc.Idle? && s.objects.life == Alive && Converged(s)
    requires spec != s.objects.backup.spec && Judge(spec) == Accepted && !first.orphaned
    ensures var edited := Apply(s, Edit(spec));
            var waiting := ReconcileOnce(edited, first);
            && Enabled(waiting, FinishCronJobDeletion)
            && waiting.pc.last == Done(RETRY_SECONDS, false)
            && var done := ReconcileOnce(Apply(waiting, FinishCronJobDeletion), second);
               && Converged(done)
               && done.objects.backup.spec == spec
               && BuiltFor(done.objects.cronJob.value.spec, spec)
               && done.hist.manualJobs == s.hist.manualJobs
  {
    hide Judge, UpToDate, ReconcileOnce, BuildCronJobSpec, BuiltFor, Polls;
    var edited := Apply(s, Edit(spec));
    UpdatePathWaits(edited, first);
    var waiting := ReconcileOnce(edited, first);
    CreatePath(Apply(waiting, FinishCronJobDeletion), second);
  }

  // ----- The end of a run -----

  /** One undisturbed reconcile is enough to record that the latest related Job has finished; ties between
      creation times are settled by the list's order. */
  lemma FinishedRunIsRecordedAtOnce(s: State, view: View)
    requires s.pc.Idle? && s.objects.life == Alive && ReconcileOnce(s, view).pc.last.Done?
    requires RelatedJobs(s.name, view.listed) != []
    requires Terminal(GetJobPhase(LatestJob(RelatedJobs(s.name, view.listed))))
    ensures var job, status := LatestJob(RelatedJobs(s.name, view.listed)), StatusOf(ReconcileOnce(s, view));
            && status.lastRun.Some?
            && status.lastRun.value.jobName == job.name
            && status.lastRun.value.phase == GetJobPhase(job)
  {
    hide Judge, ReconcileOnce, AnyUnfinished, ManualJobName, Polls, RelatedJobs, LatestJob;
    var verdict := Judge(s.objects.backup.spec);
    if verdict == Invalid {
      NothingToDo(s, view);
    } else if verdict == Ignored {
      NothingToBuild(s, view);
    } else if s.objects.cronJob.None? {
      CreatePath(s, view);
    } else if StatusOf(s).observedGeneration == s.objects.backup.generation {
      NothingToBuild(s, view);
    } else if view.orphaned {
      UpdatePathRecreates(s, view);
    } else {
      UpdatePathWaits(s, view);
    }
  }
}
