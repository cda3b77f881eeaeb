/** Pieces of runs, from which whole runs with a given effect are put together. */
module Scenarios {
  import opened Wrappers
  import opened Jobs
  import opened RunStatus
  import opened StatusHistory
  import opened Cluster
  import opened Reconciler

  const ANSWERED := Input(Ok, [], NoClientset)

  /** The same Jobs at the same time, for a Backup that is still there. */
  predicate SameScene(s: State, s': State) {
    && s'.name == s.name && s'.objects.jobs == s.objects.jobs && s'.objects.clock == s.objects.clock
    && s'.objects.life == s.objects.life
  }

  /** A call that does not list is answered. */
  lemma Answer(start: State, steps: seq<Step>) returns (steps': seq<Step>)
    requires ValidRun(start, steps)
    requires !After(start, steps).pc.ListingRunning? && !After(start, steps).pc.ListingJobs?
    ensures ValidRun(start, steps') && After(start, steps') == ActOnce(After(start, steps), ANSWERED)
  {
    steps' := steps + [Act(ANSWERED)];
    hide ActOnce;
    RunExtends(start, steps, Act(ANSWERED));
  }

  lemma NoStepsRun(s: State)
    ensures ValidRun(s, []) && After(s, []) == s
  {}

  /** The CronJob is there and its generation is recorded. */
  predicate Settled(s: State) {
    && s.objects.life == Alive && Judge(s.objects.backup.spec) == Accepted && s.objects.cronJob.Some?
    && s.objects.backup.status.observedGeneration == s.objects.backup.generation
  }

  /** A new Backup's first reconcile can end early, once the generation is recorded, with the Jobs as they were. */
  lemma CreationIsRecorded(s: State) returns (steps: seq<Step>)
    requires Init(s) && Judge(s.objects.backup.spec) == Accepted
    ensures ValidRun(s, steps)
    ensures var s' := After(s, steps);
            && s'.pc.Idle? && SameScene(s, s') && Settled(s')
            && s'.objects.backup.generation == 1
            && s'.objects.backup.status == EMPTY_STATUS.(observedGeneration := 1)
            && s'.hist.log == []
            && s'.objects.backup.spec == s.objects.backup.spec
  {
    hide Judge, ValidRun, After;
    steps := [];
    NoStepsRun(s);
    steps := Answer(s, steps);
    steps := Answer(s, steps);
    steps := Answer(s, steps);
    steps := Answer(s, steps);
    steps := Answer(s, steps);
    var s5 := After(s, steps);
    assert s5.pc.ListingJobs?;
    RunExtends(s, steps, Crash);
    steps := steps + [Crash];
  }

  /** A reconcile of a settled Backup, with Jobs listed in this order, can record the latest one. */
  lemma LatestCanBeRecorded(s: State, listed: seq<Job>) returns (steps: seq<Step>)
    requires s.pc.Idle? && Settled(s) && Lists(listed, s.objects.jobs) && RelatedJobs(s.name, listed) != []
    requires !AlreadyRecorded(s.objects.backup.status, LatestJob(RelatedJobs(s.name, listed)))
    ensures ValidRun(s, steps)
    ensures var s', job := After(s, steps), LatestJob(RelatedJobs(s.name, listed));
            && s'.pc.Idle? && Settled(s') && SameScene(s, s')
            && s'.objects.backup.status.lastRun == Some(BuildRun(job, NoClientset))
            && s'.hist.log == s.hist.log + [Entry(BuildRun(job, NoClientset), job.created, s.objects.clock)]
  {
    hide Judge, ValidRun, After, RelatedJobs, LatestJob, BuildRun, AlreadyRecorded, Lists, RecordRun;
    steps := [];
    NoStepsRun(s);
    steps := Answer(s, steps);
    steps := Answer(s, steps);
    var s2 := After(s, steps);
    assert s2.pc == ListingJobs(s.objects.backup, 0);
    var list := Act(Input(Ok, listed, NoClientset));
    RunExtends(s, steps, list);
    steps := steps + [list];
    var job := LatestJob(RelatedJobs(s.name, listed));
    RecordedStatus(s.objects.backup.status, BuildRun(job, NoClientset), s.objects.clock);
    steps := Answer(s, steps);
  }

  lemma RecordedStatus(status: Status, run: Run, now: int)
    ensures RecordRun(status, run, now).lastRun == Some(run)
    ensures RecordRun(status, run, now).observedGeneration == status.observedGeneration
  {}
}
