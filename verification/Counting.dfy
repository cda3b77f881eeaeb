/** From runs to logs: in every reachable state the stored status is the summary of the log of
    persisted updates; and when Jobs come and go in an orderly way, that log is in creation order, so
    that each Job is counted once and the window is the newest part of the history. */
module Counting {
  import opened Wrappers
  import opened Jobs
  import opened RunStatus
  import opened StatusHistory
  import opened Cluster
  import opened Reconciler
  import opened Generations

  // ----- The status is the summary of the log -----

  ghost predicate Summarised(status: Status, log: seq<Entry>) {
    status.(observedGeneration := 0) == Replay(log)
  }

  ghost predicate FromJob(r: Run) {
    exists job, pod :: r == BuildRun(job, pod)
  }

  ghost predicate LogInv(s: State) {
    var log := s.hist.log;
    && Summarised(s.objects.backup.status, log)
    && Guarded(log)
    && TimesRise(log)
    && (forall e :: e in log ==> FromJob(e.run))
    && (log != [] ==> log[|log| - 1].at <= s.objects.clock)
    && (s.pc.UpdatingStatus? ==>
          && FromJob(s.pc.run)
          && s.pc.at <= s.objects.clock
          && (log != [] ==> log[|log| - 1].at <= s.pc.at)
          && IsTransition(log, s.pc.run))
  }

  /** `run` is not a repetition of the entry that ends the log. */
  ghost predicate IsTransition(log: seq<Entry>, run: Run) {
    log != [] ==>
      var last := log[|log| - 1].run;
      last.jobName != run.jobName || last.phase != run.phase
  }

  lemma RecordingCommutes(status: Status, run: Run, now: int)
    ensures RecordRun(status, run, now).(observedGeneration := 0)
            == RecordRun(status.(observedGeneration := 0), run, now)
  {}

  lemma LogGrows(log: seq<Entry>, status: Status, e: Entry)
    requires Summarised(status, log) && Guarded(log) && TimesRise(log)
    requires IsTransition(log, e.run) && (log != [] ==> log[|log| - 1].at <= e.at)
    ensures Summarised(RecordRun(status, e.run, e.at), log + [e])
    ensures Guarded(log + [e]) && TimesRise(log + [e])
  {
    RecordingCommutes(status, e.run, e.at);
    ReplayStep(log, e);
  }

  /** Only the status update extends the log, and only the listing of Jobs prepares an update. */
  lemma QuietCallsKeepLog(s: State, input: Input)
    requires !s.pc.ListingJobs? && !s.pc.RecordingGeneration? && !s.pc.UpdatingStatus?
    ensures var s' := ActOnce(s, input);
            && s'.objects.backup == s.objects.backup
            && s'.objects.clock == s.objects.clock
            && s'.hist.log == s.hist.log
            && !s'.pc.UpdatingStatus?
  {
    hide Judge, RelatedTo, AnyUnfinished, BuildCronJobSpec, ManualJobName, ManualJob;
  }

  lemma RecordGenerationKeepsLog(s: State, input: Input)
    requires LogInv(s) && s.pc.RecordingGeneration?
    ensures LogInv(RecordGeneration(s, input))
  {}

  lemma ListJobsKeepsLog(s: State, input: Input)
    requires LogInv(s) && MemoryFollows(s) && s.pc.ListingJobs?
    ensures LogInv(ListJobs(s, input))
  {
    var log := s.hist.log;
    ReplayWellFormed(log);
    var related := RelatedJobs(s.name, input.listed);
    if input.reply == Ok && related != [] && !AlreadyRecorded(s.pc.b.status, LatestJob(related)) {
      var job := LatestJob(related);
      assert FromJob(BuildRun(job, input.pod));
      assert IsTransition(log, BuildRun(job, input.pod));
    }
  }

  lemma UpdateStatusKeepsLog(s: State, input: Input)
    requires LogInv(s) && MemoryFollows(s) && s.pc.UpdatingStatus?
    ensures LogInv(UpdateStatus(s, input))
  {
    var status := RecordRun(s.pc.b.status, s.pc.run, s.pc.at);
    LogGrows(s.hist.log, s.objects.backup.status, Entry(s.pc.run, s.pc.created, s.pc.at));
    StoreStatusKeepsLog(s, input, status);
  }

  lemma StoreStatusKeepsLog(s: State, input: Input, status: Status)
    requires LogInv(s) && s.pc.UpdatingStatus?
    requires var log := s.hist.log + [Entry(s.pc.run, s.pc.created, s.pc.at)];
             Summarised(status, log) && Guarded(log) && TimesRise(log)
    ensures LogInv(StoreStatus(s, input, status))
  {
    hide Summarised, Guarded, TimesRise, IsTransition, FromJob, RecordRun;
  }

  lemma StepKeepsLog(s: State, step: Step)
    requires LogInv(s) && Inv(s) && Enabled(s, step)
    ensures LogInv(Apply(s, step))
  {
    hide Summarised, Guarded, TimesRise, IsTransition, FromJob, Sandwich, PcPromises;
    if step.Act? {
      ActKeepsLog(s, step.input);
    }
  }

  lemma QuietCallsKeepLogInv(s: State, input: Input)
    requires LogInv(s) && !s.pc.ListingJobs? && !s.pc.RecordingGeneration? && !s.pc.UpdatingStatus?
    ensures LogInv(ActOnce(s, input))
  {
    hide Summarised, Guarded, TimesRise, FromJob, ActOnce;
    QuietCallsKeepLog(s, input);
  }

  lemma ActKeepsLog(s: State, input: Input)
    requires LogInv(s) && MemoryFollows(s)
    ensures LogInv(ActOnce(s, input))
  {
    hide LogInv, MemoryFollows;
    match s.pc
    case RecordingGeneration(_) => RecordGenerationKeepsLog(s, input);
    case ListingJobs(_, _) => ListJobsKeepsLog(s, input);
    case UpdatingStatus(_, _, _, _, _) => UpdateStatusKeepsLog(s, input);
    case _ => QuietCallsKeepLogInv(s, input);
  }

  lemma {:induction false} RunKeepsLog(s: State, steps: seq<Step>)
    requires LogInv(s) && Inv(s) && ValidRun(s, steps)
    ensures LogInv(After(s, steps))
    decreases |steps|
  {
    if steps != [] {
      StepKeepsLog(s, steps[0]);
      StepPays(s, steps[0]);
      RunKeepsLog(Apply(s, steps[0]), steps[1..]);
    }
  }

  /** With no hypothesis on Jobs: at the end of every run the stored status has the documented shape
      and size, and its counters and times are the log's. */
  lemma StoredStatusSummarisesLog(s: State, steps: seq<Step>)
    requires Init(s) && ValidRun(s, steps)
    ensures var status, log := After(s, steps).objects.backup.status, After(s, steps).hist.log;
            && WellFormed(status)
            && ShowsCount(status.successCount, SuccessesIn(log))
            && ShowsCount(status.failureCount, TrailingFailures(log))
            && (status.lastSuccessfulBackupTime.Some? <==> SuccessesIn(log) > 0)
            && (status.lastSuccessfulBackupTime.Some? ==>
                  && status.lastBackupTime.Some?
                  && status.lastSuccessfulBackupTime.value <= status.lastBackupTime.value)
            && (forall r :: r in status.recentRuns ==> BoundedRun(r))
            && (status.lastRun.Some? ==> BoundedRun(status.lastRun.value))
  {
    hide ShowsCount, Wrap32;
    InitInv(s);
    RunKeepsLog(s, steps);
    var log := After(s, steps).hist.log;
    assert Replay(s.hist.log) == EMPTY_STATUS;
    ReplayWellFormed(log);
    CountersSummariseLog(log);
    LastSuccessBounds(log);
    StatusStaysBounded(log);
  }

  // ----- Orderly Jobs -----

  ghost predicate NewerThanAll(ever: map<string, int>, t: int) {
    forall n :: n in ever ==> ever[n] < t
  }

  ghost predicate IsNewest(ever: map<string, int>, n: string) {
    n in ever && forall m :: m in ever ==> ever[m] <= ever[n]
  }

  /** What the Jobs of a step must respect: names are not reused, a new related Job is strictly newer
      than every earlier one, its counters never go down, and the newest related Job is not removed
      while an older one remains. */
  ghost predicate Orderly(s: State, step: Step) {
    var jobs, ever := s.objects.jobs, s.hist.ever;
    match step
    case AddJob(job) =>
      RelatedTo(s.name, job.name) ==> job.name !in ever && NewerThanAll(ever, job.created)
    case SetJob(job) =>
      RelatedTo(s.name, job.name) && job.name in jobs ==>
        jobs[job.name].succeeded <= job.succeeded && jobs[job.name].failed <= job.failed
    case RemoveJob(n) =>
      RelatedTo(s.name, n) && IsNewest(ever, n) ==>
        forall m :: m in jobs && RelatedTo(s.name, m) ==> m == n
    case Act(_) =>
      s.pc.StartingManualJob? ==>
        && ManualJobName(s.name, s.objects.clock) !in ever
        && NewerThanAll(ever, s.objects.clock)
    case _ => true
  }

  ghost predicate OrderlyRun(s: State, steps: seq<Step>)
    requires ValidRun(s, steps)
    decreases |steps|
  {
    steps == [] || (Orderly(s, steps[0]) && OrderlyRun(Apply(s, steps[0]), steps[1..]))
  }

  ghost predicate DistinctTimes(ever: map<string, int>) {
    forall m, n :: m in ever && n in ever && m != n ==> ever[m] != ever[n]
  }

  ghost predicate HasRelated(name: string, jobs: map<string, Job>) {
    exists n :: n in jobs && RelatedTo(name, n)
  }

  ghost predicate NewestPresent(name: string, jobs: map<string, Job>, ever: map<string, int>) {
    HasRelated(name, jobs) ==> exists top :: top in jobs && RelatedTo(name, top) && IsNewest(ever, top)
  }

  /** The Jobs that exist agree with what is remembered, and the newest ever is among them. */
  ghost predicate JobsInv(name: string, jobs: map<string, Job>, ever: map<string, int>) {
    && (forall n :: n in jobs ==> jobs[n].name == n)
    && (forall n :: n in jobs && RelatedTo(name, n) ==> n in ever && ever[n] == jobs[n].created)
    && DistinctTimes(ever)
    && NewestPresent(name, jobs, ever)
  }

  /** `run` can be recorded next: its Job is not older than the last recorded one, and if it is that
      one, its phase follows. */
  ghost predicate CanRecord(log: seq<Entry>, run: Run, created: int) {
    log != [] ==>
      var last := log[|log| - 1];
      last.created <= created && (last.run.jobName == run.jobName ==> CanFollow(last.run.phase, run.phase))
  }

  /** If the Job of `run` still exists, its phase follows the one in `run`. */
  ghost predicate StillFollows(jobs: map<string, Job>, run: Run) {
    run.jobName in jobs ==> CanFollow(run.phase, GetJobPhase(jobs[run.jobName]))
  }

  ghost predicate Remembered(ever: map<string, int>, run: Run, created: int) {
    run.jobName in ever && ever[run.jobName] == created
  }

  ghost predicate OrderInv(s: State) {
    var jobs, ever, log := s.objects.jobs, s.hist.ever, s.hist.log;
    && JobsInv(s.name, jobs, ever)
    && Ordered(log)
    && (forall e :: e in log ==> RelatedTo(s.name, e.run.jobName) && Remembered(ever, e.run, e.created))
    && (log != [] ==> StillFollows(jobs, log[|log| - 1].run))
    && (s.pc.UpdatingStatus? ==>
          && RelatedTo(s.name, s.pc.run.jobName)
          && Remembered(ever, s.pc.run, s.pc.created)
          && CanRecord(log, s.pc.run, s.pc.created)
          && StillFollows(jobs, s.pc.run))
  }

  lemma FollowsIsTransitive(p: Phase, q: Phase, r: Phase)
    requires CanFollow(p, q) && CanFollow(q, r)
    ensures CanFollow(p, r)
  {}

  lemma OrderedExtends(name: string, log: seq<Entry>, e: Entry, jobs: map<string, Job>, ever: map<string, int>)
    requires Ordered(log) && JobsInv(name, jobs, ever) && CanRecord(log, e.run, e.created)
    requires Remembered(ever, e.run, e.created)
    requires forall f :: f in log ==> Remembered(ever, f.run, f.created)
    ensures Ordered(log + [e])
  {
    var n := |log|;
    forall i | 0 <= i < n
      ensures log[i].created <= e.created
      ensures log[i].created == e.created <==> SameJob(log[i], e)
      ensures SameJob(log[i], e) ==> CanFollow(log[i].run.phase, e.run.phase)
    {
      assert log[i] in log && log[n - 1] in log;
      assert i < n - 1 ==> log[i].created <= log[n - 1].created;
      if SameJob(log[i], e) && i < n - 1 {
        assert SameJob(log[i], log[n - 1]);
        FollowsIsTransitive(log[i].run.phase, log[n - 1].run.phase, e.run.phase);
      }
    }
  }

  lemma AddKeepsJobs(name: string, jobs: map<string, Job>, ever: map<string, int>, job: Job)
    requires JobsInv(name, jobs, ever)
    requires RelatedTo(name, job.name) ==> job.name !in ever && NewerThanAll(ever, job.created)
    requires job.name !in jobs
    ensures JobsInv(name, jobs[job.name := job],
                    if RelatedTo(name, job.name) then ever[job.name := job.created] else ever)
  {
    var jobs', n := jobs[job.name := job], job.name;
    var ever' := if RelatedTo(name, n) then ever[n := job.created] else ever;
    if RelatedTo(name, n) {
      assert n in jobs' && IsNewest(ever', n);
    } else if HasRelated(name, jobs') {
      var m :| m in jobs' && RelatedTo(name, m);
      assert m in jobs;
      var top :| top in jobs && RelatedTo(name, top) && IsNewest(ever, top);
      assert top in jobs';
    }
  }

  lemma SetKeepsJobs(name: string, jobs: map<string, Job>, ever: map<string, int>, job: Job)
    requires JobsInv(name, jobs, ever)
    requires job.name in jobs && jobs[job.name].created == job.created
    ensures JobsInv(name, jobs[job.name := job], ever)
  {
    var jobs' := jobs[job.name := job];
    if HasRelated(name, jobs') {
      var m :| m in jobs' && RelatedTo(name, m);
      assert m in jobs;
      var top :| top in jobs && RelatedTo(name, top) && IsNewest(ever, top);
      assert top in jobs';
    }
  }

  lemma RemoveKeepsJobs(name: string, jobs: map<string, Job>, ever: map<string, int>, n: string)
    requires JobsInv(name, jobs, ever)
    requires RelatedTo(name, n) && IsNewest(ever, n) ==> forall m :: m in jobs && RelatedTo(name, m) ==> m == n
    ensures JobsInv(name, jobs - {n}, ever)
  {
    var jobs' := jobs - {n};
    if HasRelated(name, jobs') {
      var m :| m in jobs' && RelatedTo(name, m);
      assert m in jobs;
      var top :| top in jobs && RelatedTo(name, top) && IsNewest(ever, top);
      assert top != n;
      assert top in jobs';
    }
  }

  /** Whatever order the list comes in, its latest related Job is the newest that ever existed. */
  lemma LatestIsNewest(name: string, jobs: map<string, Job>, ever: map<string, int>, listed: seq<Job>)
    requires JobsInv(name, jobs, ever) && Lists(listed, jobs)
    requires RelatedJobs(name, listed) != []
    ensures var job := LatestJob(RelatedJobs(name, listed));
            && job.name in jobs && jobs[job.name] == job && RelatedTo(name, job.name)
            && IsNewest(ever, job.name) && ever[job.name] == job.created
  {
    var related := RelatedJobs(name, listed);
    LatestIsListed(related);
    var job := LatestJob(related);
    assert job in related && job in listed;
    var top :| top in jobs && RelatedTo(name, top) && IsNewest(ever, top);
    assert jobs[top] in listed && jobs[top] in related;
    assert jobs[top].created <= job.created;
  }

  lemma QuietCallsKeepJobs(s: State, input: Input)
    requires !s.pc.StartingManualJob? && !s.pc.ListingJobs? && !s.pc.UpdatingStatus?
    ensures var s' := ActOnce(s, input);
            && s'.name == s.name
            && s'.objects.jobs == s.objects.jobs
            && s'.hist.ever == s.hist.ever
            && s'.hist.log == s.hist.log
            && !s'.pc.UpdatingStatus?
  {
    hide Judge, RelatedTo, AnyUnfinished, BuildCronJobSpec;
  }

  lemma ListJobsKeepsOrder(s: State, input: Input)
    requires OrderInv(s) && s.pc.ListingJobs? && Lists(input.listed, s.objects.jobs)
    ensures OrderInv(ListJobs(s, input))
  {
    hide JobsInv, Ordered, RelatedTo, RelatedJobs, LatestJob, AlreadyRecorded, Remembered, CanRecord, StillFollows, BuildRun,
         Lists, Polls;
    if RelatedJobs(s.name, input.listed) != [] {
      LatestContinues(s.name, s.objects.jobs, s.hist.ever, s.hist.log, input.listed, input.pod);
    }
  }

  /** The latest Job's run can be recorded next. */
  lemma LatestContinues(name: string, jobs: map<string, Job>, ever: map<string, int>, log: seq<Entry>,
                        listed: seq<Job>, pod: PodLogs)
    requires JobsInv(name, jobs, ever) && Lists(listed, jobs) && RelatedJobs(name, listed) != []
    requires forall e :: e in log ==> Remembered(ever, e.run, e.created)
    requires log != [] ==> StillFollows(jobs, log[|log| - 1].run)
    ensures var job := LatestJob(RelatedJobs(name, listed));
            && RelatedTo(name, BuildRun(job, pod).jobName)
            && Remembered(ever, BuildRun(job, pod), job.created)
            && CanRecord(log, BuildRun(job, pod), job.created)
            && StillFollows(jobs, BuildRun(job, pod))
  {
    LatestIsNewest(name, jobs, ever, listed);
    hide JobsInv, RelatedTo, RelatedJobs, LatestJob, Lists, MessageOf, LogsOf, GetJobPhase;
    PhaseFollowsItself(GetJobPhase(LatestJob(RelatedJobs(name, listed))));
    if log != [] {
      assert log[|log| - 1] in log;
    }
  }

  lemma PhaseFollowsItself(p: Phase)
    ensures CanFollow(p, p)
  {}

  lemma StoreStatusKeepsOrder(s: State, input: Input, status: Status)
    requires OrderInv(s) && s.pc.UpdatingStatus?
    ensures OrderInv(StoreStatus(s, input, status))
  {
    hide JobsInv, Ordered, CanRecord, StillFollows, RecordRun, RelatedTo, Remembered;
    OrderedExtends(s.name, s.hist.log, Entry(s.pc.run, s.pc.created, s.pc.at), s.objects.jobs, s.hist.ever);
  }

  lemma LaunchKeepsOrder(s: State, input: Input, job: Job)
    requires OrderInv(s) && s.pc.StartingManualJob?
    requires job.name !in s.hist.ever && NewerThanAll(s.hist.ever, job.created) && RelatedTo(s.name, job.name)
    ensures OrderInv(LaunchJob(s, input, job))
  {
    hide JobsInv, Ordered, StillFollows, Remembered, RelatedTo;
    if job.name !in s.objects.jobs {
      AddKeepsJobs(s.name, s.objects.jobs, s.hist.ever, job);
      KnownRunsSurvive(s, job);
    }
  }

  /** A Job with a new name changes nothing that is known about recorded runs. */
  lemma KnownRunsSurvive(s: State, job: Job)
    requires OrderInv(s) && RelatedTo(s.name, job.name) ==> job.name !in s.hist.ever
    requires OrderInv(s)
    ensures var jobs, ever := s.objects.jobs[job.name := job], WithJob(s, job).hist.ever;
            && (forall e :: e in s.hist.log ==> Remembered(ever, e.run, e.created))
            && (s.hist.log != [] ==> StillFollows(jobs, s.hist.log[|s.hist.log| - 1].run))
            && (s.pc.UpdatingStatus? ==> Remembered(ever, s.pc.run, s.pc.created) && StillFollows(jobs, s.pc.run))
  {
    assert s.hist.log != [] ==> s.hist.log[|s.hist.log| - 1] in s.hist.log;
  }

  lemma AddJobKeepsOrder(s: State, job: Job)
    requires OrderInv(s) && Enabled(s, AddJob(job)) && Orderly(s, AddJob(job))
    ensures OrderInv(WithJob(s, job))
  {
    AddKeepsJobs(s.name, s.objects.jobs, s.hist.ever, job);
    KnownRunsSurvive(s, job);
  }

  lemma SetJobKeepsOrder(s: State, job: Job)
    requires OrderInv(s) && Enabled(s, SetJob(job)) && Orderly(s, SetJob(job))
    ensures OrderInv(Apply(s, SetJob(job)))
  {
    SetKeepsJobs(s.name, s.objects.jobs, s.hist.ever, job);
    hide NewestPresent, DistinctTimes, Ordered;
    var log := s.hist.log;
    if RelatedTo(s.name, job.name) {
      var before := s.objects.jobs[job.name];
      PhaseFollowsCounters(before, job);
      if log != [] && log[|log| - 1].run.jobName == job.name {
        FollowsIsTransitive(log[|log| - 1].run.phase, GetJobPhase(before), GetJobPhase(job));
      }
      if s.pc.UpdatingStatus? && s.pc.run.jobName == job.name {
        FollowsIsTransitive(s.pc.run.phase, GetJobPhase(before), GetJobPhase(job));
      }
    } else {
      assert log != [] ==> log[|log| - 1] in log;
    }
  }

  lemma RemoveJobKeepsOrder(s: State, n: string)
    requires OrderInv(s) && Enabled(s, RemoveJob(n)) && Orderly(s, RemoveJob(n))
    ensures OrderInv(Apply(s, RemoveJob(n)))
  {
    RemoveKeepsJobs(s.name, s.objects.jobs, s.hist.ever, n);
  }

  lemma QuietCallsKeepOrder(s: State, input: Input)
    requires OrderInv(s) && !s.pc.StartingManualJob? && !s.pc.ListingJobs? && !s.pc.UpdatingStatus?
    ensures OrderInv(ActOnce(s, input))
  {
    hide JobsInv, Ordered, Remembered, StillFollows, RelatedTo, ActOnce, CanRecord;
    QuietCallsKeepJobs(s, input);
  }

  lemma ActKeepsOrder(s: State, input: Input)
    requires OrderInv(s) && Enabled(s, Act(input)) && Orderly(s, Act(input))
    ensures OrderInv(ActOnce(s, input))
  {
    hide OrderInv;
    match s.pc {
      case StartingManualJob(_) =>
        ManualJobIsRelated(s.name, s.objects.clock);
        LaunchKeepsOrder(s, input, ManualJob(s.name, s.objects.clock));
      case ListingJobs(_, _) => ListJobsKeepsOrder(s, input);
      case UpdatingStatus(b, run, _, at, _) => StoreStatusKeepsOrder(s, input, RecordRun(b.status, run, at));
      case _ => QuietCallsKeepOrder(s, input);
    }
  }

  lemma OtherStepsKeepOrder(s: State, step: Step)
    requires OrderInv(s) && Enabled(s, step)
    requires !step.Act? && !step.AddJob? && !step.SetJob? && !step.RemoveJob?
    ensures OrderInv(Apply(s, step))
  {
    hide JobsInv, Ordered, Remembered, StillFollows, RelatedTo, CanRecord;
  }

  lemma StepKeepsOrder(s: State, step: Step)
    requires OrderInv(s) && Enabled(s, step) && Orderly(s, step)
    ensures OrderInv(Apply(s, step))
  {
    hide OrderInv;
    match step
    case AddJob(job) => AddJobKeepsOrder(s, job);
    case SetJob(job) => SetJobKeepsOrder(s, job);
    case RemoveJob(n) => RemoveJobKeepsOrder(s, n);
    case Act(input) => ActKeepsOrder(s, input);
    case _ => OtherStepsKeepOrder(s, step);
  }

  lemma {:induction false} RunKeepsOrder(s: State, steps: seq<Step>)
    requires OrderInv(s) && ValidRun(s, steps) && OrderlyRun(s, steps)
    ensures OrderInv(After(s, steps))
    decreases |steps|
  {
    if steps != [] {
      StepKeepsOrder(s, steps[0]);
      RunKeepsOrder(Apply(s, steps[0]), steps[1..]);
    }
  }

  lemma InitOrder(s: State)
    requires Init(s) && DistinctTimes(s.hist.ever)
    ensures OrderInv(s)
  {
    var jobs, ever := s.objects.jobs, s.hist.ever;
    if HasRelated(s.name, jobs) {
      var n :| n in jobs && RelatedTo(s.name, n);
      var top := NewestOf(ever, ever.Keys);
      assert top in jobs;
    }
  }

  ghost function NewestOf(ever: map<string, int>, names: set<string>): (top: string)
    requires names != {} && names <= ever.Keys
    ensures top in names && forall n :: n in names ==> ever[n] <= ever[top]
  {
    var n :| n in names;
    if names == {n} then n
    else
      var m := NewestOf(ever, names - {n});
      if ever[m] >= ever[n] then m else n
  }

  /** Exactly-once counting and window refinement over whole runs, conflicts, failures, lost replies
      and crashes included: SuccessCount is the number of distinct Jobs ever recorded Succeeded,
      FailureCount that of the distinct Jobs recorded Failed since the last success, no Job adds a
      second success or a second failure, and RecentRuns is the newest five of the history of recorded
      Jobs, with LastRun at its head. */
  lemma OrderlyRunsCountOnce(s: State, steps: seq<Step>, h: seq<Entry>)
    requires Init(s) && DistinctTimes(s.hist.ever) && ValidRun(s, steps) && OrderlyRun(s, steps)
    requires IsHistory(h, After(s, steps).hist.log)
    ensures var status, log := After(s, steps).objects.backup.status, After(s, steps).hist.log;
            && ShowsCount(status.successCount, |SucceededJobs(log)|)
            && ShowsCount(status.failureCount, |FailedSinceSuccess(log)|)
            && (forall i, j :: 0 <= i < j < |log| && SameJob(log[i], log[j]) && Terminal(log[i].run.phase)
                               ==> log[i].run.phase == Failed && log[j].run.phase == Succeeded)
            && status.recentRuns == Window(h)
            && (log != [] ==> h != [] && status.lastRun == Some(h[0].run))
  {
    hide ShowsCount, Wrap32;
    InitInv(s);
    InitOrder(s);
    RunKeepsLog(s, steps);
    RunKeepsOrder(s, steps);
    var log := After(s, steps).hist.log;
    SuccessCountIsDistinctJobs(log);
    FailureCountIsDistinctJobs(log);
    forall i, j | 0 <= i < j < |log| && SameJob(log[i], log[j]) && Terminal(log[i].run.phase)
      ensures log[i].run.phase == Failed && log[j].run.phase == Succeeded
    {
      TerminalOncePerJob(log, i, j);
    }
    RecentRunsAreNewestFive(log, h);
  }

  /** Such a history always exists, so the statement above is about every orderly run. */
  lemma OrderlyRunsHaveHistory(s: State, steps: seq<Step>)
    requires Init(s) && DistinctTimes(s.hist.ever) && ValidRun(s, steps) && OrderlyRun(s, steps)
    ensures IsHistory(History(After(s, steps).hist.log), After(s, steps).hist.log)
  {
    InitOrder(s);
    RunKeepsOrder(s, steps);
    HistoryIsHistory(After(s, steps).hist.log);
  }
}
