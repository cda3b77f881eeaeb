/** Where exactly-once counting ends. With unique names and counters that do not go down, but no order
    among the Jobs, a Job that was counted can be counted again only after the Job recorded last is gone,
    or when the two were created in the same second; and both happen. */
module Recounting {
  import opened Jobs
  import opened RunStatus
  import opened StatusHistory
  import opened Cluster
  import opened Reconciler
  import opened Generations
  import opened Counting
  import opened Scenarios

  /** Related names are not used twice, and a Job's counters never go down. Jobs may be created in any
      order and removed at any time. */
  ghost predicate Regular(s: State, step: Step) {
    match step
    case AddJob(job) => RelatedTo(s.name, job.name) ==> job.name !in s.hist.ever
    case SetJob(job) =>
      RelatedTo(s.name, job.name) && job.name in s.objects.jobs ==>
        var before := s.objects.jobs[job.name];
        before.succeeded <= job.succeeded && before.failed <= job.failed
    case Act(_) => s.pc.StartingManualJob? ==> ManualJobName(s.name, s.objects.clock) !in s.hist.ever
    case _ => true
  }

  ghost predicate RegularRun(s: State, steps: seq<Step>)
    requires ValidRun(s, steps)
    decreases |steps|
  {
    steps == [] || (Regular(s, steps[0]) && RegularRun(Apply(s, steps[0]), steps[1..]))
  }

  // ----- The invariant -----

  /** The log, and the entry an update in flight would add. */
  ghost function Entries(s: State): seq<Entry> {
    s.hist.log + if s.pc.UpdatingStatus? then [Entry(s.pc.run, s.pc.created, s.pc.at)] else []
  }

  ghost predicate JobsKnown(name: string, jobs: map<string, Job>, ever: map<string, int>) {
    && (forall n :: n in jobs ==> jobs[n].name == n)
    && (forall n :: n in jobs && RelatedTo(name, n) ==> n in ever && ever[n] == jobs[n].created)
  }

  ghost predicate EntryKnown(name: string, jobs: map<string, Job>, ever: map<string, int>, e: Entry) {
    RelatedTo(name, e.run.jobName) && Remembered(ever, e.run, e.created) && StillFollows(jobs, e.run)
  }

  ghost predicate AllKnown(name: string, jobs: map<string, Job>, ever: map<string, int>, es: seq<Entry>) {
    forall e :: e in es ==> EntryKnown(name, jobs, ever, e)
  }

  /** No recorded Job that is still there is newer than the one recorded last. */
  ghost predicate LastIsNewest(jobs: map<string, Job>, es: seq<Entry>) {
    forall e :: e in es && e.run.jobName in jobs ==> e.created <= es[|es| - 1].created
  }

  ghost predicate PhasesFollow(es: seq<Entry>) {
    forall i, j :: 0 <= i < j < |es| && SameJob(es[i], es[j]) ==> CanFollow(es[i].run.phase, es[j].run.phase)
  }

  ghost predicate RecountInv(s: State) {
    var jobs, ever, es := s.objects.jobs, s.hist.ever, Entries(s);
    && JobsKnown(s.name, jobs, ever)
    && AllKnown(s.name, jobs, ever, es)
    && LastIsNewest(jobs, s.hist.log) && LastIsNewest(jobs, es)
    && PhasesFollow(es)
  }

  lemma AddKeepsKnown(name: string, jobs: map<string, Job>, ever: map<string, int>, job: Job, es: seq<Entry>)
    requires JobsKnown(name, jobs, ever) && AllKnown(name, jobs, ever, es) && LastIsNewest(jobs, es)
    requires job.name !in jobs && (RelatedTo(name, job.name) ==> job.name !in ever)
    ensures var jobs' := jobs[job.name := job];
            var ever' := if RelatedTo(name, job.name) then ever[job.name := job.created] else ever;
            JobsKnown(name, jobs', ever') && AllKnown(name, jobs', ever', es) && LastIsNewest(jobs', es)
  {
    hide RelatedTo;
    forall e | e in es
      ensures e.run.jobName != job.name
    {
      assert EntryKnown(name, jobs, ever, e);
    }
  }

  lemma SetKeepsKnown(name: string, jobs: map<string, Job>, ever: map<string, int>, job: Job, es: seq<Entry>)
    requires JobsKnown(name, jobs, ever) && AllKnown(name, jobs, ever, es) && LastIsNewest(jobs, es)
    requires job.name in jobs && jobs[job.name].created == job.created
    requires RelatedTo(name, job.name) ==>
               jobs[job.name].succeeded <= job.succeeded && jobs[job.name].failed <= job.failed
    ensures var jobs' := jobs[job.name := job];
            JobsKnown(name, jobs', ever) && AllKnown(name, jobs', ever, es) && LastIsNewest(jobs', es)
  {
    hide RelatedTo, GetJobPhase;
    forall e | e in es
      ensures EntryKnown(name, jobs[job.name := job], ever, e)
    {
      assert EntryKnown(name, jobs, ever, e);
      if e.run.jobName == job.name {
        PhaseFollowsCounters(jobs[job.name], job);
        FollowsIsTransitive(e.run.phase, GetJobPhase(jobs[job.name]), GetJobPhase(job));
      }
    }
  }

  lemma RemoveKeepsKnown(name: string, jobs: map<string, Job>, ever: map<string, int>, n: string, es: seq<Entry>)
    requires JobsKnown(name, jobs, ever) && AllKnown(name, jobs, ever, es) && LastIsNewest(jobs, es)
    ensures JobsKnown(name, jobs - {n}, ever) && AllKnown(name, jobs - {n}, ever, es) && LastIsNewest(jobs - {n}, es)
  {
    hide RelatedTo, GetJobPhase, CanFollow;
    forall e | e in es
      ensures EntryKnown(name, jobs - {n}, ever, e)
    {
      assert EntryKnown(name, jobs, ever, e);
    }
  }

  /** The Job picked from a list is at least as new as every recorded Job that is still there. */
  lemma PickedIsKnown(name: string, jobs: map<string, Job>, ever: map<string, int>, log: seq<Entry>,
                      listed: seq<Job>, e: Entry)
    requires JobsKnown(name, jobs, ever) && AllKnown(name, jobs, ever, log) && PhasesFollow(log)
    requires Lists(listed, jobs) && RelatedJobs(name, listed) != []
    requires var job := LatestJob(RelatedJobs(name, listed));
             e.run.jobName == job.name && e.run.phase == GetJobPhase(job) && e.created == job.created
    ensures e.run.jobName in jobs && jobs[e.run.jobName] == LatestJob(RelatedJobs(name, listed))
    ensures AllKnown(name, jobs, ever, log + [e]) && LastIsNewest(jobs, log + [e]) && PhasesFollow(log + [e])
  {
    var related := RelatedJobs(name, listed);
    LatestIsListed(related);
    var job := LatestJob(related);
    assert job in related && job in listed && RelatedTo(name, job.name);
    hide RelatedTo, LatestJob, GetJobPhase, CanFollow;
    assert EntryKnown(name, jobs, ever, e) by { PhaseFollowsItself(GetJobPhase(job)); }
    forall f | f in log && f.run.jobName in jobs
      ensures f.created <= e.created
      ensures SameJob(f, e) ==> CanFollow(f.run.phase, e.run.phase)
    {
      assert EntryKnown(name, jobs, ever, f);
      assert jobs[f.run.jobName] in listed && jobs[f.run.jobName] in related;
    }
    forall i | 0 <= i < |log| && SameJob(log[i], e)
      ensures CanFollow(log[i].run.phase, e.run.phase)
    {
      assert log[i] in log;
    }
  }

  // ----- Every regular step keeps it -----

  lemma ListJobsKeepsRecount(s: State, input: Input)
    requires RecountInv(s) && s.pc.ListingJobs? && Lists(input.listed, s.objects.jobs)
    ensures RecountInv(ListJobs(s, input))
  {
    hide JobsKnown, AllKnown, LastIsNewest, PhasesFollow, Lists, RelatedJobs, LatestJob, AlreadyRecorded, GetJobPhase,
         MessageOf, LogsOf, Polls;
    var log := s.hist.log;
    assert Entries(s) == log;
    if RelatedJobs(s.name, input.listed) != [] {
      var job := LatestJob(RelatedJobs(s.name, input.listed));
      PickedIsKnown(s.name, s.objects.jobs, s.hist.ever, log, input.listed,
                    Entry(BuildRun(job, input.pod), job.created, s.objects.clock));
    }
  }

  lemma FrontIsKnown(name: string, jobs: map<string, Job>, ever: map<string, int>, log: seq<Entry>, es: seq<Entry>)
    requires AllKnown(name, jobs, ever, es) && PhasesFollow(es) && log <= es
    ensures AllKnown(name, jobs, ever, log) && PhasesFollow(log)
  {
    hide EntryKnown, CanFollow;
    forall e | e in log
      ensures EntryKnown(name, jobs, ever, e)
    {
      assert e in es;
    }
  }

  lemma StoreStatusKeepsRecount(s: State, input: Input, status: Status)
    requires RecountInv(s) && s.pc.UpdatingStatus?
    ensures RecountInv(StoreStatus(s, input, status))
  {
    FrontIsKnown(s.name, s.objects.jobs, s.hist.ever, s.hist.log, Entries(s));
    hide JobsKnown, AllKnown, LastIsNewest, PhasesFollow;
    var s' := StoreStatus(s, input, status);
    assert s'.pc.Idle? && Entries(s') == s'.hist.log;
    assert s'.hist.log == s.hist.log || s'.hist.log == Entries(s);
  }

  lemma WithJobKeepsRecount(s: State, job: Job)
    requires RecountInv(s) && job.name !in s.objects.jobs
    requires RelatedTo(s.name, job.name) ==> job.name !in s.hist.ever
    ensures RecountInv(WithJob(s, job))
  {
    FrontIsKnown(s.name, s.objects.jobs, s.hist.ever, s.hist.log, Entries(s));
    hide JobsKnown, AllKnown, LastIsNewest, PhasesFollow, RelatedTo;
    AddKeepsKnown(s.name, s.objects.jobs, s.hist.ever, job, s.hist.log);
    AddKeepsKnown(s.name, s.objects.jobs, s.hist.ever, job, Entries(s));
  }

  lemma LaunchKeepsRecount(s: State, input: Input, job: Job)
    requires RecountInv(s) && s.pc.StartingManualJob? && RelatedTo(s.name, job.name) && job.name !in s.hist.ever
    ensures RecountInv(LaunchJob(s, input, job))
  {
    hide JobsKnown, AllKnown, LastIsNewest, PhasesFollow, RelatedTo;
    if job.name !in s.objects.jobs {
      WithJobKeepsRecount(s, job);
    }
  }

  lemma OtherCallsKeepRecount(s: State, input: Input)
    requires RecountInv(s) && !s.pc.StartingManualJob? && !s.pc.ListingJobs? && !s.pc.UpdatingStatus?
    ensures RecountInv(ActOnce(s, input))
  {
    hide JobsKnown, AllKnown, LastIsNewest, PhasesFollow, ActOnce;
    QuietCallsKeepJobs(s, input);
  }

  lemma ActKeepsRecount(s: State, input: Input)
    requires RecountInv(s) && Enabled(s, Act(input)) && Regular(s, Act(input))
    ensures RecountInv(ActOnce(s, input))
  {
    hide RecountInv;
    match s.pc
    case StartingManualJob(_) =>
      ManualJobIsRelated(s.name, s.objects.clock);
      LaunchKeepsRecount(s, input, ManualJob(s.name, s.objects.clock));
    case ListingJobs(_, _) => ListJobsKeepsRecount(s, input);
    case UpdatingStatus(b, run, _, at, _) => StoreStatusKeepsRecount(s, input, RecordRun(b.status, run, at));
    case _ => OtherCallsKeepRecount(s, input);
  }

  lemma SetJobKeepsRecount(s: State, job: Job)
    requires RecountInv(s) && Enabled(s, SetJob(job)) && Regular(s, SetJob(job))
    ensures RecountInv(Apply(s, SetJob(job)))
  {
    FrontIsKnown(s.name, s.objects.jobs, s.hist.ever, s.hist.log, Entries(s));
    hide JobsKnown, AllKnown, LastIsNewest, PhasesFollow, RelatedTo;
    SetKeepsKnown(s.name, s.objects.jobs, s.hist.ever, job, s.hist.log);
    SetKeepsKnown(s.name, s.objects.jobs, s.hist.ever, job, Entries(s));
  }

  lemma RemoveJobKeepsRecount(s: State, n: string)
    requires RecountInv(s)
    ensures RecountInv(Apply(s, RemoveJob(n)))
  {
    FrontIsKnown(s.name, s.objects.jobs, s.hist.ever, s.hist.log, Entries(s));
    hide JobsKnown, AllKnown, LastIsNewest, PhasesFollow, RelatedTo;
    RemoveKeepsKnown(s.name, s.objects.jobs, s.hist.ever, n, s.hist.log);
    RemoveKeepsKnown(s.name, s.objects.jobs, s.hist.ever, n, Entries(s));
  }

  lemma CrashKeepsRecount(s: State)
    requires RecountInv(s)
    ensures RecountInv(Apply(s, Crash))
  {
    FrontIsKnown(s.name, s.objects.jobs, s.hist.ever, s.hist.log, Entries(s));
    hide JobsKnown, AllKnown, LastIsNewest, PhasesFollow;
    assert Entries(Apply(s, Crash)) == s.hist.log;
  }

  lemma OtherStepsKeepRecount(s: State, step: Step)
    requires RecountInv(s) && Enabled(s, step)
    requires !step.Act? && !step.Crash? && !step.AddJob? && !step.SetJob? && !step.RemoveJob?
    ensures RecountInv(Apply(s, step))
  {
    hide JobsKnown, AllKnown, LastIsNewest, PhasesFollow;
    assert Entries(Apply(s, step)) == Entries(s);
  }

  lemma StepKeepsRecount(s: State, step: Step)
    requires RecountInv(s) && Enabled(s, step) && Regular(s, step)
    ensures RecountInv(Apply(s, step))
  {
    hide RecountInv;
    match step
    case AddJob(job) => WithJobKeepsRecount(s, job);
    case SetJob(job) => SetJobKeepsRecount(s, job);
    case RemoveJob(n) => RemoveJobKeepsRecount(s, n);
    case Act(input) => ActKeepsRecount(s, input);
    case Crash => CrashKeepsRecount(s);
    case _ => OtherStepsKeepRecount(s, step);
  }

  lemma {:induction false} RunKeepsRecount(s: State, steps: seq<Step>)
    requires RecountInv(s) && ValidRun(s, steps) && RegularRun(s, steps)
    ensures RecountInv(After(s, steps))
    decreases |steps|
  {
    if steps != [] {
      StepKeepsRecount(s, steps[0]);
      hide RecountInv, Regular;
      RunKeepsRecount(Apply(s, steps[0]), steps[1..]);
    }
  }

  // ----- When a Job is counted again -----

  lemma RecordedSuccess(name: string, jobs: map<string, Job>, ever: map<string, int>, log: seq<Entry>, n: string)
    returns (i: nat)
    requires AllKnown(name, jobs, ever, log) && PhasesFollow(log) && n in SucceededJobs(log)
    ensures i < |log| && log[i].run.jobName == n && log[i].run.phase == Succeeded
    ensures n in jobs ==> GetJobPhase(jobs[n]) == Succeeded
    ensures log[|log| - 1].run.jobName == n ==> log[|log| - 1].run.phase == Succeeded
  {
    var e :| e in log && e.run.phase == Succeeded && e.run.jobName == n;
    i :| 0 <= i < |log| && log[i] == e;
    assert EntryKnown(name, jobs, ever, e);
    if i < |log| - 1 && log[|log| - 1].run.jobName == n {
      assert SameJob(log[i], log[|log| - 1]);
    }
  }

  /** The listing call picks a Job that is already recorded as a success. */
  ghost predicate ListsSuccess(s: State, input: Input) {
    && s.pc.ListingJobs? && input.reply == Ok && Lists(input.listed, s.objects.jobs)
    && RelatedJobs(s.name, input.listed) != []
    && LatestJob(RelatedJobs(s.name, input.listed)).name in SucceededJobs(s.hist.log)
  }

  /** It is counted again if and only if another Job was recorded last; and then that Job is gone, or has
      the same creation time. */
  ghost predicate RecountsIff(s: State, input: Input)
    requires ListsSuccess(s, input)
  {
    SucceededJobsAreLogged(s.hist.log, LatestJob(RelatedJobs(s.name, input.listed)).name);
    var job, last := LatestJob(RelatedJobs(s.name, input.listed)), s.hist.log[|s.hist.log| - 1].run.jobName;
    var next := ListJobs(s, input).pc;
    && (next.UpdatingStatus? <==> last != job.name)
    && (last != job.name ==>
          && (last !in s.objects.jobs || s.objects.jobs[last].created == job.created)
          && next.UpdatingStatus?
          && ShowsCount(RecordRun(next.b.status, next.run, next.at).successCount, SuccessesIn(s.hist.log) + 1))
  }

  /** In every regular run, when a Job already counted as a success is the latest one listed. */
  lemma CountedAgainIff(s: State, steps: seq<Step>, input: Input)
    requires Init(s) && ValidRun(s, steps) && RegularRun(s, steps) && ListsSuccess(After(s, steps), input)
    ensures RecountsIff(After(s, steps), input)
  {
    ReachableIsRecountable(s, steps);
    hide MemoryFollows, LogInv, RecountInv, Init, ValidRun, After, RegularRun, RecountsIff, ListsSuccess;
    ListedSuccess(After(s, steps), input);
  }

  lemma ReachableIsRecountable(s: State, steps: seq<Step>)
    requires Init(s) && ValidRun(s, steps) && RegularRun(s, steps)
    ensures MemoryFollows(After(s, steps)) && LogInv(After(s, steps)) && RecountInv(After(s, steps))
  {
    InitInv(s);
    RunKeepsInv(s, steps);
    InitLog(s);
    RunKeepsLog(s, steps);
    InitRecount(s);
    RunKeepsRecount(s, steps);
    hide LogInv, RecountInv, Init, ValidRun, After, RegularRun;
  }

  lemma InitLog(s: State)
    requires Init(s)
    ensures LogInv(s)
  {
    assert Replay(s.hist.log) == EMPTY_STATUS;
  }

  lemma InitRecount(s: State)
    requires Init(s)
    ensures RecountInv(s)
  {}

  lemma ListedSuccess(s: State, input: Input)
    requires MemoryFollows(s) && LogInv(s) && RecountInv(s) && ListsSuccess(s, input)
    ensures RecountsIff(s, input)
  {
    var log, jobs, ever := s.hist.log, s.objects.jobs, s.hist.ever;
    hide MemoryFollows, LogInv, RecountInv, SucceededJobs, SuccessesIn, RecordRun, LatestJob, RelatedJobs, Lists, ListJobs,
         GetJobPhase, AlreadyRecorded, BuildRun, JobsKnown, AllKnown, LastIsNewest, PhasesFollow, Guarded, Replay;
    WhileListing(s);
    var job := LatestJob(RelatedJobs(s.name, input.listed));
    var i := RecordedSuccess(s.name, jobs, ever, log, job.name);
    PickedIsListed(s.name, jobs, input.listed);
    SuccessAgain(s.pc.b.status, log, job, input.pod, s.objects.clock);
    LastIsGoneOrTies(s.name, jobs, ever, log, input.listed, i);
    ListingUpdatesIff(s, input);
  }

  /** What the invariants say at the listing call. */
  lemma WhileListing(s: State)
    requires MemoryFollows(s) && LogInv(s) && RecountInv(s) && s.pc.ListingJobs?
    ensures s.pc.b.status.(observedGeneration := 0) == Replay(s.hist.log) && Guarded(s.hist.log)
    ensures JobsKnown(s.name, s.objects.jobs, s.hist.ever) && LastIsNewest(s.objects.jobs, s.hist.log)
    ensures AllKnown(s.name, s.objects.jobs, s.hist.ever, s.hist.log) && PhasesFollow(s.hist.log)
  {
    assert Entries(s) == s.hist.log;
    hide Replay, Guarded, JobsKnown, LastIsNewest, AllKnown, PhasesFollow;
  }

  lemma ListingUpdatesIff(s: State, input: Input)
    requires s.pc.ListingJobs? && input.reply == Ok && RelatedJobs(s.name, input.listed) != []
    ensures var job, next := LatestJob(RelatedJobs(s.name, input.listed)), ListJobs(s, input).pc;
            if AlreadyRecorded(s.pc.b.status, job) then !next.UpdatingStatus?
            else next == UpdatingStatus(s.pc.b, BuildRun(job, input.pod), job.created, s.objects.clock, s.pc.requeue)
  {
    hide LatestJob, RelatedJobs, BuildRun, AlreadyRecorded;
  }

  lemma SuccessAgain(status: Status, log: seq<Entry>, job: Job, pod: PodLogs, now: int)
    requires Guarded(log) && status.(observedGeneration := 0) == Replay(log)
    requires job.name in SucceededJobs(log) && GetJobPhase(job) == Succeeded
    requires log[|log| - 1].run.jobName == job.name ==> log[|log| - 1].run.phase == Succeeded
    ensures !AlreadyRecorded(status, job) <==> log[|log| - 1].run.jobName != job.name
    ensures !AlreadyRecorded(status, job) ==>
              ShowsCount(RecordRun(status, BuildRun(job, pod), now).successCount, SuccessesIn(log) + 1)
  {
    hide *;
    SucceededJobsAreLogged(log, job.name);
    StatusHistory.CountedAgainIff(log, job, pod, now);
    RecordingCommutes(status, BuildRun(job, pod), now);
    SameLastRun(status, Replay(log), job);
  }

  lemma PickedIsListed(name: string, jobs: map<string, Job>, listed: seq<Job>)
    requires Lists(listed, jobs) && RelatedJobs(name, listed) != []
    ensures var job := LatestJob(RelatedJobs(name, listed)); job.name in jobs && jobs[job.name] == job
  {
    LatestIsListed(RelatedJobs(name, listed));
    hide LatestJob;
  }

  lemma SameLastRun(a: Status, b: Status, job: Job)
    requires a.lastRun == b.lastRun
    ensures AlreadyRecorded(a, job) <==> AlreadyRecorded(b, job)
  {}

  lemma LastIsGoneOrTies(name: string, jobs: map<string, Job>, ever: map<string, int>, log: seq<Entry>,
                         listed: seq<Job>, i: nat)
    requires JobsKnown(name, jobs, ever) && AllKnown(name, jobs, ever, log) && LastIsNewest(jobs, log)
    requires Lists(listed, jobs) && RelatedJobs(name, listed) != []
    requires i < |log| && log[i].run.jobName == LatestJob(RelatedJobs(name, listed)).name
    ensures var last := log[|log| - 1].run.jobName;
            last !in jobs || jobs[last].created == LatestJob(RelatedJobs(name, listed)).created
  {
    var related, last := RelatedJobs(name, listed), log[|log| - 1];
    LatestIsListed(related);
    var job := LatestJob(related);
    assert job in related && job in listed;
    hide LatestJob, RelatedTo;
    assert log[i] in log && last in log;
    assert EntryKnown(name, jobs, ever, log[i]) && EntryKnown(name, jobs, ever, last);
    if last.run.jobName in jobs {
      assert jobs[last.run.jobName] in listed && jobs[last.run.jobName] in related;
    }
  }

  // ----- Both happen -----

  lemma ThreeEntries(s: State, steps: seq<Step>, a: Entry, b: Entry, c: Entry)
    requires Init(s) && ValidRun(s, steps) && After(s, steps).hist.log == [a, b, c]
    requires a.run.phase == Succeeded && !Terminal(b.run.phase) && c.run.phase == Succeeded
    requires a.run.jobName == c.run.jobName
    ensures After(s, steps).objects.backup.status.successCount == 2
    ensures SucceededJobs(After(s, steps).hist.log) == {a.run.jobName}
  {
    StoredStatusSummarisesLog(s, steps);
    hide SuccessesIn, Init, ValidRun, After, BoundedRun, WellFormed, TrailingFailures;
    assert [a, b, c] == ([] + [a]) + [b] + [c];
    SuccessesStep([], a);
    SuccessesStep([] + [a], b);
    SuccessesStep([] + [a] + [b], c);
    NoSuccesses();
  }

  lemma NoSuccesses()
    ensures SuccessesIn([]) == 0
  {}

  lemma SuccessesStep(log: seq<Entry>, e: Entry)
    ensures SuccessesIn(log + [e]) == SuccessesIn(log) + if e.run.phase == Succeeded then 1 else 0
  {
    assert (log + [e])[..|log|] == log;
  }

  /** A removal: `old'` is counted, the newer `new'` is recorded and removed, and `old'` is counted again. */
  lemma RemovalCountsTwice(s: State, old': Job, new': Job) returns (steps: seq<Step>)
    requires Init(s) && Judge(s.objects.backup.spec) == Accepted && s.objects.jobs == map[old'.name := old']
    requires RelatedTo(s.name, old'.name) && GetJobPhase(old') == Succeeded
    requires RelatedTo(s.name, new'.name) && !Terminal(GetJobPhase(new'))
    requires new'.name != old'.name && new'.created > old'.created
    ensures ValidRun(s, steps)
    ensures After(s, steps).objects.backup.status.successCount == 2
    ensures SucceededJobs(After(s, steps).hist.log) == {old'.name}
  {
    steps := NewerIsRecorded(s, old', new');
    hide Judge, After, ValidRun, RelatedTo, Init, GetJobPhase, MessageOf, LogsOf, Lists, LatestJob, ActOnce, Terminal;
    RunExtends(s, steps, RemoveJob(new'.name));
    steps := steps + [RemoveJob(new'.name)];
    assert After(s, steps).objects.jobs == map[old'.name := old'];
    ListsOne(old');
    steps := RecordNext(s, steps, [old'], old');
    var log := After(s, steps).hist.log;
    assert |log| == 3 && log == [log[0], log[1], log[2]];
    ThreeEntries(s, steps, log[0], log[1], log[2]);
  }

  /** The first half: both Jobs are recorded in turn. */
  lemma NewerIsRecorded(s: State, old': Job, new': Job) returns (steps: seq<Step>)
    requires Init(s) && Judge(s.objects.backup.spec) == Accepted && s.objects.jobs == map[old'.name := old']
    requires RelatedTo(s.name, old'.name) && RelatedTo(s.name, new'.name)
    requires new'.name != old'.name && new'.created > old'.created
    ensures ValidRun(s, steps)
    ensures var s' := After(s, steps);
            && s'.pc.Idle? && Settled(s') && s'.name == s.name
            && s'.objects.jobs == map[old'.name := old', new'.name := new']
            && s'.objects.backup.status.lastRun.Some? && s'.objects.backup.status.lastRun.value.jobName == new'.name
            && |s'.hist.log| == 2
            && s'.hist.log[0].run == BuildRun(old', NoClientset) && s'.hist.log[1].run == BuildRun(new', NoClientset)
  {
    hide Judge, After, ValidRun, RelatedTo, Init, BuildRun, Lists, LatestJob, ActOnce;
    steps := CreationIsRecorded(s);
    ListsOne(old');
    steps := RecordNext(s, steps, [old'], old');
    RunExtends(s, steps, AddJob(new'));
    steps := steps + [AddJob(new')];
    ListsTwo(old', new');
    steps := RecordNext(s, steps, [old', new'], new');
  }

  /** A tie: two Jobs of one second, listed in changing order. */
  lemma TieCountsTwice(s: State, one: Job, two: Job) returns (steps: seq<Step>)
    requires Init(s) && Judge(s.objects.backup.spec) == Accepted
    requires s.objects.jobs == map[one.name := one, two.name := two]
    requires RelatedTo(s.name, one.name) && GetJobPhase(one) == Succeeded
    requires RelatedTo(s.name, two.name) && !Terminal(GetJobPhase(two))
    requires one.name != two.name && one.created == two.created
    ensures ValidRun(s, steps)
    ensures After(s, steps).objects.backup.status.successCount == 2
    ensures SucceededJobs(After(s, steps).hist.log) == {one.name}
  {
    hide Judge, After, ValidRun, RelatedTo, Init, GetJobPhase, MessageOf, LogsOf;
    steps := CreationIsRecorded(s);
    ListsTwo(one, two);
    ListsTwo(two, one);
    assert map[one.name := one, two.name := two] == map[two.name := two, one.name := one];
    steps := RecordNext(s, steps, [one, two], one);
    steps := RecordNext(s, steps, [two, one], two);
    steps := RecordNext(s, steps, [one, two], one);
    var log := After(s, steps).hist.log;
    assert |log| == 3 && log == [log[0], log[1], log[2]];
    ThreeEntries(s, steps, log[0], log[1], log[2]);
  }

  lemma ListsOne(job: Job)
    ensures Lists([job], map[job.name := job]) && LatestJob([job]) == job
  {}

  lemma ListsTwo(a: Job, b: Job)
    requires a.name != b.name
    ensures Lists([a, b], map[a.name := a, b.name := b])
    ensures LatestJob([a, b]) == if b.created > a.created then b else a
  {
    assert [a, b][..1] == [a];
  }

  /** One more reconcile that records the latest of these Jobs, all related. */
  lemma RecordNext(start: State, steps: seq<Step>, listed: seq<Job>, job: Job) returns (steps': seq<Step>)
    requires ValidRun(start, steps)
    requires var s := After(start, steps);
             && s.pc.Idle? && Settled(s) && Lists(listed, s.objects.jobs)
             && (s.objects.backup.status.lastRun.Some? ==> s.objects.backup.status.lastRun.value.jobName != job.name)
             && forall j :: j in listed ==> RelatedTo(s.name, j.name)
    requires 1 <= |listed| <= 2 && LatestJob(listed) == job
    ensures ValidRun(start, steps')
    ensures var s, s' := After(start, steps), After(start, steps');
            && s'.pc.Idle? && Settled(s') && SameScene(s, s')
            && s'.objects.backup.status.lastRun.Some? && s'.objects.backup.status.lastRun.value.jobName == job.name
            && s'.hist.log == s.hist.log + [Entry(BuildRun(job, NoClientset), job.created, s.objects.clock)]
  {
    var s := After(start, steps);
    AllRelated(s.name, listed);
    hide Judge, After, ValidRun, RelatedTo, GetJobPhase, MessageOf, LogsOf, LatestJob, Lists, Settled, SameScene;
    var more := LatestCanBeRecorded(s, listed);
    RunsCompose(start, steps, more);
    steps' := steps + more;
  }

  lemma {:induction false} AllRelated(name: string, listed: seq<Job>)
    requires forall j :: j in listed ==> RelatedTo(name, j.name)
    ensures RelatedJobs(name, listed) == listed
  {
    if listed != [] {
      var front, last := listed[..|listed| - 1], listed[|listed| - 1];
      assert forall j :: j in front ==> j in listed;
      AllRelated(name, front);
      assert RelatedTo(name, last.name) && listed == front + [last];
      hide RelatedTo;
    }
  }
}
