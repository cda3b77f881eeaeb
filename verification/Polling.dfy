/** What interrupted and repeated reconciles record of the latest Job, and when they ask to be run again.
    A Job whose CronJob was deleted has no owner and sends no event, so only polling brings its end into
    the status. */
module Polling {
  import opened Wrappers
  import opened Jobs
  import opened RunStatus
  import opened Cluster
  import opened Reconciler
  import opened Generations
  import opened OneReconcile

  // ----- When a reconcile asks for another -----

  /** A reconcile of a live Backup that ended without error or conflict and without the two-second retry
      asks to be run again exactly when the stored status shows an unfinished run. */
  ghost predicate PollsExactly(s: State) {
    s.objects.life == Alive && s.pc.Idle? && s.pc.last.Done? && !s.pc.last.conflicted ==>
      || s.pc.last.requeueAfter == 2
      || s.pc.last.requeueAfter == if Polls(StatusOf(s)) then 30 else 0
  }

  ghost predicate PolledInv(s: State) {
    && PollsExactly(s)
    && (s.pc.ListingJobs? || s.pc.UpdatingStatus? ==> s.pc.requeue == 0 || s.pc.requeue == RETRY_SECONDS)
  }

  lemma ListJobsKeepsPolled(s: State, input: Input)
    requires Inv(s) && PolledInv(s) && s.pc.ListingJobs?
    ensures PolledInv(ListJobs(s, input))
  {
    hide RelatedJobs, LatestJob, AlreadyRecorded, BuildRun, Sandwich, PcPromises;
  }

  lemma StoreStatusKeepsPolled(s: State, input: Input, status: Status)
    requires PolledInv(s) && s.pc.UpdatingStatus?
    ensures PolledInv(StoreStatus(s, input, status))
  {}

  lemma OtherCallsKeepPolled(s: State, input: Input)
    requires PolledInv(s) && !s.pc.ListingJobs? && !s.pc.UpdatingStatus?
    ensures PolledInv(ActOnce(s, input))
  {
    hide Judge, AnyUnfinished, ManualJobName;
  }

  lemma StepKeepsPolled(s: State, step: Step)
    requires Inv(s) && PolledInv(s) && Enabled(s, step)
    ensures PolledInv(Apply(s, step))
  {
    if step.Act? {
      hide Inv, PolledInv;
      if s.pc.ListingJobs? {
        ListJobsKeepsPolled(s, step.input);
      } else if s.pc.UpdatingStatus? {
        StoreStatusKeepsPolled(s, step.input, RecordRun(s.pc.b.status, s.pc.run, s.pc.at));
      } else {
        OtherCallsKeepPolled(s, step.input);
      }
    }
  }

  lemma {:induction false} RunKeepsPolled(s: State, steps: seq<Step>)
    requires Inv(s) && PolledInv(s) && ValidRun(s, steps)
    ensures PolledInv(After(s, steps))
    decreases |steps|
  {
    if steps != [] {
      StepKeepsPolled(s, steps[0]);
      StepPays(s, steps[0]);
      hide Inv, PolledInv;
      RunKeepsPolled(Apply(s, steps[0]), steps[1..]);
    }
  }

  /** In every reachable state. In particular an unfinished run in the status is polled. */
  lemma UnfinishedRunIsPolled(s: State, steps: seq<Step>)
    requires Init(s) && ValidRun(s, steps)
    ensures PollsExactly(After(s, steps))
  {
    InitInv(s);
    RunKeepsPolled(s, steps);
  }

  /** With a conflict the promise fails exactly when the update that was rejected would have recorded
      the end of the run: the controller polls by its in-memory status, not by the stored one. A
      conflict means the Backup was written since it was read, so a watch event is still to come. */
  lemma ConflictAbandonsIff(s: State, input: Input)
    requires Inv(s) && s.pc.UpdatingStatus? && s.objects.life != Gone && input.reply == Ok
    requires Polls(StatusOf(s)) && s.pc.requeue == 0
    ensures var s' := ActOnce(s, input);
            && s'.pc.Idle? && s'.pc.last.Done?
            && (Polls(StatusOf(s')) && s'.pc.last.requeueAfter == 0 <==>
                  s.pc.b.resourceVersion != s.objects.backup.resourceVersion && Terminal(s.pc.run.phase))
  {
    hide AddToRecentRuns, CountsRun, Sandwich, PcPromises;
  }

  // ----- What is recorded of the latest Job -----

  /** `n` is the newest of the related Jobs there are. */
  ghost predicate IsLatest(s: State, n: string) {
    var jobs := s.objects.jobs;
    && n in jobs && jobs[n].name == n && RelatedTo(s.name, n)
    && forall m :: m in jobs && m != n && RelatedTo(s.name, m) ==> jobs[m].created < jobs[n].created
  }

  /** A live Backup whose newest related Job is `n`, and shows a terminal phase or not. */
  ghost predicate LatestShows(s: State, n: string, ended: bool) {
    s.objects.life == Alive && IsLatest(s, n) && Terminal(GetJobPhase(s.objects.jobs[n])) == ended
  }

  ghost predicate AlwaysShows(s: State, steps: seq<Step>, n: string, ended: bool)
    requires ValidRun(s, steps)
    decreases |steps|
  {
    LatestShows(s, n, ended) && (steps == [] || AlwaysShows(Apply(s, steps[0]), steps[1..], n, ended))
  }

  ghost predicate Records(status: Status, n: string, ended: bool) {
    && status.lastRun.Some? && status.lastRun.value.jobName == n
    && Terminal(status.lastRun.value.phase) == ended
  }

  /** The Jobs have not been listed for the status yet, and no reconcile has ended without error. */
  predicate BeforeListing(pc: Pc) {
    !pc.UpdatingStatus? && (pc.Idle? ==> !pc.last.Done?)
  }

  /** An update in flight is about `n`, and a reconcile that ended well has recorded it. */
  ghost predicate LatestInv(s: State, n: string, ended: bool) {
    && (s.pc.UpdatingStatus? ==> s.pc.run.jobName == n && Terminal(s.pc.run.phase) == ended)
    && (s.pc.Idle? && s.pc.last.Done? && !s.pc.last.conflicted ==> Records(StatusOf(s), n, ended))
  }

  lemma LatestIsPicked(s: State, n: string, listed: seq<Job>)
    requires IsLatest(s, n) && Lists(listed, s.objects.jobs)
    ensures RelatedJobs(s.name, listed) != [] && LatestJob(RelatedJobs(s.name, listed)) == s.objects.jobs[n]
  {
    var related := RelatedJobs(s.name, listed);
    assert s.objects.jobs[n] in listed && s.objects.jobs[n] in related;
    hide RelatedTo, RelatedJobs, LatestJob;
    LatestIsListed(related);
    assert LatestJob(related) in listed;
  }

  lemma ListJobsKeepsLatest(s: State, n: string, ended: bool, input: Input)
    requires MemoryFollows(s) && s.pc.ListingJobs? && LatestShows(s, n, ended) && Lists(input.listed, s.objects.jobs)
    ensures LatestInv(ListJobs(s, input), n, ended)
  {
    LatestIsPicked(s, n, input.listed);
    hide IsLatest, RelatedJobs, LatestJob, GetJobPhase, MessageOf, LogsOf, Terminal, Polls, Lists;
  }

  lemma StoreStatusKeepsLatest(s: State, n: string, ended: bool, input: Input, status: Status)
    requires LatestInv(s, n, ended) && s.pc.UpdatingStatus? && status.lastRun == Some(s.pc.run)
    ensures LatestInv(StoreStatus(s, input, status), n, ended)
  {}

  lemma OtherCallsKeepLatest(s: State, n: string, ended: bool, input: Input)
    requires LatestInv(s, n, ended) && s.objects.life == Alive && !s.pc.ListingJobs? && !s.pc.UpdatingStatus?
    ensures LatestInv(ActOnce(s, input), n, ended)
  {
    hide Judge, AnyUnfinished, ManualJobName, Records;
  }

  lemma StepKeepsLatest(s: State, n: string, ended: bool, step: Step)
    requires Inv(s) && LatestInv(s, n, ended) && LatestShows(s, n, ended) && Enabled(s, step)
    ensures LatestInv(Apply(s, step), n, ended)
  {
    if step.Act? {
      hide LatestInv, LatestShows;
      if s.pc.ListingJobs? {
        ListJobsKeepsLatest(s, n, ended, step.input);
      } else if s.pc.UpdatingStatus? {
        StoreStatusKeepsLatest(s, n, ended, step.input, RecordRun(s.pc.b.status, s.pc.run, s.pc.at));
      } else {
        assert s.objects.life == Alive by { ShowsMeansAlive(s, n, ended); }
        OtherCallsKeepLatest(s, n, ended, step.input);
      }
    }
  }

  lemma ShowsMeansAlive(s: State, n: string, ended: bool)
    requires LatestShows(s, n, ended)
    ensures s.objects.life == Alive
  {}

  lemma {:induction false} RunKeepsLatest(s: State, steps: seq<Step>, n: string, ended: bool)
    requires Inv(s) && LatestInv(s, n, ended) && ValidRun(s, steps) && AlwaysShows(s, steps, n, ended)
    ensures LatestInv(After(s, steps), n, ended) && LatestShows(After(s, steps), n, ended)
    decreases |steps|
  {
    if steps != [] {
      StepKeepsLatest(s, n, ended, steps[0]);
      StepPays(s, steps[0]);
      hide Inv, LatestInv, LatestShows;
      RunKeepsLatest(Apply(s, steps[0]), steps[1..], n, ended);
    }
  }

  /** The first reconcile after the newest run finished records its end: from any reachable state, while
      Job `n` stays the newest and shows a terminal phase (or shows none), every reconcile that ends
      without error or conflict leaves a status that shows `n` with a terminal phase (or without). Failed calls, lost replies, crashes, edits and
      whatever happens to other Jobs make no difference, and neither does the Job's owner. */
  lemma LatestRunIsRecorded(s: State, past: seq<Step>, steps: seq<Step>, n: string, ended: bool)
    requires Init(s) && ValidRun(s, past) && BeforeListing(After(s, past).pc)
    requires ValidRun(After(s, past), steps) && AlwaysShows(After(s, past), steps, n, ended)
    ensures var s' := After(After(s, past), steps);
            s'.pc.Idle? && s'.pc.last.Done? && !s'.pc.last.conflicted ==> Records(StatusOf(s'), n, ended)
  {
    InitInv(s);
    RunKeepsInv(s, past);
    RunKeepsLatest(After(s, past), steps, n, ended);
  }

  // ----- The phase decides, not the conditions -----

  /** When the newest Job is polled, exactly and through all interleavings. While Job `n` stays the newest
      and either always or never has a Pod that ended, a reconcile that ends without error, conflict or
      two-second retry leaves it unpolled if and only if one has ended. So a Job in progress is unpolled
      exactly when it is masked, active Pod or not, and a Job that is over is polled exactly when it is a
      phantom. */
  lemma UnpolledIff(s: State, past: seq<Step>, steps: seq<Step>, n: string, ended: bool)
    requires Init(s) && ValidRun(s, past) && BeforeListing(After(s, past).pc)
    requires ValidRun(After(s, past), steps) && AlwaysShows(After(s, past), steps, n, ended)
    ensures var s' := After(After(s, past), steps);
            n in s'.objects.jobs &&
            var job := s'.objects.jobs[n];
            s'.pc.Idle? && s'.pc.last.Done? && !s'.pc.last.conflicted && s'.pc.last.requeueAfter != RETRY_SECONDS ==>
              && (s'.pc.last.requeueAfter == 0 <==> PodEnded(job))
              && (HasWork(job) ==> (s'.pc.last.requeueAfter == 0 <==> Masked(job)))
              && (!HasWork(job) ==> (s'.pc.last.requeueAfter > 0 <==> Phantom(job)))
  {
    var s1 := After(s, past);
    LatestRunIsRecorded(s, past, steps, n, ended);
    RunsCompose(s, past, steps);
    UnfinishedRunIsPolled(s, past + steps);
    InitInv(s);
    RunKeepsInv(s, past);
    RunKeepsLatest(s1, steps, n, ended);
    hide Init, ValidRun, After, AlwaysShows, BeforeListing, HasWork, Inv, TagsMatch, LatestInv;
  }

  /** So it happens in a plain reconcile. With the generation recorded and the latest Job in progress after
      a Pod of it ended, nothing asks for another reconcile, and the Job's later success waits for an event. */
  lemma RetryingRunIsNotPolled(s: State, view: View)
    requires s.pc.Idle? && s.objects.life == Alive && Judge(s.objects.backup.spec) == Accepted
    requires s.objects.cronJob.Some? && StatusOf(s).observedGeneration == s.objects.backup.generation
    requires RelatedJobs(s.name, view.listed) != [] && Masked(LatestJob(RelatedJobs(s.name, view.listed)))
    ensures ReconcileOnce(s, view).pc == Idle(Done(0, false))
  {
    hide Judge, ReconcileOnce, RelatedJobs, LatestJob, HasWork;
    NothingToBuild(s, view);
  }
}
