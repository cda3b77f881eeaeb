/** Jobs as the controller sees them: the phase computed from a Job's counters, the name-prefix
    filter that relates a Job to a Backup, and the search for the most recent Job. */
module Jobs {
  import opened Wrappers

  /** The four values `getJobPhase` can return. */
  datatype Phase = Pending | Running | Succeeded | Failed

  datatype ConditionType = JobComplete | JobFailed | OtherCondition

  datatype Condition = Condition(kind: ConditionType, isTrue: bool, message: string)

  datatype OwnerRef = OwnerRef(kind: string, name: string)

  /** A batch/v1 Job. Times are in whole seconds, the resolution the API server stores. */
  datatype Job = Job(
    name: string,
    created: int,
    owners: seq<OwnerRef>,
    succeeded: int,
    failed: int,
    active: int,
    startTime: Option<int>,
    completionTime: Option<int>,
    conditions: seq<Condition>)

  function GetJobPhase(job: Job): Phase {
    if job.succeeded > 0 then Succeeded
    else if job.failed > 0 then Failed
    else if job.active > 0 then Running
    else Pending
  }

  /** Each phase in terms of the counters. */
  lemma PhaseMeans(job: Job)
    ensures GetJobPhase(job) == Succeeded <==> job.succeeded > 0
    ensures GetJobPhase(job) == Failed <==> job.succeeded <= 0 && job.failed > 0
    ensures GetJobPhase(job) == Running <==> !PodEnded(job) && job.active > 0
    ensures GetJobPhase(job) == Pending <==> !PodEnded(job) && job.active <= 0
  {}

  predicate Terminal(p: Phase) {
    p == Succeeded || p == Failed
  }

  predicate Unfinished(p: Phase) {
    p == Running || p == Pending
  }

  /** A condition that says the Job is over. */
  predicate EndsJob(c: Condition) {
    (c.kind == JobComplete || c.kind == JobFailed) && c.isTrue
  }

  predicate Over(job: Job) {
    exists c :: c in job.conditions && EndsJob(c)
  }

  predicate PodEnded(job: Job) {
    job.succeeded > 0 || job.failed > 0
  }

  /** The Job is in progress: one of its Pods runs, or it is not over, be it waiting for its first Pod or
      in the pause before the next. */
  predicate HasWork(job: Job) {
    job.active > 0 || !Over(job)
  }

  /** In progress, but some Pod of it has ended, as in a retry: the phase looks at that first. */
  predicate Masked(job: Job) {
    HasWork(job) && PodEnded(job)
  }

  /** Not in progress, although no Pod of it ever ended: the phase goes on saying Pending. */
  predicate Phantom(job: Job) {
    !HasWork(job) && !PodEnded(job)
  }

  /** The phase tells whether the Job is in progress exactly for the Jobs that are neither. */
  lemma PhaseShowsWorkIff(job: Job)
    ensures (Unfinished(GetJobPhase(job)) <==> HasWork(job)) <==> !Masked(job) && !Phantom(job)
    ensures Unfinished(GetJobPhase(job)) <==> !PodEnded(job)
  {}

  /** The phases a Job may still show after it has shown `p`, as long as its Succeeded and Failed
      counters never go down. Failed outranks Running, so a retried Job can go from Failed to
      Succeeded, but nothing leads out of Succeeded. */
  predicate CanFollow(p: Phase, q: Phase) {
    match p
    case Succeeded => q == Succeeded
    case Failed => Terminal(q)
    case _ => true
  }

  lemma PhaseFollowsCounters(before: Job, after: Job)
    requires before.succeeded <= after.succeeded && before.failed <= after.failed
    ensures CanFollow(GetJobPhase(before), GetJobPhase(after))
  {}

  /** `strings.HasPrefix`. */
  predicate HasPrefix(s: string, prefix: string) {
    |prefix| <= |s| && s[..|prefix|] == prefix
  }

  /** The filter of `hasRunningBackupJob` and `reconcileJobStatus`. */
  predicate RelatedTo(backup: string, jobName: string) {
    HasPrefix(jobName, backup + "-")
  }

  function RelatedJobs(backup: string, jobs: seq<Job>): (r: seq<Job>)
    ensures forall j :: j in r <==> j in jobs && RelatedTo(backup, j.name)
  {
    if jobs == [] then []
    else
      var rest := RelatedJobs(backup, jobs[..|jobs| - 1]);
      var last := jobs[|jobs| - 1];
      assert jobs == jobs[..|jobs| - 1] + [last];
      if RelatedTo(backup, last.name) then rest + [last] else rest
  }

  predicate AnyUnfinished(backup: string, jobs: seq<Job>) {
    exists j :: j in jobs && RelatedTo(backup, j.name) && Unfinished(GetJobPhase(j))
  }

  /** The first of the most recently created Jobs, in list order. */
  function LatestJob(jobs: seq<Job>): Job
    requires jobs != []
  {
    var last := jobs[|jobs| - 1];
    if |jobs| == 1 then last
    else
      var best := LatestJob(jobs[..|jobs| - 1]);
      if last.created > best.created then last else best
  }

  /** Nothing is newer than entry `i`, and everything listed earlier is strictly older. */
  predicate FirstMaximum(jobs: seq<Job>, i: int) {
    && 0 <= i < |jobs|
    && (forall k :: 0 <= k < |jobs| ==> jobs[k].created <= jobs[i].created)
    && (forall k :: 0 <= k < i ==> jobs[k].created < jobs[i].created)
  }

  lemma MaximumExtends(front: seq<Job>, i: int, last: Job)
    requires FirstMaximum(front, i) && LatestJob(front) == front[i]
    ensures var jobs, k := front + [last], if last.created > front[i].created then |front| else i;
            FirstMaximum(jobs, k) && LatestJob(jobs) == jobs[k]
  {
    assert (front + [last])[..|front|] == front;
  }

  /** What `LatestJob` means. */
  lemma {:induction false} LatestIsFirstMaximum(jobs: seq<Job>)
    requires jobs != []
    ensures exists i :: FirstMaximum(jobs, i) && LatestJob(jobs) == jobs[i]
  {
    if |jobs| == 1 {
      assert FirstMaximum(jobs, 0);
    } else {
      hide FirstMaximum, LatestJob;
      var front, last := jobs[..|jobs| - 1], jobs[|jobs| - 1];
      assert jobs == front + [last];
      LatestIsFirstMaximum(front);
      var i :| FirstMaximum(front, i) && LatestJob(front) == front[i];
      MaximumExtends(front, i, last);
    }
  }

  lemma LatestIsListed(jobs: seq<Job>)
    requires jobs != []
    ensures LatestJob(jobs) in jobs
    ensures forall j :: j in jobs ==> j.created <= LatestJob(jobs).created
  {
    LatestIsFirstMaximum(jobs);
  }

  /** The filter loop of `reconcileJobStatus`. */
  method FilterRelated(backup: string, jobs: seq<Job>) returns (related: seq<Job>)
    ensures related == RelatedJobs(backup, jobs)
  {
    related := [];
    for i := 0 to |jobs|
      invariant related == RelatedJobs(backup, jobs[..i])
    {
      assert jobs[..i + 1][..i] == jobs[..i];
      if RelatedTo(backup, jobs[i].name) {
        related := related + [jobs[i]];
      }
    }
    assert jobs[..|jobs|] == jobs;
  }

  /** The maximum loop of `reconcileJobStatus`. */
  method FindLatest(jobs: seq<Job>) returns (latest: Option<Job>)
    ensures latest.None? <==> jobs == []
    ensures jobs != [] ==> latest == Some(LatestJob(jobs))
  {
    latest := None;
    for i := 0 to |jobs|
      invariant latest.None? <==> i == 0
      invariant i > 0 ==> latest == Some(LatestJob(jobs[..i]))
    {
      assert jobs[..i + 1][..i] == jobs[..i];
      if latest.None? || jobs[i].created > latest.value.created {
        latest := Some(jobs[i]);
      }
    }
    assert jobs[..|jobs|] == jobs;
  }

  /** The scan of `hasRunningBackupJob`, with its early return. */
  method HasUnfinished(backup: string, jobs: seq<Job>) returns (found: bool)
    ensures found <==> AnyUnfinished(backup, jobs)
  {
    for i := 0 to |jobs|
      invariant !AnyUnfinished(backup, jobs[..i])
    {
      if RelatedTo(backup, jobs[i].name) && Unfinished(GetJobPhase(jobs[i])) {
        return true;
      }
      assert jobs[..i + 1] == jobs[..i] + [jobs[i]];
    }
    assert jobs[..|jobs|] == jobs;
    return false;
  }
}
