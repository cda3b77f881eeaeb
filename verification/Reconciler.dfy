/** `Reconcile` as a program counter over its API calls. Between two calls the environment may do
    anything an EnvStep allows; a call may succeed, fail, or be applied and still report an error;
    and the controller may crash before any call. A run is a sequence of steps. */
module Reconciler {
  import opened Wrappers
  import opened Jobs
  import opened RunStatus
  import opened StatusHistory
  import opened Cluster

  /** How the previous reconcile ended. */
  datatype Outcome =
    | NotStarted
    | Done(requeueAfter: nat, conflicted: bool)
    | Errored
    | Crashed

  /** The next API call and the local variables it needs. `b` is the in-memory Backup. */
  datatype Pc =
    | Idle(last: Outcome)
    | GettingCronJob(b: Backup)
    | WritingSecret(b: Backup, update: bool)
    | DeletingCronJob(b: Backup)
    | CreatingCronJob(b: Backup, update: bool)
    | ListingRunning(b: Backup)
    | StartingManualJob(b: Backup)
    | RecordingGeneration(b: Backup)
    | ListingJobs(b: Backup, requeue: nat)
    | UpdatingStatus(b: Backup, run: Run, created: int, at: int, requeue: nat)

  /** History variables: nothing the controller does depends on them. `secretLost` says that someone
      deleted the Secret after it was last written. */
  datatype Hist = Hist(
    specs: seq<Spec>,
    log: seq<Entry>,
    updateCreates: nat,
    manualJobs: nat,
    broken: nat,
    writes: nat,
    secretLost: bool,
    ever: map<string, int>)

  datatype State = State(name: string, objects: Objects, pc: Pc, hist: Hist)

  datatype Reply = Ok | Fail | LostReply

  /** What the outside world contributes to one call. */
  datatype Input = Input(reply: Reply, listed: seq<Job>, pod: PodLogs)

  datatype Step =
    | Act(input: Input)
    | Crash
    | Edit(spec: Spec)
    | Touch
    | MarkDeleting
    | RemoveBackup
    | AddJob(job: Job)
    | SetJob(job: Job)
    | RemoveJob(jobName: string)
    | StartCronJobDeletion
    | FinishCronJobDeletion
    | DropCronJob
    | DropSecret
    | Tick(seconds: nat)

  const RETRY_SECONDS: nat := 2
  const POLL_SECONDS: nat := 30

  // ----- The controller's side of each call -----

  function Goto(s: State, pc: Pc): State {
    s.(pc := pc)
  }

  function FailReconcile(s: State): State {
    s.(pc := Idle(Errored), hist := s.hist.(broken := s.hist.broken + 1))
  }

  function CountWrite(s: State): State {
    s.(hist := s.hist.(writes := s.hist.writes + 1))
  }

  /** The end of Reconcile: poll while the in-memory LastRun is unfinished. */
  function Finished(status: Status, requeue: nat, conflicted: bool): Pc {
    Idle(Done(if Polls(status) && requeue == 0 then POLL_SECONDS else requeue, conflicted))
  }

  predicate Polls(status: Status) {
    status.lastRun.Some? && Unfinished(status.lastRun.value.phase)
  }

  function GetBackup(s: State, input: Input): State {
    if input.reply != Ok then FailReconcile(s)
    else if s.objects.life != Alive then Goto(s, Idle(Done(0, false)))
    else Goto(s, GettingCronJob(s.objects.backup))
  }

  function GetCronJob(s: State, input: Input): State
    requires s.pc.GettingCronJob?
  {
    if input.reply != Ok then FailReconcile(s) else Route(s, Judge(s.pc.b.spec))
  }

  function Route(s: State, verdict: Verdict): State
    requires s.pc.GettingCronJob?
  {
    if verdict == Invalid then FailReconcile(s) else Goto(s, Routed(s.pc.b, verdict, s.objects.cronJob.Some?))
  }

  /** The checks at the top of both handlers, and the update path's generation test. */
  function Routed(b: Backup, verdict: Verdict, found: bool): Pc {
    match verdict
    case Ignored => ListingJobs(b, 0)
    case Invalid => Idle(Errored)
    case Accepted =>
      if !found then WritingSecret(b, false)
      else if b.generation == b.status.observedGeneration then ListingJobs(b, 0)
      else WritingSecret(b, true)
  }

  function WriteSecret(s: State, input: Input): State
    requires s.pc.WritingSecret?
  {
    var b := s.pc.b;
    if input.reply == Fail then FailReconcile(CountWrite(s))
    else
      var s' := s.(objects := s.objects.(secret := Some(ConfigSecret(b.generation, b.spec))),
      hist := s.hist.(writes := s.hist.writes + 1, secretLost := false));
      if input.reply == LostReply then FailReconcile(s')
      else if s.pc.update then Goto(s', DeletingCronJob(b))
      else Goto(s', CreatingCronJob(b, false))
  }

  /** Orphan deletion only marks the CronJob; it is gone once its Jobs have been orphaned. */
  function DeleteCronJob(s: State, input: Input): State
    requires s.pc.DeletingCronJob?
  {
    var b := s.pc.b;
    if input.reply == Fail then FailReconcile(CountWrite(s))
    else
      var gone := if s.objects.cronJob.None? then None
                  else Some(s.objects.cronJob.value.(terminating := true));
      var s' := CountWrite(s).(objects := s.objects.(cronJob := gone));
      if input.reply == LostReply then FailReconcile(s')
      else Goto(s', CreatingCronJob(b, true))
  }

  function AfterCreate(b: Backup): Pc {
    if b.status.observedGeneration == b.generation then ListingJobs(b, 0) else RecordingGeneration(b)
  }

  function CreateCronJob(s: State, input: Input): State
    requires s.pc.CreatingCronJob?
  {
    var b, update := s.pc.b, s.pc.update;
    if input.reply == Fail then FailReconcile(CountWrite(s))
    else if s.objects.cronJob.Some? then
      // AlreadyExists: only the update path treats it as a reason to come back.
      if update && input.reply == Ok then Goto(CountWrite(s), ListingJobs(b, RETRY_SECONDS))
      else FailReconcile(CountWrite(s))
    else
      var s' := CountWrite(s).(objects := s.objects.(
        cronJob := Some(CronJob(b.generation, BuildCronJobSpec(b.spec), false))));
      var s'' := if update then s'.(hist := s'.hist.(updateCreates := s'.hist.updateCreates + 1)) else s';
      if input.reply == LostReply then FailReconcile(s'')
      else if update then Goto(s'', ListingRunning(b))
      else Goto(s'', AfterCreate(b))
  }

  function ListRunning(s: State, input: Input): State
    requires s.pc.ListingRunning?
  {
    var b := s.pc.b;
    if input.reply != Ok then FailReconcile(s)
    else if AnyUnfinished(s.name, input.listed) then Goto(s, AfterCreate(b))
    else Goto(s, StartingManualJob(b))
  }

  /** Every related Job that ever existed is remembered with its creation time. */
  function WithJob(s: State, job: Job): State {
    s.(objects := s.objects.(jobs := s.objects.jobs[job.name := job]),
    hist := if RelatedTo(s.name, job.name) then s.hist.(ever := s.hist.ever[job.name := job.created]) else s.hist)
  }

  function StartManualJob(s: State, input: Input): State
    requires s.pc.StartingManualJob?
  {
    LaunchJob(s, input, ManualJob(s.name, s.objects.clock))
  }

  function LaunchJob(s: State, input: Input, job: Job): State
    requires s.pc.StartingManualJob?
  {
    var b := s.pc.b;
    if input.reply == Fail || job.name in s.objects.jobs then FailReconcile(CountWrite(s))
    else
      var s' := WithJob(CountWrite(s), job);
      var s'' := s'.(hist := s'.hist.(manualJobs := s'.hist.manualJobs + 1));
      if input.reply == LostReply then FailReconcile(s'')
      else Goto(s'', AfterCreate(b))
  }

  /** The merge patch carries no resource version; its reply refreshes the in-memory Backup. */
  function RecordGeneration(s: State, input: Input): State
    requires s.pc.RecordingGeneration?
  {
    var b := s.pc.b;
    if input.reply == Fail || s.objects.life == Gone then FailReconcile(CountWrite(s))
    else
      var stored := s.objects.backup;
      var patched := WithStatus(stored, stored.status.(observedGeneration := b.generation));
      var s' := CountWrite(s).(objects := s.objects.(backup := patched));
      if input.reply == LostReply then FailReconcile(s')
      else Goto(s', ListingJobs(patched, 0))
  }

  function ListJobs(s: State, input: Input): State
    requires s.pc.ListingJobs?
  {
    if input.reply != Ok then FailReconcile(s)
    else Goto(s, AfterListing(s.name, s.pc.b, s.pc.requeue, input.listed, input.pod, s.objects.clock))
  }

  /** Where a list of Jobs leads. */
  function AfterListing(name: string, b: Backup, requeue: nat, listed: seq<Job>, pod: PodLogs, now: int): Pc {
    var related := RelatedJobs(name, listed);
    if related == [] || AlreadyRecorded(b.status, LatestJob(related)) then Finished(b.status, requeue, false)
    else
      var job := LatestJob(related);
      UpdatingStatus(b, BuildRun(job, pod), job.created, now, requeue)
  }

  /** The full status update is accepted only at the resource version that was read. */
  function UpdateStatus(s: State, input: Input): State
    requires s.pc.UpdatingStatus?
  {
    StoreStatus(s, input, RecordRun(s.pc.b.status, s.pc.run, s.pc.at))
  }

  function StoreStatus(s: State, input: Input, status: Status): State
    requires s.pc.UpdatingStatus?
  {
    var b, run, requeue := s.pc.b, s.pc.run, s.pc.requeue;
    var stored := s.objects.backup;
    if input.reply == Fail || s.objects.life == Gone then FailReconcile(CountWrite(s))
    else if b.resourceVersion != stored.resourceVersion then
      if input.reply == Ok then Goto(CountWrite(s), Finished(status, requeue, true))
      else FailReconcile(CountWrite(s))
    else
      var s' := CountWrite(s);
      var s'' := s'.(objects := s.objects.(backup := WithStatus(stored, status)),
      hist := s'.hist.(log := s'.hist.log + [Entry(run, s.pc.created, s.pc.at)]));
      if input.reply == LostReply then FailReconcile(s'')
      else Goto(s'', Finished(status, requeue, false))
  }

  function ActOnce(s: State, input: Input): State {
    match s.pc
    case Idle(_) => GetBackup(s, input)
    case GettingCronJob(_) => GetCronJob(s, input)
    case WritingSecret(_, _) => WriteSecret(s, input)
    case DeletingCronJob(_) => DeleteCronJob(s, input)
    case CreatingCronJob(_, _) => CreateCronJob(s, input)
    case ListingRunning(_) => ListRunning(s, input)
    case StartingManualJob(_) => StartManualJob(s, input)
    case RecordingGeneration(_) => RecordGeneration(s, input)
    case ListingJobs(_, _) => ListJobs(s, input)
    case UpdatingStatus(_, _, _, _, _) => UpdateStatus(s, input)
  }

  // ----- Steps and runs -----

  /** When an environment step can happen. */
  predicate Possible(o: Objects, step: Step) {
    match step
    case Act(_) => false
    case Crash => false
    case Edit(spec) => o.life != Gone && spec != o.backup.spec
    case Touch => o.life != Gone
    case MarkDeleting => o.life == Alive
    case RemoveBackup => o.life != Gone
    case AddJob(job) => job.name !in o.jobs
    case SetJob(job) => job.name in o.jobs && o.jobs[job.name].created == job.created
    case RemoveJob(n) => n in o.jobs
    case StartCronJobDeletion => o.cronJob.Some?
    case FinishCronJobDeletion => o.cronJob.Some? && o.cronJob.value.terminating
    case DropCronJob => o.cronJob.Some?
    case DropSecret => o.secret.Some?
    case Tick(_) => true
  }

  ghost predicate Enabled(s: State, step: Step) {
    match step
    case Act(input) => s.pc.ListingRunning? || s.pc.ListingJobs? ==> Lists(input.listed, s.objects.jobs)
    case Crash => !s.pc.Idle?
    case _ => Possible(s.objects, step)
  }

  function Apply(s: State, step: Step): State
    requires step.StartCronJobDeletion? ==> s.objects.cronJob.Some?
  {
    var o, b := s.objects, s.objects.backup;
    match step
    case Act(input) => ActOnce(s, input)
    case Crash => s.(pc := Idle(Crashed), hist := s.hist.(broken := s.hist.broken + 1))
    case Edit(spec) =>
      s.(objects := o.(backup := b.(spec := spec, generation := b.generation + 1,
                                    resourceVersion := b.resourceVersion + 1)),
      hist := s.hist.(specs := s.hist.specs + [spec]))
    case Touch => s.(objects := o.(backup := b.(resourceVersion := b.resourceVersion + 1)))
    case MarkDeleting =>
      s.(objects := o.(life := Deleting, backup := b.(resourceVersion := b.resourceVersion + 1)))
    case RemoveBackup => s.(objects := o.(life := Gone))
    case AddJob(job) => WithJob(s, job)
    case SetJob(job) => s.(objects := o.(jobs := o.jobs[job.name := job]))
    case RemoveJob(n) => s.(objects := o.(jobs := o.jobs - {n}))
    case StartCronJobDeletion => s.(objects := o.(cronJob := Some(o.cronJob.value.(terminating := true))))
    case FinishCronJobDeletion => s.(objects := o.(cronJob := None))
    case DropCronJob => s.(objects := o.(cronJob := None))
    case DropSecret => s.(objects := o.(secret := None), hist := s.hist.(secretLost := true))
    case Tick(n) => s.(objects := o.(clock := o.clock + n))
  }

  /** A new Backup: generation 1, empty status, nothing made from it yet. Jobs may already exist. */
  ghost predicate Init(s: State) {
    var o, h := s.objects, s.hist;
    && o.life == Alive
    && o.backup.generation == 1
    && o.backup.status == EMPTY_STATUS
    && o.cronJob.None? && o.secret.None?
    && s.pc == Idle(NotStarted)
    && h.specs == [o.backup.spec]
    && h.log == [] && h.updateCreates == 0 && h.manualJobs == 0 && h.broken == 0 && h.writes == 0
    && !h.secretLost
    && (forall n :: n in o.jobs ==> o.jobs[n].name == n)
    && (forall n :: n in h.ever <==> n in o.jobs && RelatedTo(s.name, n))
    && (forall n :: n in h.ever ==> h.ever[n] == o.jobs[n].created)
  }

  ghost predicate ValidRun(s: State, steps: seq<Step>)
    decreases |steps|
  {
    steps == [] || (Enabled(s, steps[0]) && ValidRun(Apply(s, steps[0]), steps[1..]))
  }

  /** The state a run ends in. */
  ghost function After(s: State, steps: seq<Step>): State
    requires ValidRun(s, steps)
    decreases |steps|
  {
    if steps == [] then s else After(Apply(s, steps[0]), steps[1..])
  }

  /** The reconciles begun in a run: the Get calls made from an idle state. */
  ghost function Begun(s: State, steps: seq<Step>): nat
    requires ValidRun(s, steps)
    decreases |steps|
  {
    if steps == [] then 0 else Begins(s, steps[0]) + Begun(Apply(s, steps[0]), steps[1..])
  }

  function Begins(s: State, step: Step): nat {
    if s.pc.Idle? && step.Act? then 1 else 0
  }

  lemma {:induction false} RunsCompose(s: State, a: seq<Step>, b: seq<Step>)
    requires ValidRun(s, a) && ValidRun(After(s, a), b)
    ensures ValidRun(s, a + b) && After(s, a + b) == After(After(s, a), b)
    ensures Begun(s, a + b) == Begun(s, a) + Begun(After(s, a), b)
    decreases |a|
  {
    hide Apply;
    if a == [] {
      assert a + b == b;
    } else {
      RunsCompose(Apply(s, a[0]), a[1..], b);
      assert (a + b)[0] == a[0] && (a + b)[1..] == a[1..] + b;
    }
  }

  lemma OneStepRun(s: State, step: Step)
    requires Enabled(s, step)
    ensures ValidRun(s, [step]) && After(s, [step]) == Apply(s, step) && Begun(s, [step]) == Begins(s, step)
  {
    hide Apply;
    var steps := [step];
    assert steps[0] == step && steps[1..] == [];
    assert ValidRun(Apply(s, step), steps[1..]);
    assert After(Apply(s, step), steps[1..]) == Apply(s, step) && Begun(Apply(s, step), steps[1..]) == 0;
  }

  lemma RunExtends(start: State, steps: seq<Step>, step: Step)
    requires ValidRun(start, steps) && Enabled(After(start, steps), step)
    ensures ValidRun(start, steps + [step]) && After(start, steps + [step]) == Apply(After(start, steps), step)
    ensures Begun(start, steps + [step]) == Begun(start, steps) + Begins(After(start, steps), step)
  {
    var last := After(start, steps);
    OneStepRun(last, step);
    hide Enabled, Apply, ValidRun, After, Begun;
    RunsCompose(start, steps, [step]);
  }
}
