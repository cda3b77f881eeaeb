/** The objects on the API server that one Backup's reconciler reads and writes, and how the API
    server answers. Everything here is a value. */
module Cluster {
  import opened Wrappers
  import opened Jobs
  import opened RunStatus

  datatype Schedule = Schedule(
    cron: string,
    startingDeadlineSeconds: Option<int>,
    suspend: Option<bool>,
    successfulJobsHistoryLimit: Option<int>,
    failedJobsHistoryLimit: Option<int>)

  datatype DatabaseRef = DatabaseRef(apiGroup: string, kind: string, name: string)

  datatype StorageRef = StorageRef(apiGroup: string, kind: string, name: string, keep: int, timeout: int)

  /** BackupSpec. A missing compressWith or encodeWith is None. */
  datatype Spec = Spec(
    databaseRefs: seq<DatabaseRef>,
    storageRefs: seq<StorageRef>,
    beforeScript: string,
    afterScript: string,
    compressWith: Option<string>,
    encodeWith: Option<string>,
    schedule: Option<Schedule>)

  predicate IsSpace(c: char) {
    c == ' ' || c == '\t' || c == '\n' || c == '\r' || c as int == 11 || c as int == 12
  }

  predicate Blank(s: string) {
    forall i :: 0 <= i < |s| ==> IsSpace(s[i])
  }

  /** `len(strings.Fields(s))`: a field begins wherever a non-space follows a space or the start. */
  function CountFields(s: string): nat {
    if s == "" then 0
    else
      var n := |s| - 1;
      CountFields(s[..n]) + if !IsSpace(s[n]) && (n == 0 || IsSpace(s[n - 1])) then 1 else 0
  }

  /** What the checks at the top of both handlers say about a spec. */
  datatype Verdict = Ignored | Invalid | Accepted

  function Judge(spec: Spec): Verdict {
    if spec.schedule.None? || Blank(spec.schedule.value.cron) then Ignored
    else if CountFields(spec.schedule.value.cron) != 5 then Invalid
    else if spec.storageRefs == [] then Invalid
    else if spec.databaseRefs == [] then Invalid
    else Accepted
  }

  /** The fields of the CronJob that come from the spec, with the history limits' defaults. */
  datatype CronJobSpec = CronJobSpec(
    schedule: string,
    startingDeadlineSeconds: Option<int>,
    suspend: Option<bool>,
    successfulJobsHistoryLimit: int,
    failedJobsHistoryLimit: int)

  function BuildCronJobSpec(spec: Spec): Option<CronJobSpec> {
    if spec.schedule.None? then None
    else
      var s := spec.schedule.value;
      Some(CronJobSpec(s.cron, s.startingDeadlineSeconds, s.suspend,
                       if s.successfulJobsHistoryLimit.Some? then s.successfulJobsHistoryLimit.value else 3,
                       if s.failedJobsHistoryLimit.Some? then s.failedJobsHistoryLimit.value else 1))
  }

  /** What a CronJob for this spec must look like, field by field. */
  ghost predicate BuiltFor(c: Option<CronJobSpec>, spec: Spec) {
    && c.Some? && spec.schedule.Some?
    && var cronJob, schedule := c.value, spec.schedule.value;
       && cronJob.schedule == schedule.cron
       && cronJob.startingDeadlineSeconds == schedule.startingDeadlineSeconds
       && cronJob.suspend == schedule.suspend
       && (forall n :: schedule.successfulJobsHistoryLimit == Some(n) ==> cronJob.successfulJobsHistoryLimit == n)
       && (schedule.successfulJobsHistoryLimit == None ==> cronJob.successfulJobsHistoryLimit == 3)
       && (forall n :: schedule.failedJobsHistoryLimit == Some(n) ==> cronJob.failedJobsHistoryLimit == n)
       && (schedule.failedJobsHistoryLimit == None ==> cronJob.failedJobsHistoryLimit == 1)
  }

  /** An accepted spec has a schedule, so the pointer to it can be followed. */
  lemma AcceptedIsBuilt(spec: Spec)
    requires Judge(spec) == Accepted
    ensures BuiltFor(BuildCronJobSpec(spec), spec)
  {}

  /** `builtFrom` and `renderedFrom` tag an object with the Backup generation it was made from. */
  datatype CronJob = CronJob(builtFrom: int, spec: Option<CronJobSpec>, terminating: bool)

  datatype ConfigSecret = ConfigSecret(renderedFrom: int, spec: Spec)

  datatype Backup = Backup(generation: int, spec: Spec, resourceVersion: int, status: Status)

  /** A Backup object is never recreated under its name within one run; Gone keeps its last value. */
  datatype Life = Alive | Deleting | Gone

  datatype Objects = Objects(
    life: Life,
    backup: Backup,
    cronJob: Option<CronJob>,
    secret: Option<ConfigSecret>,
    jobs: map<string, Job>,
    clock: nat)

  /** A List call returns every Job once, in any order. */
  ghost predicate Lists(listed: seq<Job>, jobs: map<string, Job>) {
    && (forall j :: j in listed ==> j.name in jobs && jobs[j.name] == j)
    && (forall n :: n in jobs ==> jobs[n] in listed)
    && (forall i, k :: 0 <= i < k < |listed| ==> listed[i].name != listed[k].name)
  }

  function Decimal(n: nat): string {
    var digit := [('0' as int + n % 10) as char];
    if n < 10 then digit else Decimal(n / 10) + digit
  }

  function ManualJobName(backup: string, now: nat): string {
    backup + "-manual-" + Decimal(now)
  }

  predicate IsDigits(s: string) {
    forall i :: 0 <= i < |s| ==> '0' <= s[i] <= '9'
  }

  /** The number a string of digits denotes. */
  ghost function NumberOf(s: string): nat
    requires IsDigits(s)
  {
    if s == "" then 0
    else
      var n := |s| - 1;
      10 * NumberOf(s[..n]) + (s[n] as int - '0' as int)
  }

  lemma OneMoreDigit(s: string, c: char)
    requires IsDigits(s) && '0' <= c <= '9'
    ensures IsDigits(s + [c]) && NumberOf(s + [c]) == 10 * NumberOf(s) + (c as int - '0' as int)
  {
    assert (s + [c])[..|s|] == s;
  }

  lemma DigitOf(d: nat)
    requires d < 10
    ensures var c := ('0' as int + d) as char;
            '0' <= c <= '9' && c as int - '0' as int == d && (c == '0' <==> d == 0)
  {}

  /** The decimal notation: digits, no leading zero but for zero itself, and the number they denote. */
  lemma {:induction false} DecimalReads(n: nat)
    ensures Decimal(n) != "" && IsDigits(Decimal(n)) && NumberOf(Decimal(n)) == n
    ensures Decimal(n)[0] == '0' ==> n == 0 && |Decimal(n)| == 1
  {
    var d, c := n % 10, ('0' as int + n % 10) as char;
    DigitOf(d);
    if n < 10 {
      OneMoreDigit("", c);
      assert "" + [c] == [c] == Decimal(n) && NumberOf("") == 0;
    } else {
      DecimalReads(n / 10);
      hide NumberOf, IsDigits;
      OneMoreDigit(Decimal(n / 10), c);
      assert Decimal(n) == Decimal(n / 10) + [c];
      assert 10 * (n / 10) + d == n;
    }
  }

  /** A manual Job's name is the Backup's, "-manual-" and the second in decimal, so that manual Jobs of one
      Backup have one name exactly when they are of one second. */
  lemma ManualJobNameIff(backup: string, t: nat, t': nat)
    ensures ManualJobName(backup, t) == ManualJobName(backup, t') <==> t == t'
    ensures exists digits ::
              && ManualJobName(backup, t) == backup + "-manual-" + digits
              && digits != "" && IsDigits(digits) && NumberOf(digits) == t
              && (digits[0] == '0' ==> t == 0 && |digits| == 1)
  {
    DecimalReads(t);
    DecimalReads(t');
    var start := backup + "-manual-";
    assert ManualJobName(backup, t) == start + Decimal(t);
    assert (start + Decimal(t))[|start|..] == Decimal(t);
    assert (start + Decimal(t'))[|start|..] == Decimal(t');
  }

  function ManualJob(backup: string, now: nat): Job {
    Job(ManualJobName(backup, now), now, [OwnerRef("CronJob", backup)], 0, 0, 0, None, None, [])
  }

  lemma ManualJobIsRelated(backup: string, now: nat)
    ensures RelatedTo(backup, ManualJobName(backup, now))
  {
    assert ManualJobName(backup, now)[..|backup| + 1] == backup + "-";
  }

  /** A status write bumps the resource version and leaves generation and spec alone. */
  function WithStatus(b: Backup, status: Status): Backup {
    b.(status := status, resourceVersion := b.resourceVersion + 1)
  }
}
