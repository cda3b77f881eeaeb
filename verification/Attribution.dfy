/** Which Backup a Job belongs to: by name prefix for the status, by owner reference for events. */
module Attribution {
  import opened Wrappers
  import opened Jobs
  import opened Cluster

  /** The first owner of kind CronJob; Jobs whose CronJob was deleted with orphan propagation have none. */
  function CronJobOwner(owners: seq<OwnerRef>): (r: Option<string>)
    ensures r.None? <==> forall o :: o in owners ==> o.kind != "CronJob"
    ensures r.Some? ==> exists o :: o in owners && o.kind == "CronJob" && o.name == r.value
  {
    if owners == [] then None
    else if owners[0].kind == "CronJob" then Some(owners[0].name)
    else CronJobOwner(owners[1..])
  }

  /** The scan of findBackupForJob, with its break. The Backup has the CronJob's name; an empty name
      counts as no owner. */
  method FindBackupForJob(job: Job) returns (requests: seq<string>)
    ensures requests == if CronJobOwner(job.owners).Some? && CronJobOwner(job.owners).value != ""
                        then [CronJobOwner(job.owners).value] else []
  {
    var cronJobName := "";
    var i := 0;
    while i < |job.owners|
      invariant 0 <= i <= |job.owners|
      invariant cronJobName == ""
      invariant CronJobOwner(job.owners) == CronJobOwner(job.owners[i..])
    {
      if job.owners[i].kind == "CronJob" {
        cronJobName := job.owners[i].name;
        break;
      }
      i := i + 1;
    }
    if cronJobName == "" {
      return [];
    }
    return [cronJobName];
  }

  /** Some Job name passes both Backups' filters. */
  ghost predicate Overlap(a: string, b: string) {
    exists job: string :: RelatedTo(a, job) && RelatedTo(b, job)
  }

  /** `name` is `backup` followed by a dash. */
  predicate Extends(name: string, backup: string) {
    HasPrefix(name, backup + "-")
  }

  /** The prefix filters of two Backups overlap exactly when one name is the other followed by a dash
      and more, as with `db` and `db-prod`. */
  lemma FiltersOverlapIff(a: string, b: string)
    ensures Overlap(a, b) <==> a == b || Extends(a, b) || Extends(b, a)
  {
    if a == b {
      SelfPrefix(a, "");
      assert RelatedTo(a, a + "-" + "") && RelatedTo(b, a + "-" + "");
    } else if Extends(a, b) {
      LongerIsRelatedToBoth(a, b);
    } else if Extends(b, a) {
      LongerIsRelatedToBoth(b, a);
    }
    if Overlap(a, b) {
      var job: string :| RelatedTo(a, job) && RelatedTo(b, job);
      CommonJobMeansExtends(a, b, job);
    }
  }

  lemma SelfPrefix(a: string, suffix: string)
    ensures RelatedTo(a, a + "-" + suffix)
  {
    assert (a + "-" + suffix)[..|a + "-"|] == a + "-";
  }

  lemma LongerIsRelatedToBoth(long: string, short: string)
    requires Extends(long, short)
    ensures Overlap(long, short)
  {
    var job := long + "-" + "";
    SelfPrefix(long, "");
    assert job[..|short + "-"|] == long[..|short + "-"|];
    assert RelatedTo(short, job);
  }

  lemma CommonJobMeansExtends(a: string, b: string, job: string)
    requires RelatedTo(a, job) && RelatedTo(b, job)
    ensures a == b || Extends(a, b) || Extends(b, a)
  {
    if |a| == |b| {
      assert a == job[..|a|] == b;
    } else if |a| < |b| {
      assert b[..|a + "-"|] == job[..|a + "-"|];
    } else {
      assert a[..|b + "-"|] == job[..|b + "-"|];
    }
  }

  ghost predicate DashFree(backups: set<string>) {
    forall a, b :: a in backups && b in backups ==> !Extends(a, b)
  }

  /** Attribution is a partition exactly when no Backup's name is another's followed by a dash: then each
      Job named after a Backup, scheduled or manual, matches that Backup's filter and no other. */
  lemma AttributionIsPartitionIff(backups: set<string>)
    ensures DashFree(backups) <==>
            (forall a, b, suffix :: a in backups && b in backups && RelatedTo(b, a + "-" + suffix) ==> a == b)
  {
    if DashFree(backups) {
      forall a, b, suffix | a in backups && b in backups && RelatedTo(b, a + "-" + suffix)
        ensures a == b
      {
        SelfPrefix(a, suffix);
        assert Overlap(a, b);
        FiltersOverlapIff(a, b);
      }
    } else {
      var a, b :| a in backups && b in backups && Extends(a, b);
      SelfPrefix(a, "");
      assert (a + "-" + "")[..|b + "-"|] == a[..|b + "-"|];
      assert RelatedTo(b, a + "-" + "");
      assert |a| > |b|;
    }
  }

  /** Events and status agree: a Job named after a Backup and owned by that Backup's CronJob enqueues the
      one Backup whose filter it matches. */
  lemma EventsReachTheRightBackup(backups: set<string>, owner: string, job: Job, suffix: string)
    requires DashFree(backups) && owner in backups
    requires CronJobOwner(job.owners) == Some(owner) && job.name == owner + "-" + suffix
    ensures forall b :: b in backups ==> (RelatedTo(b, job.name) <==> b == owner)
  {
    AttributionIsPartitionIff(backups);
    SelfPrefix(owner, suffix);
  }

  /** The controller's own manual Jobs are such Jobs. */
  lemma ManualJobReachesItsBackup(backups: set<string>, backup: string, now: nat)
    requires DashFree(backups) && backup in backups
    ensures CronJobOwner(ManualJob(backup, now).owners) == Some(backup)
    ensures ManualJob(backup, now).created == now && GetJobPhase(ManualJob(backup, now)) == Pending
    ensures forall b :: b in backups ==> (RelatedTo(b, ManualJob(backup, now).name) <==> b == backup)
  {
    assert ManualJobName(backup, now) == backup + "-" + ("manual-" + Decimal(now));
    EventsReachTheRightBackup(backups, backup, ManualJob(backup, now), "manual-" + Decimal(now));
  }
}
