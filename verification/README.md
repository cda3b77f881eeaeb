# Verified model of the backup operator

The operator watches `Backup` objects. For each it keeps a Secret with a rendered `gobackup.yml`, a
CronJob that mounts the Secret, and a status that summarises the Jobs the CronJob (or the operator
itself) started. This project models the three parts of it that hold state or do real work, and proves
what they keep.

* **The reconciler** (`internal/controller/backup_controller.go`) is a program counter over its API
  calls (`Reconciler`, on the objects of `Cluster`). Every call may succeed, fail, or take effect and
  still report an error; the controller may crash before any call; between two calls the environment may
  edit the spec, touch or delete the Backup, add, change or remove Jobs, delete the CronJob or the
  Secret, finish an orphan deletion, or let time pass. A run is any sequence of such steps. `Generations`,
  `Counting`, `Recounting`, `Convergence`, `Stacking`, `Polling` and `OneReconcile` prove what runs keep,
  and with the pieces in `Scenarios` build the runs that break a promise. `Controller` holds the
  same code as methods in the shape of the Go code, over a mutable in-memory Backup, and proves that
  executing `Reconcile` is a run of the step system.
* **The status bookkeeping** (`Jobs`, `Truncation`, `RunStatus`, `StatusHistory`) relates the bounded
  status to the unbounded log of recorded runs. `Objects` has the pointers: deep copies, the slice entry
  overwritten in place, and the merge patch computed from a copy.
* **The rendering** (`pkg/k8sutil/secret.go`; `Config`, `SecretRefs`, `Naming`, `Sources`, `Rendering`) treats every `range`
  over a Go map as an arbitrary enumeration of its keys, and says exactly when the order does not matter.

`Attribution` is about which Backup a Job belongs to, `Validation` about which specs are acted on.

## Assumptions

* One reconciler at a time works on a Backup, and its reads are up to date. The Backup's status is
  written by the controller only, and a Backup is not recreated under its name within one run.
* Nobody else creates or edits the Backup's CronJob or its Secret; others may delete them. A manual edit of
  the CronJob would go unnoticed until the next edit of the spec.
* Every write to the Backup raises its resourceVersion; only a change of the spec raises its generation.
* Deleting a CronJob with orphan propagation only marks it; it disappears later. A CronJob or Secret
  carries the generation it was made from as a tag, which the code does not have.
* A Job's creation time is in whole seconds and does not change. The time of a status update is read in
  the same step as the list of Jobs before it.
* A Go string is a sequence of bytes, one `char` each; case folding and spaces are ASCII. The bounds on
  messages and logs are about the string the controller writes; encoding it as JSON replaces a byte that is
  not valid UTF-8, from a raw log or a cut inside a character, by three bytes. The counters
  are int32 and wrap; the theorems say that a counter shows its number (`RunStatus.ShowsCount`): exactly, while
  that fits, and modulo 2^32 after that.
* Marshalling to YAML is injective. The API server merges a Secret's `stringData` into its `data`.

## What the code does not do

* *An edit need not start a run* (`OneReconcile.EditWithoutRun`, `OneReconcile.ImmediateRunIff`), although
  the comment at `internal/controller/backup_controller.go:192-195` promises one unless a run is in progress.
  While the old CronJob is terminating, the reconcile ends with a retry; when it is gone, the next
  reconcile takes the create path, which starts nothing. In an undisturbed reconcile an immediate run
  happens exactly when orphan deletion finishes between the Delete and the Create call and no related Job
  shows Pending or Running. Otherwise it also happens when someone else removes the CronJob between the Get
  and the Create call.
* *A run can be stacked on one that is retrying* (`Stacking.MaskedRunIsStacked`). A Job is in progress while
  a Pod of it is active or it has no true Complete or Failed condition. `getJobPhase` looks at the counters
  of ended Pods instead, so a Job whose first Pod failed shows Failed while its next Pod runs, and in the
  pause before, and the check for running Jobs passes over it. The check misses runs exactly when every
  related Job in progress has had a Pod end and no Job that is over without an ended Pod stands in for
  them; such a Job alone keeps an immediate run from starting (`Stacking.CheckIsWrongIff`). A run can also
  be stacked on one that starts between the check and the creation of the manual Job. There is no third
  way (`Stacking.StepStaysClearIff`, `Stacking.RunsDoNotStack`).
* *A retrying run is not polled*, for the same reason (`Polling.RetryingRunIsNotPolled`): of the Jobs in
  progress exactly those with an ended Pod are not (`Polling.UnpolledIff`). If the Job was orphaned by a
  recreation of the CronJob it sends no event either, and its later success waits for the next reconcile.
* *A Job can be counted twice* (`Recounting.RemovalCountsTwice`, `Recounting.TieCountsTwice`). It happens
  exactly when a counted Job is the latest one listed although another was recorded last, and then that
  other Job is gone or was created in the same second (`Recounting.CountedAgainIff`). A retried Job can be
  recorded as Failed and then as Succeeded; that is the only way one Job gets two terminal entries in an
  orderly run (`Counting.OrderlyRunsCountOnce`).
* *A deleted Secret is not restored* once the generation is recorded, as long as the spec is not edited and
  the CronJob stays (`Convergence.LostSecretStaysLost`). A reconcile writes the Secret exactly when it
  builds a CronJob (`OneReconcile.SecretIsWrittenIff`), so the next convergence brings it back
  (`Convergence.ConvergenceRestoresSecret`).
* *After a conflict an unfinished run may not be polled* (`Polling.ConflictAbandonsIff`): the requeue
  is decided by the in-memory status, which was not stored.
* *A reference does not take precedence* over a direct value, whatever
  `config/samples/storage/README.md:105` says: with both `k` and `k_ref`, map order decides
  (`SecretRefs.RefTakesPrecedenceIff`). It is sure to win only against an equal value
  (`SecretRefs.RefAlwaysWinsIff`).
* *The Job filters of two Backups overlap* exactly when one name is the other followed by a dash
  (`Attribution.FiltersOverlapIff`).
* *`truncateString` panics* for a limit below 18 and a longer text (`Truncation.TruncatePanicsIff`). No
  caller passes such a limit.

## Model

| member | source | states |
|---|---|---|
| Generations.GenerationSandwich | internal/controller/backup_controller.go:145-281 | At the end of every run from a new Backup, under all edits, failures, lost replies and crashes: observedGeneration <= the CronJob's generation <= the Secret's generation <= metadata.generation, for as much of that as exists, and with a CronJob there is a Secret unless someone deleted it since it was last written |
| Generations.ObservedMeansCurrent | internal/controller/backup_controller.go:218-225 | In every reachable state, observedGeneration equal to generation and a CronJob present imply that the CronJob has the schedule, deadline and suspend flag of the current spec, and its history limits or 3 and 1, and that the Secret holds the current spec and is there unless someone deleted it since it was last written |
| Generations.RunKeepsInv | internal/controller/backup_controller.go:78-281 | The inductive invariant behind the sandwich (objects, in-memory copy, what each program point promises) survives every step of every run |
| Generations.StepPays | internal/controller/backup_controller.go:222-277 | One step never raises the debt of unpaid recreations, nor the surplus of manual Jobs over recreations, nor, without an edit, the recreations still owed |
| Generations.RecreationsAreAmortised | internal/controller/backup_controller.go:218-277 | Over any stretch of a run: update-path creations <= advance of observedGeneration + reconciles that broke off, and manual Jobs <= update-path creations |
| Generations.NoRecreateLoop | internal/controller/backup_controller.go:218-221 | While the spec is not edited, the CronJob is recreated at most once, plus once per reconcile that broke off; never again once the generation is recorded |
| Generations.StepChangesStatus | internal/controller/backup_controller.go:523-537 | Every step leaves the stored status alone, or raises observedGeneration and changes nothing else, or records one run on top of exactly the status that was stored |
| Generations.ConflictChangesNothing | internal/controller/backup_controller.go:637-641 | A status update at an outdated resourceVersion changes no object and no log entry |
| Generations.VersionIdentifies | internal/controller/backup_controller.go:635-645 | Over every stretch of a run the stored Backup is unchanged or has a later resourceVersion |
| Generations.RunKeepsVersionGuard | internal/controller/backup_controller.go:635-645 | In every run a Backup in memory whose resourceVersion is still the stored one is the stored one, so an accepted update overwrites nothing that was not read |
| Generations.StoredStatusOnlyGrows | internal/controller/backup_controller.go:527-537 | Over every run the stored observedGeneration never decreases and the log of recorded runs is only extended: no update is lost |
| Counting.StoredStatusSummarisesLog | internal/controller/backup_controller.go:601-647 | With no hypothesis on Jobs, at the end of every run: the status is well formed and bounded, SuccessCount shows the number of Succeeded entries in the log and FailureCount that of its trailing failures (equal to it within int32, congruent beyond), and LastSuccessfulBackupTime is set iff something succeeded and is <= LastBackupTime |
| Counting.RunKeepsLog | internal/controller/backup_controller.go:587-647 | The stored status is at all times the fold of the log of persisted updates, no entry of which repeats the one before it |
| Counting.LatestIsNewest | internal/controller/backup_controller.go:552-576 | In whatever order Jobs are listed, the one picked is the newest related Job that ever existed, when the newest is never removed before an older one |
| Counting.RunKeepsOrder | internal/controller/backup_controller.go:569-647 | In orderly runs the log is in creation order and each Job's recorded phases only move the way its counters can |
| Counting.OrderlyRunsCountOnce | internal/controller/backup_controller.go:601-636 | In every orderly run, conflicts, failures and crashes included: SuccessCount is the number of distinct Jobs ever recorded Succeeded, FailureCount that of the distinct Jobs recorded Failed since the last success, a Job has at most one failure and one success, and RecentRuns is the newest five of the history with LastRun at its head |
| Counting.OrderlyRunsHaveHistory | internal/controller/backup_controller.go:745-765 | Such a history exists for every orderly run |
| Convergence.CalmStepIsCloser | internal/controller/backup_controller.go:94-121 | Without edits and errors no step raises the measure, every call lowers it unless the CronJob is terminating or all is done, and what has converged stays so |
| Convergence.CalmRunsConverge | internal/controller/backup_controller.go:222-253 | From any reachable state with an accepted spec, more than 31 calls besides those made while the CronJob was terminating end with the CronJob and observedGeneration at the current generation, through the AlreadyExists retry too; the Secret is of that generation, or missing if and only if someone deleted it since it was last written |
| Convergence.ConvergenceRestoresSecret | internal/controller/backup_controller.go:235-253 | If such a run starts idle and not converged, the Secret is there at its end and holds the current spec, lost before or not |
| Convergence.LostSecretStaysLost | internal/controller/backup_controller.go:218-225 | Once the generation is recorded a deleted Secret stays away through every run without an edit that keeps the CronJob |
| Convergence.ConvergedStays | internal/controller/backup_controller.go:222-225 | Once there, a run without edits and errors stays there |
| Convergence.ConvergedMeansCurrent | internal/controller/backup_controller.go:145-281 | A live CronJob with a recorded generation means that the CronJob's fields are those of the current schedule and the Secret comes from the current spec |
| Convergence.AnsweredCallsFailOnlyWhen | internal/controller/backup_controller.go:172-178 | When the API answers, a reconcile of a live Backup breaks off if and only if the spec is malformed or the manual Job's name is taken, by a manual Job only if that is of the same second; the create path never meets an existing CronJob |
| Stacking.RunsDoNotStack | internal/controller/backup_controller.go:255-269 | In every run in which the check overlooked nothing and no race took place, the create call never leaves the manual Job and another related Job in progress together |
| Stacking.CheckIsWrongIff | internal/controller/backup_controller.go:475-492 | The check misses a related Job in progress if and only if all of them have had a Pod end and no Job that is over without an ended Pod is related, and it reports one that is not there if and only if nothing is in progress and there is such a Job |
| Stacking.StepStaysClearIff | internal/controller/backup_controller.go:255-269 | Between the check and the creation nothing related is in progress, unless the step just taken was an overlooking check or a race, and always then |
| Stacking.StacksIff | internal/controller/backup_controller.go:257-269 | A manual Job under a free name ends up beside another Job in progress if and only if the call takes effect while there is one |
| Stacking.MaskedRunIsStacked | internal/controller/backup_controller.go:651-662 | For every new Backup with a retrying related Job and every accepted edit there is a run without races that starts the manual Job beside it |
| Jobs.PhaseShowsWorkIff | internal/controller/backup_controller.go:651-662 | The phase tells whether a Job is in progress, by its active Pods and conditions, exactly for the Jobs that are not in progress after an ended Pod and not over without one |
| Jobs.PhaseMeans | internal/controller/backup_controller.go:651-662 | Each of the four phases in terms of the counters |
| OneReconcile.ContinueIsRun | internal/controller/backup_controller.go:78-141 | A reconcile with every call answered is a run of the step system |
| OneReconcile.NoWriteIffQuiescent | internal/controller/backup_controller.go:78-141 | Such a reconcile writes nothing if and only if the Backup is gone or malformed, or its status shows the latest Job and either there is no schedule or the CronJob exists with its generation recorded |
| OneReconcile.ReconcileIsIdempotent | internal/controller/backup_controller.go:587-592 | After a reconcile with no error and no two-second retry, a second one over the same Job list writes nothing |
| OneReconcile.DoneMeansQuiescent | internal/controller/backup_controller.go:123-140 | Every such reconcile ends in a state where nothing is left to write |
| OneReconcile.StatusPartSettles | internal/controller/backup_controller.go:540-648 | The status part writes if and only if the status does not show the latest related Job, touches nothing else, and asks for a poll iff the run is unfinished |
| OneReconcile.CreatePath | internal/controller/backup_controller.go:145-190 | The create path ends with a Secret of the current spec, a CronJob with the fields of its schedule, its generation recorded, and no manual Job |
| OneReconcile.UpdatePathWaits | internal/controller/backup_controller.go:244-253 | With the old CronJob still terminating the update path refreshes the Secret, asks for a retry in two seconds, starts nothing and records nothing |
| OneReconcile.UpdatePathRecreates | internal/controller/backup_controller.go:227-280 | With the old CronJob gone in time Secret and CronJob are rebuilt from the current spec and schedule, the generation is recorded, and a manual Job starts iff no related Job shows Pending or Running, unless its name is taken |
| Cluster.AcceptedIsBuilt | internal/controller/backup_controller.go:416-441 | An accepted spec has a schedule, and the CronJob built from it has that schedule's expression, deadline and suspend flag, and its limits or 3 and 1 |
| Cluster.ManualJobNameIff | internal/controller/backup_controller.go:504 | The name is the Backup's, "-manual-" and the second in decimal digits without leading zeros; two are equal exactly when the seconds are |
| Cluster.DecimalReads | internal/controller/backup_controller.go:504 | The digits denote the number |
| OneReconcile.SecretIsWrittenIff | internal/controller/backup_controller.go:222-237 | A reconcile writes the Secret if and only if the Backup is live and accepted and its CronJob is missing or not recorded as current; it then holds the current spec, and otherwise it is as it was, missing or not |
| OneReconcile.ImmediateRunIff | internal/controller/backup_controller.go:192-281 | Exactly when a reconcile without error starts an immediate run |
| OneReconcile.EditWithoutRun | internal/controller/backup_controller.go:244-253 | From every converged state, every accepted edit can be carried out completely without an immediate run |
| Polling.UnfinishedRunIsPolled | internal/controller/backup_controller.go:128-138 | In every reachable state, a reconcile that ended without error, conflict or two-second retry has asked to run again if and only if the stored status shows an unfinished run |
| Polling.ConflictAbandonsIff | internal/controller/backup_controller.go:128-140 | With an unfinished run stored, an answered update ends without a requeue if and only if it was rejected as conflicting and would have recorded the run's end |
| Polling.UnpolledIff | internal/controller/backup_controller.go:128-140 | Through all interleavings, while the newest Job stays the newest, a reconcile that ends without error, conflict or two-second retry leaves it unpolled if and only if a Pod of it has ended, whether the Job is in progress or not |
| Polling.RetryingRunIsNotPolled | internal/controller/backup_controller.go:128-140 | With the generation recorded and the latest Job in progress after an ended Pod, active Pod or not, a plain reconcile ends without a requeue |
| Polling.LatestRunIsRecorded | internal/controller/backup_controller.go:584-636 | From every reachable state, while the newest Job stays the newest and shows a terminal phase (or does not), every reconcile that ends without error or conflict has recorded it so, whatever fails, crashes or is edited on the way, owner or not |
| OneReconcile.FinishedRunIsRecordedAtOnce | internal/controller/backup_controller.go:584-636 | One undisturbed reconcile is enough for that |
| StatusHistory.ReplayWellFormed | internal/controller/backup_controller.go:611-636 | Every recorded status: at most five recent runs of distinct Jobs, LastRun absent iff there are none, otherwise one of them and the source of status.phase |
| StatusHistory.RecordKeepsWellFormed | internal/controller/backup_controller.go:745-765 | Recording any run in a status of that shape keeps the shape |
| StatusHistory.TransitionCounts | internal/controller/backup_controller.go:601-609 | Past the early return a run moves a counter if and only if its phase is terminal |
| StatusHistory.CountersSummariseLog | internal/controller/backup_controller.go:619-630 | The counters and times are the log's: successes, trailing failures, time of the last success, time of the last entry |
| StatusHistory.LastSuccessBounds | api/v1/backup_types.go:118-122 | A success time exists iff something succeeded, and does not lie after the last entry while the clock does not go back |
| StatusHistory.StatusStaysBounded | internal/controller/backup_controller.go:665-699 | Whatever Jobs and Pods say, messages stay within 1024 bytes, logs within 4096, and logs are kept for failed runs only |
| StatusHistory.TerminalOncePerJob | internal/controller/backup_controller.go:587-609 | Two entries of one Job of which the first is terminal are a failure followed by a success |
| StatusHistory.SuccessCountIsDistinctJobs | internal/controller/backup_controller.go:619-626 | In an ordered log SuccessCount is the number of distinct Jobs that succeeded |
| StatusHistory.FailureCountIsDistinctJobs | internal/controller/backup_controller.go:624-628 | In an ordered log FailureCount is the number of distinct Jobs that failed since the last success |
| StatusHistory.CountIsExactIff | internal/controller/backup_controller.go:619-626 | In every log the successes are at least the distinct Jobs that succeeded, and as many if and only if no Job has two |
| Recounting.CountedAgainIff | internal/controller/backup_controller.go:569-609 | In every run with unique names and counters that do not go down: a counted Job that is the latest one listed is counted again if and only if another Job was recorded last, and then that Job is gone or has the same creation time |
| Recounting.RemovalCountsTwice | internal/controller/backup_controller.go:569-609 | A run from a new Backup in which the newer Job is removed and the older one counts twice |
| Recounting.TieCountsTwice | internal/controller/backup_controller.go:571-575 | A run from a new Backup in which two Jobs of one second are listed in changing order and one counts twice |
| StatusHistory.RecentRunsAreNewestFive | internal/controller/backup_controller.go:745-765 | RecentRuns is the first five entries of the newest-first history of recorded Jobs, each with its last recorded phase |
| StatusHistory.HistoryIsHistory | internal/controller/backup_controller.go:745-765 | The unbounded list built by replace-or-prepend is strictly descending, has every recorded Job, and each with its last entry |
| Jobs.LatestIsFirstMaximum | internal/controller/backup_controller.go:569-576 | The picked Job has the greatest creation time, and everything listed before it is strictly older |
| Jobs.PhaseFollowsCounters | internal/controller/backup_controller.go:651-662 | While a Job's counters do not go down nothing leads out of Succeeded, and out of Failed only Succeeded |
| Jobs.FilterRelated | internal/controller/backup_controller.go:552-560 | The loop keeps the Jobs with the Backup's name and a dash as prefix, in list order |
| Jobs.FindLatest | internal/controller/backup_controller.go:569-576 | The loop finds the first of the most recent Jobs, or none in an empty list |
| Jobs.HasUnfinished | internal/controller/backup_controller.go:475-492 | True if and only if some related Job is pending or running |
| Truncation.TruncateKeepsLongestTail | internal/controller/backup_controller.go:768-774 | For limits of 18 and more the result has exactly min(len, limit) bytes, an over-long text becomes the marker and a tail, and no longer tail would fit |
| Truncation.TruncatePanicsIff | internal/controller/backup_controller.go:768-774 | Exactly when the slice expression is out of range |
| RunStatus.LastTellingConditionDecides | internal/controller/backup_controller.go:678-685 | The last true Complete or Failed condition decides the message, and without one it is empty |
| RunStatus.RunTellsJob | internal/controller/backup_controller.go:665-699 | A run has its Job's name, times and phase; a failed run has the Pod's log, whole if it fits and otherwise its end, or the reason it could not be read; any other has none |
| RunStatus.WrapShows | internal/controller/backup_controller.go:623-627 | A counter raised n times from zero is n while that fits in an int32, and otherwise the int32 congruent to it |
| RunStatus.IndexOf | internal/controller/backup_controller.go:748-754 | The first entry of that Job, or none before the end |
| Objects.BackupStatus.DeepCopy | api/v1/zz_generated.deepcopy.go:187-226 | The copy is equal and everything it reaches is new |
| Objects.BackupObject.DeepCopy | api/v1/zz_generated.deepcopy.go:30-46 | The copy is equal, and its status shares nothing with the original's |
| Objects.CopyRun | api/v1/zz_generated.deepcopy.go:89-109 | Equal run, with times of its own |
| Objects.CopyRuns | api/v1/zz_generated.deepcopy.go:209-215 | A new slice of equal runs that share no time with the old ones; nil stays nil |
| Objects.CopyConditions | api/v1/zz_generated.deepcopy.go:197-203 | A new slice of equal conditions; nil stays nil |
| Objects.AddToRecentRunsInPlace | internal/controller/backup_controller.go:746-765 | Overwriting an entry of the given slice, or building a new one, both give the window of the value-level function, and nothing new is reachable but the run |
| Objects.RecordRunInMemory | internal/controller/backup_controller.go:601-636 | All status edits together record the run in the Backup's status, while the status it had before is untouched, in-place slice write included |
| Objects.BumpCounters | internal/controller/backup_controller.go:619-630 | A counted success sets its time, adds one and clears the failures; a counted failure adds one, both within int32; all else is untouched |
| Objects.GenerationPatchIsNarrow | internal/controller/backup_controller.go:523-537 | The patch between statuses that differ in observedGeneration, applied to any stored status, changes observedGeneration only |
| Objects.PatchCarriesChanges | internal/controller/backup_controller.go:531-533 | Applied to its base a merge patch gives the modified status, and on any stored status it changes only fields in which the two differ |
| Objects.PrepareGenerationPatch | internal/controller/backup_controller.go:531-532 | The base is unaffected by the write to the Backup, so the patch carries the generation and nothing else |
| Controller.Reconcile | internal/controller/backup_controller.go:78-141 | Executing the method against any environment and any answers extends the run of the step system by exactly one reconcile, from its Get to the next idle state, and its result and error are the outcome reached |
| Controller.HandleBackupCreate | internal/controller/backup_controller.go:145-190 | As a run of the step system: ends in its error state iff it returns an error, else at the status part |
| Controller.HandleBackupUpdate | internal/controller/backup_controller.go:196-281 | The same for the update path, with the returned requeue time the step system's |
| Controller.ReconcileJobStatus | internal/controller/backup_controller.go:540-648 | The same for the status part; a conflict is no error, and the in-memory status then decides about polling |
| Controller.RecordObservedGeneration | internal/controller/backup_controller.go:527-537 | The patch's reply refreshes the in-memory Backup, which then is the step system's |
| Controller.HasRunningBackupJob | internal/controller/backup_controller.go:475-492 | The answer decides between starting a manual Job and recording the generation |
| Controller.BuildRunStatus | internal/controller/backup_controller.go:665-699 | The loop over conditions and the log branch build the specified run |
| Validation.AcceptedIff | internal/controller/backup_controller.go:283-311 | A spec is acted on if and only if its schedule splits into exactly five words and it names a storage and a database; it is passed over if and only if it has no schedule or one without words |
| Validation.CountFieldsIff | internal/controller/backup_controller.go:299-311 | The number counted is the number of words, for every text and every way to split it |
| Naming.SpacesAre | internal/controller/backup_controller.go:305 | A space is one of the five control characters from tab to carriage return, or a blank |
| SecretRefs.RefResolvesIff | pkg/k8sutil/secret.go:280-323 | A reference resolves if and only if it is well formed and its Secret has the entry, data before stringData, and then to that content |
| SecretRefs.RefErrorsMean | pkg/k8sutil/secret.go:282-319 | Which reference gives which error: no map, no name, no key, unreachable, no such Secret, no such entry |
| SecretRefs.ResolvesIff | pkg/k8sutil/secret.go:275-331 | For every iteration order: success if and only if all references resolve |
| SecretRefs.ResolutionConfluentIff | pkg/k8sutil/secret.go:278-327 | All orders agree on failure or on the result if and only if some reference is bad or entries that meet in one field resolve to one value |
| SecretRefs.FieldsMeetIff | pkg/k8sutil/secret.go:322-326 | Two keys meet in one field if and only if one is the other's `_ref` |
| SecretRefs.IsRefIff | pkg/k8sutil/secret.go:280-322 | A key is a reference if and only if it is some field and `_ref`, and then it stands for that field |
| SecretRefs.RefTakesPrecedenceIff | config/samples/storage/README.md:105 | The reference wins over a different direct value if and only if the iteration visits it later |
| SecretRefs.RefAlwaysWinsIff | config/samples/storage/README.md:105 | The referenced value is stored under every iteration order if and only if it equals the direct value |
| SecretRefs.NoRefsRemain | pkg/k8sutil/secret.go:322-323 | A `_ref` key is left only where a `_ref_ref` key was given |
| SecretRefs.ResolveSecretReferences | pkg/k8sutil/secret.go:275-331 | The loop succeeds iff all references resolve, and an error names a bad reference. On success a value given directly only is there as it is, a value given by reference only is the text it points to, and there is nothing else |
| Config.OrderIndependentIff | pkg/k8sutil/secret.go:278-327 | Filling a map under rewritten keys gives one result for all orders if and only if keys that meet hold one value |
| Config.LastKeyWins | pkg/k8sutil/secret.go:322-326 | Exactly the targets of the visited keys are present, and each holds the value of the last key stored under it |
| Rendering.RenderingConfluentIff | pkg/k8sutil/secret.go:84-105 | Resolving, renaming and overlaying gives one configuration for all pairs of orders if and only if entries that meet under one final key outside the overlay hold one value |
| Rendering.RenderingIsDeclared | pkg/k8sutil/secret.go:142-176 | Without such a clash the result is the declared one: every resolved entry under its final key, below the overlay, and nothing else |
| Rendering.DistinctKeysRenderOnce | pkg/k8sutil/secret.go:142-176 | When no two keys get one final key, which can be checked on the keys alone, there is one rendering for all orders, the declared one |
| Rendering.RenderingComesFromEntries | pkg/k8sutil/secret.go:147-176 | With clashes too: overlay keys hold the overlay, every entry's final key is there, and every other value is some entry's |
| Rendering.RenderedKeysAreClean | pkg/k8sutil/secret.go:149-165 | No renamed camelCase key is left, and no `_ref` key unless a `_ref_ref` was given |
| Rendering.StorageMeetsDeclaration | pkg/k8sutil/secret.go:112-180 | In a stored model the last reference with a name determines its storage: the entries of the named object's configuration, resolved and renamed, under the reference's lower-case type and its positive keep and timeout |
| Sources.StorageSourceIff | pkg/k8sutil/secret.go:113-139 | Fetching a Storage succeeds if and only if the object of that group and name is there with an object as spec and one as configuration; it gives that configuration and exactly the settings of the reference |
| Sources.StorageErrorsMean | pkg/k8sutil/secret.go:124-139 | No object, no spec in it, or no configuration in that: which error each gives |
| Rendering.DatabaseMeetsDeclaration | pkg/k8sutil/secret.go:49-109 | In a stored model the last reference with a name determines its database: the entries of the named object's configuration, resolved and renamed, under its trimmed lower-case type |
| Sources.DatabaseSourceIff | pkg/k8sutil/secret.go:50-81 | Fetching a Database succeeds if and only if the object is there with an object as spec and one as configuration and its type is a string of more than spaces; it gives that configuration and that type, trimmed and in lower case |
| Sources.DatabaseErrorsMean | pkg/k8sutil/secret.go:60-81 | No object, no spec in it, no usable type, or no configuration: which error each gives |
| Naming.TrimIsTrimmed | pkg/k8sutil/secret.go:71-75 | Trimming cuts the spaces at both ends and nothing else |
| Rendering.K8s.CreateSecret | pkg/k8sutil/secret.go:36-261 | All or nothing: success iff every reference at every position of both loops is ready, the Secret can be read and the write is stored and answered. Then, and when only the reply is lost, a model for the whole spec is stored, with one entry per distinct name; in every other case no Secret changes |
| Rendering.K8s.RenderDatabases | pkg/k8sutil/secret.go:49-109 | Success iff every Database is there in the right form and its references resolve, and then one entry per distinct name, rendered from the last reference with that name; a failure is about the first reference that is not ready |
| Rendering.K8s.RenderStorages | pkg/k8sutil/secret.go:112-180 | Success iff every Storage is there in the right form and its references resolve, and then one entry per distinct name, rendered from the last reference with that name; a failure is about the first reference that is not ready |
| Rendering.K8s.Store | pkg/k8sutil/secret.go:235-260 | Create or update: if the write takes effect, reply lost or not, the new file is stored, other entries and other Secrets stay and the owner is there once; otherwise nothing changes |
| Rendering.RenderConfig | pkg/k8sutil/secret.go:84-102 | The two loops over maps succeed iff all references resolve; then the overlay is there, every direct value as it is and every referenced value as the text it points to, under their snake_case names unless something else has that name, and nothing else |
| Rendering.RenameIsSnakeCase | pkg/k8sutil/secret.go:91-102 | The keys a loop rewrites get their snake_case names and every other key keeps its own |
| Rendering.EnsureOwnerReference | pkg/k8sutil/secret.go:263-270 | The owner is present afterwards, nothing is removed or reordered, and it is never added twice |
| Attribution.FiltersOverlapIff | internal/controller/backup_controller.go:556 | Some Job name passes the filters of two Backups if and only if their names are equal or one is the other followed by a dash |
| Attribution.AttributionIsPartitionIff | internal/controller/backup_controller.go:483 | Each Job named after a Backup matches that Backup's filter only, for every suffix, if and only if no Backup's name extends another's by a dash |
| Attribution.EventsReachTheRightBackup | internal/controller/backup_controller.go:377-405 | Then the Backup enqueued for an owned Job is the one whose filter matches |
| Attribution.ManualJobReachesItsBackup | internal/controller/backup_controller.go:499-521 | The manual Job is pending, owned and named so that event and filter both lead to its Backup |
| Attribution.FindBackupForJob | internal/controller/backup_controller.go:377-405 | The scan returns the first CronJob owner's name, or nothing |

## Left out

- Rendering.K8s.CreateSecret: all reads of one call see the same objects; that Databases, Storages or Secrets change while it reads them is not modelled. The step system does not run it: there one step writes the whole Secret, or not, or writes it and loses the reply, and tags it with its generation.
- Controller.Reconcile: a method here always runs to its end. Crashes between calls are steps of the step system only, so the theorems about runs cover them.
- Objects.BackupObject.DeepCopy: the spec and the metadata are values, so copying them is not modelled as pointer work; only the status has pointers and slices.
- Objects.BackupStatus.DeepCopy: a nil slice and an empty one have the same view.
- Polling.ConflictAbandonsIff: that a watch event then wakes the controller is not modelled.
- Deep copies of the Database, Storage, Spec and list types: they would only repeat the same shape.
- Stale caches and two active reconcilers: excluded by the assumptions.
- API transport, client construction, `pkg/k8sutil/crd.go` and `pkg/k8sutil/job.go`: a lookup in a map, or an arbitrary answer.
- `collectPodLogs`: what reading the Pod's log gave is an input; its truncation is modelled.
- YAML text: an injective constructor.
- The Job template beyond what the spec decides, the CronJob's owner reference and concurrency policy: constants.
- Cron semantics and the Kubernetes Job and CronJob controllers: environment steps. Of a cron expression only the number of fields is checked, as in the code.
- A nil Backup passed to CreateSecret, `DeleteSecret`, error texts and logging.
- `cmd/main.go`, leader election, metrics, RBAC, Helm charts and CRD YAML: plumbing.
