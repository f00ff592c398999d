# Models of the agents orchestrator's reconciliation engine

The orchestrator runs independent loops that push a durable record store (workloads, volumes, sandboxes,
identities) and the real runners towards agreement, while any RPC may fail. This project models the loops and
proves what they keep, where they converge, and, where a guarantee has a condition, exactly which one.

Each loop is a class over maps and sequences whose methods follow the source's steps; every call to another
service may succeed or fail as it likes, and a ghost counter says whether one has. A method is proved against a
specification that names the outcome of a cycle in which nothing fails and bounds what a cycle with failures may
leave behind. Whole runs are sequences of states and events; the run theorems quantify over all of them. Time is
in integer nanoseconds, identifiers are strings.

| module | models |
|---|---|
| `Records` | identifiers, time, workload statuses |
| `Diff` | `internal/reconciler/diff.go` |
| `StartDecision`, `StartRuns` | `internal/reconciler/start_decision.go`, and runs of one agent instance |
| `Containers`, `WorkloadId`, `WorkloadReconcile`, `WorkloadConvergence` | `internal/reconciler/workload_reconcile.go`, `internal/reconciler/workload_id.go`, and runs of cycles |
| `StartSaga` | starting and stopping one workload, `internal/reconciler/reconciler.go` and `internal/reconciler/lifecycle_helpers.go` |
| `RunnerPinning` | `internal/reconciler/runner_pinning.go`, and starts interleaved with the volume loop |
| `VolumeReconcile`, `VolumeRuns` | `internal/reconciler/volume_reconcile.go`, and runs of one record and its disk |
| `Sandbox`, `SandboxWrites`, `SandboxRuns`, `SandboxStatusRuns` | `internal/reconciler/sandbox_reconciler.go`, and runs of its writes among those of other loops |
| `Metering`, `MeteringRuns` | `internal/reconciler/metering_sample.go`, and runs with crashes |
| `IdentitySweep` | `internal/reconciler/orphan.go`, and its timing against the loops that start workloads |
| `GroupSync`, `GroupSyncRuns` | `internal/reconciler/group_sync.go`, and runs of events |
| `RunnerDial` | `internal/runnerdial/runnerdial.go`, with concurrent calls |
| `EnvLayering` | the main container's environment, `internal/assembler/assembler.go` |

## What does not hold, and when it does

Where a guarantee fails, the model keeps the code as it is, gives a run or an input that shows it, and proves the
condition in both directions.

- At most one active workload record of an agent instance, and none from the gate's first read until the start has
  written its record: in a run exactly when every late write that makes an ended record active again finds no other
  record active and no such start (`StartRuns.AtMostOneActiveRecord`, shown by `StartRuns.TwoActiveRecords`).
- At most ten attempts since the reset floor: in a run exactly when every late write over a stopped record finds at
  most ten since the floor that remains without it, and none between the gate's reads misleads it into an eleventh
  (`StartRuns.CapHoldsIff`, shown by `StartRuns.ElevenFailures`).
- Every attempt waits for its backoff: in a run exactly when every late write fits the waits
  (`StartRuns.WaitsHoldIff`, shown by `StartRuns.MovedEnd`); then ten failures take at least 4900 s
  (`StartRuns.BoundedRetries`).
- At most one active workload of a sandbox, and none while a cycle that has found none is about to start one: in a run
  exactly when every write that revives a workload record finds no other active and no such cycle
  (`SandboxRuns.OneActiveIff`, shown by `SandboxRuns.TwoActiveWorkloads`).
- The loops never take a sandbox up: in a run exactly when the volume loop misses no disk of it once it is terminated,
  and no cycle overrules a lower status that the sandbox has been given since the cycle listed it
  (`SandboxStatusRuns.OnlyDown`, shown by `SandboxStatusRuns.TerminatedSandboxRises` and `SandboxStatusRuns.FailedSandboxRuns`).
- All open volumes of an instance on one runner, with no start that is bound to break it: in a run exactly when every
  late write of the volume loop that reopens a closed record agrees with the open volumes and with the start under
  way (`RunnerPinning.OneRunnerPerInstance`, shown by `RunnerPinning.SpanningRun`).
- Stopping an orphan stops that orphan: exactly when no two instance ids on the runner normalize alike
  (`WorkloadReconcile.StopsAreExact`).
- A healthy workload on an enrolled, reachable runner survives a cycle in which no call fails: exactly when the lookup
  of its runner does not fail. The comment at internal/reconciler/workload_reconcile.go:510-511 says that a failed
  lookup of a runner is not treated as absence; the code skips the runner, which then counts as unenrolled
  (`WorkloadConvergence.HealthyRecordLost`, shown by `WorkloadConvergence.SilentLookupFails`).
- An attempt to start that is undone leaves no workload: exactly when the runner has not started one under an id that
  has not come back, in an answer without an id or a call that failed (`StartSaga.Services.StartWorkload`).
- The disk of an open volume record in scope is removed only after its instance was idle for a TTL: exactly when the
  record has not been created anew since the cycle listed the records (`VolumeRuns.DiskRemovedOnlyWhenExpired`, shown by
  `VolumeRuns.FreshDiskRemoved`).
- A volume record only moves forward until it is created anew: a cycle takes it back exactly when it has been closed
  since it was listed and the cycle still advances it (`VolumeRuns.FallsBackIff`, shown by `VolumeRuns.UndoneReopens`).
- The undo of a start fails records that are still provisioning: exactly when no cycle has written a status since the
  record was created (`VolumeRuns.UndoneWhileProvisioningIff`, shown by `VolumeRuns.ActiveUndone`).
- A disk with an active record is kept: only for records in scope. The set of keys to ignore
  (internal/reconciler/volume_reconcile.go:245) is never filled, so the disk of an active record of another
  organization is removed (`VolumeRuns.OutOfScopeDiskRemoved`, a corollary of the cycle's contract).
- Billed windows tile a workload's life: exactly when no complete cycle moves the cursor backward, as it does when a
  removal is recorded before the cursor (`MeteringRuns.WindowsTileIff`, shown by `MeteringRuns.LateRemovalOverBills`).
- The sweep spares the identities of active workloads: those of agents whatever the grace period
  (`IdentitySweep.AgentSweepIsSafe`), those of sandboxes exactly when the bound of the cycle that starts them, less a
  nanosecond, falls short of the grace period (`IdentitySweep.SafeIffGraceCovers`, shown by
  `IdentitySweep.SweptTooEarly`). That is with all records in scope and none revived; in any run it does exactly when
  no revived record lacks its identity or loses it, and no active workload out of scope has its identity deleted
  (`IdentitySweep.SafeIffHarmless`, shown by `IdentitySweep.OutOfScopeSwept`).
- Group attributes converge once the events about every change have been handled: for an identity and a group, when an
  event about the last change is handled after the workload record is published
  (`GroupSyncRuns.GroupRolesConverge`). No event handled before that reaches the identity: a record is published with
  the right attribute exactly when the membership is what it was when the start read it
  (`GroupSyncRuns.PublishedRightIff`, shown by `GroupSyncRuns.MissedRemoval`), and the periodic repair never removes
  (`GroupSyncRuns.RepairOnlyAdds`).
- Environment names stay distinct once WORKLOAD_ID is appended: exactly when no vendor's placeholder uses that name
  (`EnvLayering.WorkloadIdStaysDistinct`).

## Model

| member | source | states |
|---|---|---|
| `Diff.ComputeActions` | internal/reconciler/diff.go:22-77 | fails exactly when a workload or a target is refused; otherwise the result is the plan: start exactly the desired instances with no workload, stop each duplicate once, stop a survivor iff undesired and stopping or idle beyond its timeout |
| `Diff.Deduplicate` | internal/reconciler/diff.go:27-49 | keeps per instance exactly the first workload of minimal activity time and drops every other one once |
| `Diff.StopUndesired` | internal/reconciler/diff.go:56-75 | which workloads are stopped, with no repetition, whatever order the kept ones come in |
| `Diff.UnstartedExact` | internal/reconciler/diff.go:51-55 | the instances to start are exactly the desired ones that have no workload, each once |
| `Diff.AppliedIsInjective` | internal/reconciler/diff.go:22-77 | once a plan has been applied no instance has two workloads |
| `Diff.Fixpoint` | internal/reconciler/diff.go:22-77 | applying the plan in any order and recomputing at the same instant gives no actions, and nothing else is a plan |
| `Diff.StillServed` | internal/reconciler/diff.go:22-77 | every desired instance has a workload once the plan is applied |
| `Diff.StopsByInstant` | internal/reconciler/diff.go:27-92 | which workloads a plan stops, by the instants they say: the last activity or, having none, the creation; a later duplicate goes, and an undesired survivor that is stopping or idle beyond its timeout |
| `Diff.RefusedUnread` | internal/reconciler/diff.go:27-92 | a workload that does not parse, has no meta or says no instant refuses the whole diff |
| `StartDecision.ListWorkloads` | internal/reconciler/start_decision.go:119-170 | for any page split that makes progress the loop ends with exactly the first limit records of the listing, or says why not |
| `StartDecision.CountConsecutive` | internal/reconciler/start_decision.go:79-89 | the loop counts the failures created after the reset floor |
| `StartDecision.ShouldStart` | internal/reconciler/start_decision.go:24-106 | the decision, made from eleven failures read in pages, is the decision made from the complete history |
| `StartDecision.TruncatedCount` | internal/reconciler/start_decision.go:73-89 | counting in a truncated read agrees with counting in the whole up to the truncation |
| `StartDecision.DecisionFromTruncatedRead` | internal/reconciler/start_decision.go:73-106 | cap and backoff come out the same from the truncated read as from all failures |
| `StartDecision.CountIsExact` | internal/reconciler/start_decision.go:79-89 | newest first, the failures counted are exactly those created after the floor |
| `StartDecision.DecidesByEnd` | internal/reconciler/start_decision.go:24-106 | the decision in so many words: the n-th failure that counts is waited for 10, 30, 60, 300 and then 900 s from its removal or, without one, its last update; the tenth pauses; a configuration change since starts at once |
| `StartDecision.DecidesAtOnce` | internal/reconciler/start_decision.go:24-43 | an active record holds the start back; without any failure and active record it goes ahead |
| `StartDecision.DecisionIgnoresUpdates` | internal/reconciler/start_decision.go:202-211 | two histories that differ only in updates of records with a removal time decide alike |
| `StartRuns.FloorExact` | internal/reconciler/start_decision.go:57-72 | the reset floor is the later of the configuration change and the newest stopped record's creation |
| `StartRuns.StreakExact` | internal/reconciler/start_decision.go:57-89 | the records above the floor are a prefix of the history without a stopped one |
| `StartRuns.CapHoldsIff` | internal/reconciler/start_decision.go:14-106 | in a run, with late writes of any status over ended records, also between the reads of the gate, no more than ten attempts are ever counted since the floor, if and only if every late write that uncovers a stopped record finds at most ten since the floor that remains, and a gate whose reads a write overlaps lets none through beyond ten; then the failures that count are among the ten newest records |
| `StartRuns.WaitsHoldIff` | internal/reconciler/start_decision.go:43-106 | in a run every attempt since the floor has waited for its backoff, if and only if every late write fits the gaps between the records, and a gate whose reads a write overlaps keeps to the backoff |
| `StartRuns.BoundedRetries` | internal/reconciler/start_decision.go:14-106 | in every run whose late writes leave the waits intact, the tenth failure that counts was started at least 4900 s after the first ended |
| `StartRuns.NoLateWrites` | internal/reconciler/start_decision.go:14-106 | runs without late writes over ended records meet the conditions of all three theorems: nothing changes while the gate reads |
| `StartRuns.ElevenFailures` | internal/reconciler/lifecycle_helpers.go:34-55 | FAILED written over a stopped record: eleven failures count at once |
| `StartRuns.MovedEnd` | internal/reconciler/lifecycle_helpers.go:34-55 | FAILED written over the first of ten failures: the tenth starts before the first ends |
| `StartRuns.TwoActiveRecords` | internal/reconciler/start_decision.go:24-35 | a run in which a late write between the reads of the gate, which finds no active record and no start let through, leads to two active records |
| `StartRuns.AtMostOneActiveRecord` | internal/reconciler/start_decision.go:24-35 | in a run an instance has at most one active record, and none from the gate's first read until the record of the start is written, if and only if every late write that revives a record finds none active and no such start |
| `Containers.MapContainers` | internal/reconciler/reconciler.go:558-620 | containers map one by one, and the list is refused exactly when one of them does not map |
| `Containers.ClassifyStarting` | internal/reconciler/workload_reconcile.go:358-428 | failing iff some container deserves a reason, for the first that does: configuration, image, start or crash loop, each by role, status, exit code, restarts and the first 60 s; otherwise ready iff a main container exists, all run and no init waits |
| `Containers.OwnFailureIff` | internal/reconciler/workload_reconcile.go:371-418 | a container fails iff it deserves a reason, and the reason and message reported for it |
| `Containers.ClassifyRunning` | internal/reconciler/workload_reconcile.go:430-443 | fails iff some main container is in a crash loop, and reports the first |
| `Containers.VerdictIgnoresOrder` | internal/reconciler/workload_reconcile.go:358-428 | the kind of verdict is the same for every permutation of the containers |
| `Containers.PromotedIsHealthy` | internal/reconciler/workload_reconcile.go:358-443 | the verdict is unique, and a workload promoted as ready is not failed by the running check on the same containers |
| `WorkloadId.PrefixedIsNoUuid` | internal/reconciler/workload_id.go:11-23 | no UUID starts with the workload prefix |
| `WorkloadId.NormalizeIdempotent` | internal/reconciler/workload_id.go:11-23 | normalizing twice is normalizing once |
| `WorkloadId.NormalizeFibres` | internal/reconciler/workload_id.go:11-23 | two ids normalize alike iff they are equal or one is the other, a UUID, with the prefix |
| `WorkloadId.NormalizeMeans` | internal/reconciler/workload_id.go:11-23 | a prefix before a canonical UUID is dropped, one before anything too short is kept, and an id without it is left alone |
| `WorkloadReconcile.Cluster.StopRunnerWorkload` | internal/reconciler/reconciler.go:477-504 | a stop ends at most the workload of that id or, for a UUID, of the prefixed id, and exactly it when nothing fails |
| `WorkloadReconcile.StopsAreExact` | internal/reconciler/reconciler.go:477-504 | a stop by normalized id reaches the workload it is meant for iff no two ids of the runner normalize alike |
| `WorkloadReconcile.Cluster.HandleMissing` | internal/reconciler/workload_reconcile.go:235-264 | starting and running records fail and lose their identity, stopping ones become stopped |
| `WorkloadReconcile.Cluster.FailOnRunner` | internal/reconciler/workload_reconcile.go:445-463 | record failed, workload stopped, identity deleted; after a fault, no more than that |
| `WorkloadReconcile.Assess` | internal/reconciler/workload_reconcile.go:281-335 | what an inspection says: fail iff condemned, leave iff unclassified, run iff promoted |
| `WorkloadReconcile.Cluster.HandlePresent` | internal/reconciler/workload_reconcile.go:266-351 | the exact outcome for a reported workload, its record and its identity; after a fault the status is the old or the clean one |
| `WorkloadReconcile.Cluster.ReconcileTracked` | internal/reconciler/workload_reconcile.go:179-201 | every tracked record of a runner is handled exactly once, and the reported workloads that are left are the orphans |
| `WorkloadReconcile.Cluster.StopOrphans` | internal/reconciler/workload_reconcile.go:203-212 | no workload whose key is tracked is stopped, and without a fault every other one is |
| `WorkloadReconcile.Cluster.KnownRunners` | internal/reconciler/workload_reconcile.go:484-521 | known are exactly the enrolled runners that are listed, or named and found by their own lookup; a runner whose lookup fails is silent, and that is not an error |
| `WorkloadReconcile.Cluster.ReconcileRunner` | internal/reconciler/workload_reconcile.go:123-213 | what one runner's turn makes of its records, its workloads and the identities, for unenrolled, cut off, unreachable and listed runners |
| `WorkloadReconcile.Cluster.ReconcileWorkloads` | internal/reconciler/workload_reconcile.go:39-215 | a whole cycle over all runners in scope, in any order: records, workloads and identities exact without faults, whatever lookups failed; nothing outside the scope touched, workloads only removed and never one a clean cycle keeps; nothing done when a listing fails; and without faults every starting, running or stopping record that names a runner has come to its fate, told by its containers, and no runner that none names and none lists is touched |
| `WorkloadReconcile.NamedIff` | internal/reconciler/workload_reconcile.go:57-86 | the runners visited on account of records are exactly those that a starting, running or stopping record names |
| `WorkloadReconcile.CycleStep` | internal/reconciler/workload_reconcile.go:123-213 | the turn of one runner does not disturb the outcome of another |
| `WorkloadConvergence.FirstCycle` | internal/reconciler/workload_reconcile.go:123-213 | from any state one clean cycle leaves no orphan, and no record that is up without its workload |
| `WorkloadConvergence.NextCycle` | internal/reconciler/workload_reconcile.go:123-213 | one more clean cycle brings active records and workloads into agreement |
| `WorkloadConvergence.Convergence` | internal/reconciler/workload_reconcile.go:123-213 | in every run of clean cycles, agreement holds from the second cycle on |
| `WorkloadConvergence.HealthyRecordLost` | internal/reconciler/workload_reconcile.go:484-521 | at a cycle in which no call fails but lookups may: a healthy running record on an enrolled, reachable runner is failed iff the lookup of that runner failed; it then loses its identity and its workload runs on |
| `WorkloadConvergence.SilentLookupFails` | internal/reconciler/workload_reconcile.go:484-521 | the input: one runner that no organization with agents lists, one running record, a failed lookup |
| `StartSaga.Services.CreateVolumeRecords` | internal/reconciler/lifecycle_helpers.go:106-177 | created are exactly the rows that were absent or closed; on success all records are complete and all rows needed are provisioning or active, on the runner and of the instance; without a failing call it succeeds wherever it can |
| `StartSaga.Services.MarkVolumesFailed` | internal/reconciler/lifecycle_helpers.go:57-76 | exactly the created rows become failed |
| `StartSaga.Services.CreateIdentity` | internal/reconciler/reconciler.go:206-249 | a complete new identity, or none left behind when the compensation succeeds |
| `StartSaga.Services.Launch` | internal/reconciler/reconciler.go:354-404 | every answer of the runner ends in a started workload or an undone attempt; success iff the answer carries the id asked for and no failure, and then the id is on the record iff its last write succeeded; a call that fails may have started a workload |
| `StartSaga.Services.StartWorkload` | internal/reconciler/reconciler.go:328-404 | without a failing call a startable attempt asks the runner; success leaves a starting record with the runner, instance and identity asked for and, once its last write succeeds, the instance id, and its volumes open on the runner; failure leaves no identity, its record failed, exactly the created volumes failed and all others untouched, and no workload but one whose id has not come back, in an answer without an id or a call that failed |
| `StartSaga.StopUndoesStart` | internal/reconciler/reconciler.go:396-404 | a stop that goes through leaves a workload just started on the runner iff the start could not write its instance id |
| `StartSaga.StartNeedsUsableVolumes` | internal/reconciler/lifecycle_helpers.go:152-177 | a corollary of the contract: no start succeeds on an open volume that is deprovisioning or on another runner |
| `StartSaga.UndoneKeepsOpenVolumes` | internal/reconciler/reconciler.go:341-361 | a corollary of the contract: an undone attempt leaves open volumes as they were and no new open one |
| `StartSaga.Services.StopWorkloadRecord` | internal/reconciler/reconciler.go:417-475 | a record is stopped only once its workload is, unless the runner is lost; the identity goes only with an ended record or when failing the record failed; without a failing call it succeeds wherever the record names a runner and a workload that can be found |
| `RunnerPinning.PinnedRunner` | internal/reconciler/runner_pinning.go:14-69 | succeeds iff every page answers with readable rows and one runner has all provisioning, active and deprovisioning volumes, and finds it |
| `RunnerPinning.SafeIffInvariant` | internal/reconciler/runner_pinning.go:14-69 | an invariant over open volumes, reads and creations holds iff nothing but a reopening write can still put volumes on two runners |
| `RunnerPinning.ReopeningKeepsInvariant` | internal/reconciler/volume_reconcile.go:344-393 | a late write that reopens a record keeps the invariant iff all open volumes, the pin read so far and the runner of the creation under way agree with its runner |
| `RunnerPinning.SpanningRun` | internal/reconciler/volume_reconcile.go:353-361 | a run that ends with the late write that reopens a failed record, and with volumes on two runners |
| `RunnerPinning.OneRunnerPerInstance` | internal/reconciler/runner_pinning.go:44-50 | in a run every state is safe, with the open volumes on one runner, if and only if every reopening write agrees with the open volumes and the start under way |
| `VolumeReconcile.ActivityOf` | internal/reconciler/volume_reconcile.go:464-486 | whether a workload is active, and the latest end among the ended ones that have one |
| `VolumeReconcile.IdleByRemoval` | internal/reconciler/volume_reconcile.go:464-486 | an instance whose workloads have all been removed is idle iff it had one and each was removed a span ago |
| `VolumeReconcile.IdleIgnoresUpdates` | internal/reconciler/volume_reconcile.go:464-486 | updates of records with a removal time make no difference to how long an instance is idle |
| `VolumeReconcile.VolumeCluster.TtlExpired` | internal/reconciler/volume_reconcile.go:403-489 | expired iff persistent with a TTL, no workload active and every end at least a TTL ago; the caches hold what would be looked up |
| `VolumeReconcile.VolumeCluster.HandlePresent` | internal/reconciler/volume_reconcile.go:344-393 | the exact transition of a record whose disk is there, and a disk removed only with a record written as deprovisioning |
| `VolumeReconcile.VolumeCluster.HandleLost` | internal/reconciler/volume_reconcile.go:204-222 | a lost active volume is closed and its sandbox failed or its instance paused |
| `VolumeReconcile.VolumeCluster.HandleUnenrolled` | internal/reconciler/volume_reconcile.go:144-157 | every tracked record of an unenrolled runner is closed unless provisioning, and each agent instance told |
| `VolumeReconcile.VolumeCluster.HandleCut` | internal/reconciler/volume_reconcile.go:160-183 | a runner without terminators costs only records that are deprovisioning |
| `VolumeReconcile.VolumeCluster.ReconcileRunner` | internal/reconciler/volume_reconcile.go:142-239 | one runner's turn: records, disks and alerts; a runner that is not reached costs no active record |
| `VolumeReconcile.VolumeCluster.ReconcileVolumes` | internal/reconciler/volume_reconcile.go:67-241 | a whole cycle over all runners in scope, with caches that last for the cycle: records, disks and alerts exact without faults; nothing outside the scope touched; and without faults every open record of the organizations that names a runner has come to its fate, enrolled and in scope or not |
| `VolumeReconcile.NamedIff` | internal/reconciler/volume_reconcile.go:78-101 | the runners visited on account of records are exactly those that an open record of the organizations names |
| `VolumeReconcile.OwnerIsTold` | internal/reconciler/volume_reconcile.go:142-222 | after a clean cycle the owner of an active record has been told that its runner is unenrolled, or that its disk is lost |
| `VolumeRuns.DiskKeptIff` | internal/reconciler/volume_reconcile.go:204-238 | a corollary of the contract: a clean cycle keeps a disk iff its record is tracked there, not deprovisioning, and not an expired agent volume |
| `VolumeRuns.OutOfScopeDiskRemoved` | internal/reconciler/volume_reconcile.go:243-296 | a corollary of the contract: the disk of an active record of another organization is removed and the record stays active |
| `VolumeRuns.CycleIsStep` | internal/reconciler/volume_reconcile.go:142-239 | what a cycle does to one tracked record and its disk is a step of the runs below |
| `VolumeRuns.DiskRemovedOnlyWhenExpired` | internal/reconciler/volume_reconcile.go:371-389 | in every run, with cycles that act on what they have listed: when a cycle removes the disk of an open record in scope, the record is provisioning iff it was created anew since the listing; otherwise a cycle found its instance idle for a TTL and it has been deprovisioning ever since, and it is no sandbox's |
| `VolumeRuns.FreshDiskRemoved` | internal/reconciler/volume_reconcile.go:184-238 | a run in which the disk of a record created after the listing is removed as an orphan while its workload starts |
| `VolumeRuns.OnlyForward` | internal/reconciler/volume_reconcile.go:298-393 | until a start creates it anew, and as long as no cycle is overtaken by its closing, a record only moves forward; it has failed iff a start was undone; closed ones stay as they are |
| `VolumeRuns.FallsBackIff` | internal/reconciler/volume_reconcile.go:344-393 | in every run a record falls back iff it has been closed and a cycle that had seen it provisioning with its disk there, or active and expired, writes it |
| `VolumeRuns.UndoneReopens` | internal/reconciler/lifecycle_helpers.go:57-76 | a run in which a cycle makes a record active that the undo of its start has failed |
| `VolumeRuns.UndoneWhileProvisioningIff` | internal/reconciler/lifecycle_helpers.go:57-76 | the undo of a start fails its record whatever its status; it is still provisioning iff no cycle since its creation has written a status, which for cycles that listed it after that means found its disk |
| `VolumeRuns.ActiveUndone` | internal/reconciler/lifecycle_helpers.go:57-76 | a run in which an active record, with its disk, is failed by the undo |
| `VolumeRuns.ActiveEndsIff` | internal/reconciler/volume_reconcile.go:298-393 | in every run an active record ends only by expiry, an unenrolled runner, an answer without its disk, the undo of its start, or its sandbox; and unless a call fails, then it does |
| `Sandbox.Store.UpdateState` | internal/reconciler/sandbox_reconciler.go:387-452 | writes the status and id update asked for, whatever the sandbox has become; nothing when the sandbox as read is already so |
| `Sandbox.Store.LoadPlan` | internal/reconciler/sandbox_reconciler.go:151-187 | keeps the first active workload and stops every further one; writes nothing when there is at most one |
| `Sandbox.Store.StopSandboxWorkload` | internal/reconciler/sandbox_reconciler.go:551-570 | success means no identity and, when no call has failed, an ended record |
| `Sandbox.Store.StartWorkload` | internal/reconciler/sandbox_reconciler.go:282-385 | at most one new record, said to be up iff the runner says so; without faults it is launched, with its runner, owner, identity and instance id, its volumes open on the runner; unless launched, the sandbox fails or an error is reported, and the identity is gone and the record failed when compensation succeeds |
| `Sandbox.Store.ReconcileUp` | internal/reconciler/sandbox_reconciler.go:82-106 | a starting or running sandbox starts, follows, stops or idles out its workload: idle is a last activity more than the timeout ago, and nothing else stops it; without faults it starts one where it should |
| `Sandbox.Store.ReconcileResting` | internal/reconciler/sandbox_reconciler.go:107-143 | a clean pass settles a resting sandbox, and a settled one is not written to |
| `Sandbox.Store.Terminate` | internal/reconciler/sandbox_reconciler.go:572-609 | success leaves the sandbox terminated and deleted and, when no call has failed, with no active workload and no open volume |
| `Sandbox.Store.ReconcileSandbox` | internal/reconciler/sandbox_reconciler.go:73-149 | one cycle that nothing overlaps, whatever fails: the sandbox moves down only, gets no second active workload, settles when resting or expired and all succeeds; terminated and deleted exactly from its expiry on; without faults it succeeds and starts the workload a sandbox should have; and its writes, in order, are such as a cycle with that plan may make |
| `Sandbox.SettlesForGood` | internal/reconciler/sandbox_reconciler.go:107-143 | after one clean cycle at rest, later cycles write nothing while no other loop does |
| `SandboxRuns.CycleIsRun` | internal/reconciler/sandbox_reconciler.go:73-149 | the writes that a cycle may make, by what it has read, are those of a run, whichever of them fail |
| `SandboxRuns.OneActiveIff` | internal/reconciler/sandbox_reconciler.go:151-187 | in a run of single writes of the sandbox and workload loops, at most one workload is active, and none while a cycle that has found none is about to start one, if and only if every write that revives a record finds none active and no such cycle |
| `SandboxRuns.TwoActiveWorkloads` | internal/reconciler/sandbox_reconciler.go:282-385 | a run in which a record is revived between the plan and the start, and two workloads are active |
| `SandboxStatusRuns.RaisesIff` | internal/reconciler/sandbox_reconciler.go:387-425 | in a run, whatever fails and the user asks, a write of the loops takes the sandbox up iff the volume loop misses a disk of a terminated one, or a cycle tells it a status above the one that someone else has given it since the cycle listed it |
| `SandboxStatusRuns.OnlyDown` | internal/reconciler/sandbox_reconciler.go:73-149 | in a run no write of the loops takes the sandbox up if and only if neither happens |
| `SandboxStatusRuns.StaysTerminated` | internal/reconciler/sandbox_reconciler.go:132-143 | a terminated sandbox that nobody takes up stays terminated and is not asked to be deleted again |
| `SandboxStatusRuns.FailedSandboxRuns` | internal/reconciler/sandbox_reconciler.go:235-270 | a run in which a sandbox that has been failed while a cycle was under way is told to be running |
| `SandboxStatusRuns.TerminatedSandboxRises` | internal/reconciler/volume_reconcile.go:208-216 | a run in which a terminated sandbox is failed because the closing of its volume record had failed |
| `Metering.MicroFlavorSeconds` | internal/reconciler/metering_sample.go:517-523 | whole micro-seconds, short of the duration by less than one |
| `Metering.Collect` | internal/reconciler/metering_sample.go:100-109 | one workload that cannot be sampled stops the whole cycle; otherwise all records in order and all cursors |
| `Metering.Meter.SampleMetering` | internal/reconciler/metering_sample.go:70-139 | aborted before the sink, sink only, or complete: what is in the sink and where the cursors are in each case; complete without faults iff every workload can be sampled |
| `Metering.SampleMeans` | internal/reconciler/metering_sample.go:319-375 | what one workload is billed: to whom, for which flavor and window, in whole micro-seconds, under which key; when nothing is, and when it is an error |
| `Metering.KeysIdentify` | internal/reconciler/metering_sample.go:571-577 | two records have the same key iff they are for the same workload and end |
| `Metering.DigitsRead` | internal/reconciler/metering_sample.go:571-577 | the decimal notation in a key says the number it is of |
| `MeteringRuns.CycleIsStep` | internal/reconciler/metering_sample.go:70-139 | what a cycle over all workloads does to one of them, and to its share of the sink, is a step of the runs below |
| `MeteringRuns.WindowsTileIff` | internal/reconciler/metering_sample.go:421-434 | in every run, crashes included, the windows of complete cycles tile the life up to the cursor iff no complete cycle moved it backward |
| `MeteringRuns.OrderlyRunsTile` | internal/reconciler/metering_sample.go:319-375 | with an orderly clock and removals, windows tile and their values fall short by less than one unit each |
| `MeteringRuns.OverCountIsRepeats` | internal/reconciler/metering_sample.go:123-137 | the sink holds the tiled windows and, on top, exactly the windows repeated after a lost cursor write |
| `MeteringRuns.RetriesRepeat` | internal/reconciler/metering_sample.go:364-374 | after removal every retry bills the same key and value, so a sink that ignores repeated keys bills it once |
| `MeteringRuns.LateRemovalOverBills` | internal/reconciler/metering_sample.go:421-434 | a removal recorded before the cursor leaves nine seconds billed for a life of five |
| `IdentitySweep.IdentityStore.SweepOrphanIdentities` | internal/reconciler/orphan.go:92-131 | every identity read that is unreferenced and past its grace is asked to be deleted, whatever earlier deletions did; success iff all was read and deleted |
| `IdentitySweep.OrphansExact` | internal/reconciler/orphan.go:112-139 | swept are exactly the identities that are not active, and were created a minute ago or longer, or at an unknown time |
| `IdentitySweep.SweptTooEarly` | internal/reconciler/orphan.go:33-41 | for any bounds that do not fit, a run in which the clock is read, then the sandbox records are listed, then one is written, and its identity deleted |
| `IdentitySweep.SafeIffGraceCovers` | internal/reconciler/orphan.go:33-41 | in every interleaving of sandbox starts and sweeps an active workload keeps its identity, iff the bound of the starting cycle less one falls short of the grace; the length of the sweep makes no difference |
| `IdentitySweep.AgentSweepIsSafe` | internal/reconciler/reconciler.go:157-181 | the sweep of agents' identities, which no agent start overlaps, spares every active workload in scope whatever the bounds and the grace |
| `IdentitySweep.SafeInAnyOrder` | internal/reconciler/orphan.go:17-42 | whatever the order of clock, listing and starts, the two cycle bounds less two falling short of the grace is enough |
| `IdentitySweep.SafeIffHarmless` | internal/reconciler/orphan.go:24-131 | in a run with late writes and records out of scope every active workload has its identity, iff none is revived without one, no revived one loses it, and no sweep deletes that of an active one out of scope |
| `IdentitySweep.OutOfScopeSwept` | internal/reconciler/actual.go:36-90 | for any bounds, a run in which an active workload of an organization without agents loses its identity |
| `IdentitySweep.SweepIsSafe` | internal/reconciler/reconciler.go:22-25 | 30 s, 30 s and 60 s are safe for both; for sandboxes any grace is down to 30 s, and none below |
| `GroupSync.AgentGroupRoleAttributes` | internal/reconciler/group_sync.go:38-62 | each group's attribute exactly once, an error iff a group has no id |
| `GroupSync.StaleCandidateAttributes` | internal/reconciler/group_sync.go:208-227 | exactly the candidates that are not desired, each once, never one that is being added |
| `GroupSync.Directory.PatchWorkload` | internal/reconciler/group_sync.go:181-206 | the identity's attributes after the patch |
| `GroupSync.Directory.HandleAgentMembershipChange` | internal/reconciler/group_sync.go:108-134 | all live workloads of the agent are patched, or some of them after an error; without a failing call there is none unless a group has no id |
| `GroupSync.PatchTwice` | internal/reconciler/group_sync.go:181-206 | handling an event again changes nothing |
| `GroupSync.PatchKeepsOthers` | internal/reconciler/group_sync.go:181-206 | attributes outside the group prefix are untouched |
| `GroupSync.PatchSettles` | internal/reconciler/group_sync.go:108-121 | after the patch the identity has the group's attribute iff the agent is a member |
| `GroupSyncRuns.GroupRolesConverge` | internal/reconciler/group_sync.go:108-134 | in every run, in any order and repetition: an identity holds a group's attribute iff its agent is a member, unless the membership has changed since its start and no event about it has been handled after both the change and the publication of its record |
| `GroupSyncRuns.OwedIff` | internal/reconciler/group_sync.go:108-134 | an identity is owed a group iff such a change is unsettled |
| `GroupSyncRuns.PublishedRightIff` | internal/reconciler/reconciler.go:206-225 | in every run, whatever has been handled meanwhile, an identity agrees on a group up to the publication of its record iff the membership is what it was when the start read it |
| `GroupSyncRuns.MissedRemoval` | internal/reconciler/reconciler.go:206-225 | a removal between mint and record, handled at once, leaves a stale attribute |
| `GroupSyncRuns.RepairOnlyAdds` | internal/reconciler/group_sync.go:164-179 | the periodic repair makes a group right iff its attribute was not stale, and never heals a stale one |
| `GroupSyncRuns.OthersNeverChange` | internal/reconciler/group_sync.go:181-206 | attributes outside the group prefix never change in any run |
| `RunnerDial.Dialer.Connection` | internal/runnerdial/runnerdial.go:85-98 | a good cached connection, or none and the bad one dropped and closed |
| `RunnerDial.Dialer.StoreConnection` | internal/runnerdial/runnerdial.go:100-113 | the connection that ends up cached, with the loser closed |
| `RunnerDial.Dialer.Dial` | internal/runnerdial/runnerdial.go:52-68 | an undisturbed call fails iff the runner is not named, or no good connection is cached and the dial fails, and yields the good connection then cached |
| `RunnerDial.DialWithRetry` | internal/runnerdial/runnerdial.go:156-196 | at most five attempts, ending at the first final one; after n failures other than authentication the waits add up to 2^n - 1 half seconds, at most 7.5 s |
| `RunnerDial.NoConnectionLost` | internal/runnerdial/runnerdial.go:52-113 | in every interleaving each connection ever dialled is exactly one of cached, held, closing, closed |
| `RunnerDial.QuietMeansCachedOrClosed` | internal/runnerdial/runnerdial.go:52-113 | once no call is under way what is not cached is closed |
| `RunnerDial.StoreYieldsCached` | internal/runnerdial/runnerdial.go:100-113 | a call that stores receives the connection then cached for its runner, which is not closed |
| `EnvLayering.MergeEnvVars` | internal/assembler/assembler.go:1064-1088 | the merged list |
| `EnvLayering.MergedLookup` | internal/assembler/assembler.go:1064-1088 | the platform's value wins, a user's is taken only for an unreserved name |
| `EnvLayering.MergedDistinct` | internal/assembler/assembler.go:1064-1088 | merged names are pairwise distinct, duplicates in either list included |
| `EnvLayering.AppendedLookup` | internal/assembler/assembler.go:1090-1100 | an appended platform variable replaces every other of its name and changes no other |
| `EnvLayering.ResolveLLMMode` | internal/assembler/llmmode.go:39-101 | the mode's variables: one placeholder per vendor, an error in native mode without a subscription |
| `EnvLayering.AssembleMainEnv` | internal/assembler/assembler.go:531-548 | the layers in the order in which they are applied |
| `EnvLayering.EnvFollowsPrecedence` | internal/assembler/assembler.go:531-652 | every name has the value of MCP list, LLM mode, egress, sandbox marker, platform, agent, environment, in this order |
| `EnvLayering.EnvIsDistinct` | internal/assembler/assembler.go:531-652 | no name occurs twice |
| `EnvLayering.NoUserValueOnReservedName` | internal/assembler/assembler.go:333-363 | what users set makes no difference to reserved names |
| `EnvLayering.PlatformNamesAreReserved` | internal/assembler/assembler.go:333-363 | every name that the platform sets, but its organization's, is reserved |
| `EnvLayering.PlatformValuesReach` | internal/assembler/assembler.go:531-652 | the platform's values of the agent and the addresses reach the container whatever the user sets |
| `EnvLayering.BaseValues` | internal/assembler/assembler.go:1105-1120 | the value of each of the agent's and the gateway's names |
| `EnvLayering.AddressValues` | internal/assembler/assembler.go:1121-1134 | the direct addresses and the tracing endpoint are there iff configured |
| `EnvLayering.EgressValues` | internal/assembler/egress_ca_apply.go:5-46 | the certificate path, the sandbox marker and the MCP servers override what anyone sets |
| `EnvLayering.LLMValues` | internal/assembler/llmmode.go:39-101 | the mode, the model if any, and the placeholder value under exactly the names asked for |
| `EnvLayering.PlaceholdersMean` | internal/assembler/llmmode.go:39-101 | the names asked for are those of the first attachment of each known vendor |
| `EnvLayering.WorkloadIdStaysDistinct` | internal/reconciler/reconciler.go:319 | appending WORKLOAD_ID keeps names distinct iff no placeholder has that name |

## Left out

- Concurrency of loops: ReconcileWorkloads, ReconcileVolumes and ReconcileSandbox are each one atomic call. Where writes of other loops in between matter, the run models interleave them: late writes and reads of the gate in StartRuns, single writes in SandboxRuns, cycles that act on an old listing in VolumeRuns, single RPCs in RunnerPinning, the steps of sweeps and starts in IdentitySweep.
- Leader election: one leader is assumed throughout.
- WorkloadConvergence.Convergence: assumes non-empty keys and instance ids, distinct even when normalized, no new starts, and no failing call.
- StartRuns.BoundedRetries: one direction; the bound may hold by accident where the waits do not. The gate's first read is a step of its own, and its others are one when nothing is written meanwhile; otherwise it may decide anything.
- StartSaga.Services.StartWorkload: begins once assembly, placement and the pull credential are done, with a fresh UUID. A call that fails has no effect, except that the runner may have started the workload. A creation that takes effect although it reports an error is a step of RunnerPinning. The pull credential is not revoked when the start fails.
- StartSaga.Services.StopWorkloadRecord: does not model the pull credential that is revoked with the identity.
- IdentitySweep.SafeIffGraceCovers: leaves out an identity that is deleted although failing its record could not be written (the stop admits it), identities without a creation time, which have no grace, calls that take effect after their deadline, and the skew between the clocks that stamp identities and sweeps.
- WorkloadReconcile.Cluster.HandlePresent: does not keep the containers, failure reasons and messages that are stored on records; a write of containers alone is a call that may fail.
- WorkloadReconcile.Cluster.ReconcileRunner: does not model the pause of the instances on an unenrolled runner.
- WorkloadReconcile.Cluster.ReconcileWorkloads: a record without an owner identity, which fails the whole cycle, is one of the ways the listing may fail.
- Sandbox.Store.StartWorkload: what becomes of the volume records, which a failed start leaves open, is stated by the method that creates them; the runner's workloads are not kept.
- Sandbox.Store.ReconcileUp: which outcome of the workload loop a reported workload has is arbitrary there; WorkloadReconcile decides it from the containers.
- Sandbox.Store.ReconcileSandbox: a cycle that nothing overlaps; that the writes of an overlapped one keep to the same rules rests on the source branching on what it has read and on answers only.
- Sandbox.Store.StopSandboxWorkload: deleting an identity twice succeeds, otherwise the second deletion fails the cycle and the next one finishes it; the snapshot of shell directories is not modelled.
- Metering.Meter.SampleMetering: leaves out volumes, whose values are computed in floating point, labels beyond whether they can be made, and the 64-bit range of durations, 292 years.
- GroupSync.AgentGroupRoleAttributes: does not model the final sort.
- GroupSync.StaleCandidateAttributes: does not model the final sort.
- RunnerDial.DialWithRetry: a cancellation while waiting counts as the next attempt.
- EnvLayering.AssembleMainEnv: the environments of init containers and MCP sidecars, which take the egress variables too, and the sandbox's own base variables.
- Page sizes are hints: a service may cut a listing into pages as it likes. Whether a listing is consistent while rows change between its pages is not modelled.
- Nil rows and rows without meta are rows with an empty id.
- Parsing of TTLs, sizes and idle timeouts: the parsed values are given.
- Organization scoping is a set of organizations; UUID syntax is modelled in WorkloadId only.
- Runner selection is some runner; label and capability filters are not modelled.
- The desired set and the idle timeouts (internal/reconciler/desired.go) are inputs of ComputeActions.
- The assembler's specs, mounts, images, scripts and ports, and every transport (gRPC, NATS, Kubernetes, OpenZiti): only the outcomes of calls are modelled.
