/**
 * The sandbox loop: one sandbox, its workload records and its volumes
 * (internal/reconciler/sandbox_reconciler.go). Any RPC may fail.
 */
module Sandbox {
  import opened Records
  import opened WorkloadId
  import opened SandboxWrites

  datatype Workload = Workload(
    id: Id, status: WorkloadStatus, runner: Id, owner: Id, instanceId: Id, ziti: Id, activityAt: Option<Time>)

  datatype Volume = Volume(id: Id, open: bool, runner: Id)

  /** What a cycle reads at its start; active and open are positions. */
  datatype Plan = Plan(status: SandboxStatus, workloadId: Option<Id>, active: Option<nat>, open: seq<nat>)

  datatype Answer = Answered | NoTerminators | Error

  /** Only the workload at position i may be active. */
  predicate OnlyActive(workloads: seq<Workload>, i: Option<nat>) {
    forall k :: 0 <= k < |workloads| && IsActive(workloads[k].status) ==> i == Some(k)
  }

  ghost predicate AtMostOneActive(workloads: seq<Workload>) {
    forall j, k :: 0 <= j < |workloads| && 0 <= k < |workloads| ==>
      IsActive(workloads[j].status) && IsActive(workloads[k].status) ==> j == k
  }

  /** Workloads that can be stopped: without an id or a runner the stop is refused. */
  predicate Stoppable(w: Workload) {
    w.id != "" && (w.runner != "" || Normalize(w.instanceId) == "")
  }

  /** The record names all that a cycle needs to deal with it. */
  predicate IsWorkable(w: Workload) {
    w.id != "" && w.runner != "" && w.owner != ""
  }

  /** What has changed are volumes of records, now open on the runner. */
  ghost predicate OnlyOpened(before: seq<Volume>, after: seq<Volume>, records: seq<Id>, runner: Id) {
    && |after| >= |before|
    && forall k :: 0 <= k < |after| ==>
         || (k < |before| && after[k] == before[k])
         || (after[k] == Volume(after[k].id, true, runner) && after[k].id in records)
  }

  predicate NoneOpen(volumes: seq<Volume>) {
    forall k :: 0 <= k < |volumes| ==> !volumes[k].open
  }

  /** There is nothing left to do for a sandbox that is resting. */
  predicate Settled(status: SandboxStatus, workloadId: Option<Id>, workloads: seq<Workload>, volumes: seq<Volume>) {
    && IsResting(status) && workloadId == None && OnlyActive(workloads, None)
    && (status.Terminated? ==> NoneOpen(volumes))
  }

  datatype Snapshot = Snapshot(
    status: SandboxStatus, workloadId: Option<Id>, workloads: seq<Workload>, volumes: seq<Volume>, identities: set<Id>,
    deleted: bool, writes: nat)

  predicate IsSettled(s: Snapshot) {
    Settled(s.status, s.workloadId, s.workloads, s.volumes)
  }

  /** The sandbox is to have a workload, and does not claim to have had one. */
  predicate IsToStart(s: Snapshot) {
    s.status.Starting? || (s.status.Running? && s.workloadId == None)
  }

  /**
   * What a cycle promises; expired says whether the TTL has run out, ok that no error is reported, faulty
   * that a call failed.
   */
  ghost predicate CycleOutcome(s: Snapshot, t: Snapshot, expired: bool, ok: bool, faulty: bool) {
    var rests := s.status.Terminated? || !expired;
    && Rank(t.status) <= Rank(s.status)
    && (AtMostOneActive(s.workloads) || (ok && !faulty) ==> AtMostOneActive(t.workloads))
    && (IsResting(s.status) && rests ==> t.status == s.status)
    && (rests ==> t.deleted == s.deleted)
    && (rests && t.status.Terminated? ==> s.status.Terminated?)
    && (ok && !rests ==> t.status.Terminated? && t.deleted)
    && (ok && !faulty && (IsResting(s.status) || !rests) ==> IsSettled(t))
    && (IsSettled(s) && rests ==> t == s)
  }

  /** The write would change nothing, as far as the sandbox read at the start of the cycle tells. */
  predicate AlreadyCurrent(plan: Plan, status: SandboxStatus, update: IdUpdate) {
    && plan.status == status
    && match update
       case Keep => true
       case Clear => plan.workloadId == None
       case Set(id) => (if plan.workloadId.Some? then plan.workloadId.value else "") == id
  }

  /** Only the workload at i has changed, and only in its status. */
  predicate OnlyStatus(before: seq<Workload>, after: seq<Workload>, i: nat) {
    && |after| == |before|
    && forall k :: 0 <= k < |before| ==>
      if k == i then after[k] == before[k].(status := after[k].status) else after[k] == before[k]
  }

  function SightOf(plan: Plan): Sight {
    Sight(plan.status, plan.workloadId, plan.active.None?)
  }

  /** The first k of the workloads that a cycle has listed have been looked at, and every further active one stopped. */
  ghost predicate Reading(before: seq<Workload>, after: seq<Workload>, k: nat, active: Option<nat>, clean: bool) {
    && k <= |after| && SameKeys(before, after)
    && (forall j :: k <= j < |after| ==> after[j] == before[j])
    && (active.Some? ==>
          active.value < k && after[active.value] == before[active.value] && IsActive(after[active.value].status))
    && (active.None? ==> after == before)
    && (clean || AtMostOneActive(before) ==> OnlyActive(after[..k], active))
    && (active.None? ==> OnlyActive(after[..k], None))
    && (AtMostOneActive(before) ==> after == before)
  }

  lemma ReadingStart(workloads: seq<Workload>)
    ensures Reading(workloads, workloads, 0, None, true)
  {
  }

  lemma ReadingSkip(before: seq<Workload>, after: seq<Workload>, k: nat, active: Option<nat>, clean: bool)
    requires Reading(before, after, k, active, clean) && k < |after| && !IsActive(after[k].status)
    ensures Reading(before, after, k + 1, active, clean)
  {
    assert after[..k + 1] == after[..k] + [after[k]];
  }

  lemma ReadingFirst(before: seq<Workload>, after: seq<Workload>, k: nat, clean: bool)
    requires Reading(before, after, k, None, clean) && k < |after| && IsActive(after[k].status)
    ensures Reading(before, after, k + 1, Some(k), clean)
  {
    assert after[..k + 1] == after[..k] + [after[k]];
  }

  lemma ReadingStop(
    before: seq<Workload>, mid: seq<Workload>, after: seq<Workload>, k: nat, active: Option<nat>, earlier: bool,
    later: bool)
    requires Reading(before, mid, k, active, earlier) && k < |mid| && IsActive(mid[k].status) && active.Some?
    requires OnlyStatus(mid, after, k) && (later ==> earlier && IsEnded(after[k].status))
    ensures Reading(before, after, k + 1, active, later)
    ensures !AtMostOneActive(before) && mid[k] == before[k]
    ensures SameKeys(before, after) && active.value < |after| && after[active.value] == before[active.value]
    ensures IsActive(after[active.value].status)
  {
    assert IsActive(before[active.value].status) && IsActive(before[k].status) && active.value < k;
    SameKeysStep(before, mid, after, k);
    assert after[..k + 1] == mid[..k] + [after[k]];
  }

  /**
   * What reading the workloads has come to: only statuses have changed, and none if at most one was active;
   * the workload kept is as it was; if all was read none but it is left active, unless something failed.
   */
  ghost predicate ReadTo(before: seq<Workload>, after: seq<Workload>, active: Option<nat>, clean: bool, ok: bool) {
    && SameKeys(before, after) && (AtMostOneActive(before) ==> after == before)
    && (active.Some? ==>
          active.value < |after| && after[active.value] == before[active.value] && IsActive(after[active.value].status))
    && (ok && active.None? ==> OnlyActive(before, None))
    && (clean || (ok && AtMostOneActive(before)) ==> OnlyActive(after, active))
  }

  lemma ReadingDone(before: seq<Workload>, after: seq<Workload>, active: Option<nat>, clean: bool)
    requires |after| == |before| && Reading(before, after, |after|, active, clean)
    ensures ReadTo(before, after, active, clean, true)
  {
    assert after[..|after|] == after;
  }

  lemma TellKeeps(plan: Plan, ends: bool, before: seq<Write>, after: seq<Write>, to: SandboxStatus, update: IdUpdate)
    requires Keeps(SightOf(plan), ends, before) && MayTell(SightOf(plan), ends, to, update)
    requires Rank(to) <= Rank(LastTold(SightOf(plan), before))
    requires after == before + if AlreadyCurrent(plan, to, update) then [] else [Tell(to, update)]
    ensures Keeps(SightOf(plan), ends, after)
    ensures LastTold(SightOf(plan), after) == to || after == before
  {
    if AlreadyCurrent(plan, to, update) {
      assert after == before;
    } else {
      OneMoreWrite(SightOf(plan), ends, before, Tell(to, update));
    }
  }

  class Store {
    var status: SandboxStatus
    var workloadId: Option<Id>
    var workloads: seq<Workload>
    var volumes: seq<Volume>
    var identities: set<Id>
    var deleted: bool
    const expiresAt: Option<Time>    // creation plus TTL, when both can be read and the TTL is positive
    const idleTimeout: Option<Time>  // when it can be read and is positive
    const managed: bool              // whether identities are managed
    ghost var faults: nat            // calls that have failed, or were not answered as they should
    ghost var writes: nat            // writing calls that have been made
    ghost var trail: seq<Write>      // those of the cycle under way that the sandbox and its records are about

    predicate TtlExpired(now: Time) {
      expiresAt.Some? && now >= expiresAt.value
    }

    predicate IsIdle(w: Workload, now: Time) {
      idleTimeout.Some? && w.activityAt.Some? && now - w.activityAt.value > idleTimeout.value
    }

    ghost function Now(): Snapshot
      reads this
    {
      Snapshot(status, workloadId, workloads, volumes, identities, deleted, writes)
    }

    /** The sandbox is running with that workload. */
    predicate IsUpWith(id: Id)
      reads this
    {
      status.Running? && (id != "" ==> workloadId == Some(id))
    }

    /** The sandbox says of its newest workload, still starting or running, what it said before or that it is up. */
    ghost predicate SaysOf(w: Workload, statusBefore: SandboxStatus, idBefore: Option<Id>)
      reads this
    {
      if w.status.Running? then IsUpWith(w.id) else status == statusBefore && workloadId == idBefore
    }

    /** The only write to the sandbox. What it skips goes by the plan, and what it replaces is not looked at. */
    method UpdateState(plan: Plan, to: SandboxStatus, update: IdUpdate) returns (ok: bool)
      modifies `status, `workloadId, `faults, `writes, `trail
      ensures faults == old(faults) + if ok then 0 else 1
      ensures if AlreadyCurrent(plan, to, update) then ok && writes == old(writes) else writes == old(writes) + 1
      ensures
        if AlreadyCurrent(plan, to, update) || !ok then status == old(status) && workloadId == old(workloadId)
        else status == to && workloadId == Updated(old(workloadId), update)
      ensures trail == old(trail) + if AlreadyCurrent(plan, to, update) then [] else [Tell(to, update)]
      ensures
        var read := if plan.workloadId.Some? then plan.workloadId.value else "";
        writes == old(writes) <==>
          && plan.status == to
          && (update.Keep? || (update.Clear? && plan.workloadId == None) || (update.Set? && read == update.id))
    {
      if AlreadyCurrent(plan, to, update) {
        return true;
      }
      writes := writes + 1;
      trail := trail + [Tell(to, update)];
      ok := *;
      if !ok {
        faults := faults + 1;
        return;
      }
      status := to;
      match update {
        case Keep =>
        case Clear => workloadId := None;
        case Set(id) => workloadId := Some(id);
      }
    }

    method SetWorkload(i: nat, to: WorkloadStatus) returns (ok: bool)
      requires i < |workloads|
      modifies `workloads, `faults, `writes, `trail
      ensures faults == old(faults) + (if ok then 0 else 1) && writes == old(writes) + 1
      ensures workloads == if ok then old(workloads)[i := old(workloads)[i].(status := to)] else old(workloads)
      ensures trail == old(trail) + [Put(i, to)]
    {
      writes := writes + 1;
      trail := trail + [Put(i, to)];
      ok := *;
      if ok {
        workloads := workloads[i := workloads[i].(status := to)];
      } else {
        faults := faults + 1;
      }
    }

    method DeleteIdentity(ziti: Id) returns (ok: bool)
      modifies `identities, `faults, `writes
      ensures faults == old(faults) + (if ok then 0 else 1) && writes == old(writes) + 1
      ensures identities == if ok then old(identities) - {ziti} else old(identities)
    {
      writes := writes + 1;
      ok := *;
      if ok {
        identities := identities - {ziti};
      } else {
        faults := faults + 1;
      }
    }

    /** Dials a runner, or stops or removes something there; whether no terminators are a fault is up to the caller. */
    method CallRunner() returns (answer: Answer)
      modifies `faults
      ensures faults == old(faults) + if answer.Error? then 1 else 0
    {
      var ok: bool, up: bool := *, *;
      if !ok {
        faults := faults + 1;
        return Error;
      }
      return if up then Answered else NoTerminators;
    }

    /** Goes by the status that the caller has in hand, which may be newer than the record's. */
    method HandleMissing(i: nat, inHand: WorkloadStatus) returns (ok: bool)
      requires i < |workloads|
      modifies `workloads, `identities, `faults, `writes, `trail
      ensures OnlyPuts(old(trail), trail)
      ensures faults >= old(faults) && writes >= old(writes) && OnlyStatus(old(workloads), workloads, i)
      ensures identities <= old(identities)
      ensures workloads[i].status in {old(workloads)[i].status, WorkloadStatus.Stopped, WorkloadStatus.Failed}
      ensures faults == old(faults) ==> ok && (IsActive(inHand) ==> IsEnded(workloads[i].status))
      ensures !IsActive(inHand) ==> workloads == old(workloads)
    {
      if inHand.Stopping? {
        ok := SetWorkload(i, WorkloadStatus.Stopped);
        return;
      }
      if inHand.Starting? || inHand.Running? {
        var marked := SetWorkload(i, WorkloadStatus.Failed);
        if managed && workloads[i].ziti != "" {
          var deleted := DeleteIdentity(workloads[i].ziti);
        }
      }
      return true;
    }

    /** The stop shared with agent workloads. */
    method StopWorkload(i: nat, inHand: WorkloadStatus) returns (ok: bool)
      requires i < |workloads|
      requires IsActive(inHand) || IsEnded(workloads[i].status) || inHand.Failed?
      modifies `workloads, `identities, `faults, `writes, `trail
      ensures OnlyPuts(old(trail), trail)
      ensures faults >= old(faults) && writes >= old(writes) && OnlyStatus(old(workloads), workloads, i)
      ensures identities <= old(identities)
      ensures ok && faults == old(faults) ==>
        IsEnded(workloads[i].status) || (!IsActive(inHand) && workloads == old(workloads))
      ensures faults == old(faults) && Normalize(old(workloads)[i].instanceId) == "" ==> ok
      ensures faults == old(faults) && old(workloads)[i].runner != "" ==> ok
    {
      var w := workloads[i];
      if Normalize(w.instanceId) == "" {
        var marked := SetWorkload(i, WorkloadStatus.Failed);
        return true;
      }
      if w.runner == "" {
        return false;
      }
      var reach := CallRunner();
      if reach.NoTerminators? {
        ok := HandleMissing(i, inHand);
        return;
      }
      if reach.Error? {
        return false;
      }
      ok := SetWorkload(i, Stopping);
      if !ok {
        return;
      }
      var stop := CallRunner();
      if stop.NoTerminators? {
        ok := HandleMissing(i, Stopping);
        return;
      }
      if stop.Error? {
        return false;
      }
      ok := SetWorkload(i, WorkloadStatus.Stopped);
      if ok && managed && w.ziti != "" {
        ok := DeleteIdentity(w.ziti);
      }
    }

    /** Stops a workload and makes sure that its identity is gone. */
    method StopSandboxWorkload(i: nat, inHand: WorkloadStatus) returns (ok: bool)
      requires i < |workloads| && (IsActive(inHand) || inHand.Failed?)
      modifies `workloads, `identities, `faults, `writes, `trail
      ensures OnlyPuts(old(trail), trail)
      ensures faults >= old(faults) && writes >= old(writes) && OnlyStatus(old(workloads), workloads, i)
      ensures identities <= old(identities)
      ensures ok && faults == old(faults) ==>
        IsEnded(workloads[i].status) || (!IsActive(inHand) && workloads == old(workloads))
      ensures ok && managed && old(workloads)[i].ziti != "" ==> old(workloads)[i].ziti !in identities
      ensures faults == old(faults) && Stoppable(old(workloads)[i]) ==> ok
    {
      if workloads[i].id == "" {
        return false;
      }
      var w := workloads[i];
      ok := StopWorkload(i, inHand);
      if ok && managed && w.ziti != "" {
        ok := DeleteIdentity(w.ziti);
      }
    }

    /** The positions of the open volumes. */
    method OpenVolumes() returns (open: seq<nat>)
      ensures forall k :: k in open <==> 0 <= k < |volumes| && volumes[k].open
    {
      open := [];
      for k := 0 to |volumes|
        invariant forall j :: j in open ==> j < k && volumes[j].open
        invariant forall j :: 0 <= j < k && volumes[j].open ==> j in open
      {
        if volumes[k].open {
          open := open + [k];
        }
      }
    }

    /** The first active workload is kept, and every further one stopped, until that fails. */
    method StopFurther() returns (ok: bool, active: Option<nat>)
      modifies `workloads, `identities, `faults, `writes, `trail
      ensures OnlyPuts(old(trail), trail)
      ensures faults >= old(faults) && writes >= old(writes) && identities <= old(identities)
      ensures ReadTo(old(workloads), workloads, active, ok && faults == old(faults), ok)
      ensures AtMostOneActive(old(workloads)) ==> ok && identities == old(identities) && writes == old(writes)
      ensures faults == old(faults) && (forall k :: 0 <= k < |old(workloads)| ==> Stoppable(old(workloads)[k])) ==> ok
    {
      ok, active := true, None;
      ghost var before := workloads;
      ReadingStart(workloads);
      hide Reading;
      hide Stoppable;
      for k := 0 to |workloads|
        invariant faults >= old(faults) && writes >= old(writes) && identities <= old(identities)
        invariant OnlyPuts(old(trail), trail) && |workloads| == |before| && ok
        invariant Reading(before, workloads, k, active, faults == old(faults))
        invariant AtMostOneActive(before) ==> identities == old(identities) && writes == old(writes)
      {
        if !IsActive(workloads[k].status) {
          ReadingSkip(before, workloads, k, active, faults == old(faults));
        } else if active.None? {
          ReadingFirst(before, workloads, k, faults == old(faults));
          active := Some(k);
        } else {
          ghost var mid, clean := workloads, faults == old(faults);
          ok := StopSandboxWorkload(k, workloads[k].status);
          ReadingStop(before, mid, workloads, k, active, clean, ok && faults == old(faults));
          if !ok {
            return;
          }
        }
      }
      ReadingDone(before, workloads, active, faults == old(faults));
    }

    /**
     * Reads the sandbox and its records. The first active workload is kept, every further one is stopped;
     * when that fails, so does the read.
     */
    method LoadPlan() returns (ok: bool, plan: Plan)
      modifies `workloads, `identities, `faults, `writes, `trail
      ensures OnlyPuts([], trail)
      ensures faults >= old(faults) && writes >= old(writes) && identities <= old(identities)
      ensures plan.status == status && plan.workloadId == workloadId
      ensures ReadTo(old(workloads), workloads, plan.active, ok && faults == old(faults), ok)
      ensures AtMostOneActive(old(workloads)) ==>
        identities == old(identities) && writes == old(writes) && (faults == old(faults) ==> ok)
      ensures forall k :: k in plan.open ==> k < |volumes| && volumes[k].open
      ensures ok ==> forall k :: 0 <= k < |volumes| && volumes[k].open ==> k in plan.open
      ensures faults == old(faults) && (forall k :: 0 <= k < |old(workloads)| ==> Stoppable(old(workloads)[k])) ==> ok
    {
      plan := Plan(status, workloadId, None, []);
      trail := [];
      ok := *;
      if !ok {
        faults := faults + 1;
        return;
      }
      var active;
      ok, active := StopFurther();
      plan := Plan(status, workloadId, active, []);
      if ok {
        var open := OpenVolumes();
        plan := Plan(status, workloadId, active, open);
      }
    }

    /**
     * What the workload loop does with a workload whose runner has it: the record may be promoted or
     * failed. inHand is the status as known afterwards; a record that could not be failed keeps its own.
     */
    method HandlePresent(i: nat) returns (ok: bool, inHand: WorkloadStatus)
      requires i < |workloads|
      modifies `workloads, `identities, `faults, `writes, `trail
      ensures OnlyPuts(old(trail), trail)
      ensures faults >= old(faults) && writes >= old(writes) && OnlyStatus(old(workloads), workloads, i)
      ensures identities <= old(identities)
      ensures inHand in {old(workloads)[i].status, WorkloadStatus.Running, WorkloadStatus.Failed}
      ensures inHand.Running? ==> old(workloads)[i].status.Running? || old(workloads)[i].status.Starting?
      ensures workloads[i].status in {old(workloads)[i].status, inHand}
      ensures faults == old(faults) ==> ok && workloads[i].status == inHand
      ensures faults == old(faults) && managed && inHand.Failed? && IsActive(old(workloads)[i].status) ==>
        old(workloads)[i].ziti == "" || old(workloads)[i].ziti !in identities
    {
      ok, inHand := true, workloads[i].status;
      var condemned: bool, ready: bool := *, *;
      if condemned && (inHand.Starting? || inHand.Running?) {
        inHand := WorkloadStatus.Failed;
        var marked := SetWorkload(i, inHand);
        var stop := CallRunner();
        if managed && workloads[i].ziti != "" {
          var deleted := DeleteIdentity(workloads[i].ziti);
        }
        return;
      }
      var to := if ready && inHand.Starting? then WorkloadStatus.Running else inHand;
      var changes: bool := *;
      if changes || to != inHand {
        ok := SetWorkload(i, to);
        if !ok {
          return;
        }
        inHand := to;
      }
      if inHand.Stopping? {
        var stop := CallRunner();
        ok := !stop.Error?;
      }
    }

    /** Brings the sandbox in line with its active workload. */
    method ReconcileActive(plan: Plan, i: nat) returns (ok: bool, inHand: WorkloadStatus)
      requires plan.active == Some(i) && i < |workloads| && IsActive(workloads[i].status)
      requires plan.status == status && plan.workloadId == workloadId && (status.Starting? || status.Running?)
      requires OnlyPuts([], trail)
      modifies `status, `workloadId, `workloads, `identities, `faults, `writes, `trail
      ensures Keeps(SightOf(plan), false, trail) && Rank(LastTold(SightOf(plan), trail)) >= 1
      ensures faults >= old(faults) && writes >= old(writes) && OnlyStatus(old(workloads), workloads, i)
      ensures identities <= old(identities)
      ensures Rank(status) <= Rank(old(status)) && Rank(status) >= 1
      ensures status in {old(status), SandboxStatus.Running, SandboxStatus.Failed}
      ensures IsActive(inHand) || inHand.Failed?
      ensures faults == old(faults) && IsWorkable(old(workloads)[i]) ==> ok
      ensures ok && (Normalize(old(workloads)[i].instanceId) == "" || inHand.Starting? || inHand.Stopping?) ==>
        status == old(status) && workloadId == old(workloadId)
      ensures ok && Normalize(old(workloads)[i].instanceId) != "" && inHand.Running? ==> IsUpWith(old(workloads)[i].id)
      ensures ok && Normalize(old(workloads)[i].instanceId) != "" && inHand.Failed? ==>
        status.Failed? && workloadId == None
      ensures ok && faults == old(faults) ==> workloads[i].status == inHand
    {
      hide Keeps;
      hide LastTold;
      inHand := workloads[i].status;
      FirstPuts(SightOf(plan), false, trail);
      if workloads[i].runner == "" || workloads[i].owner == "" {
        return false, inHand;
      }
      var reach := CallRunner();
      if !reach.Answered? {
        faults := faults + if reach.Error? then 0 else 1;
        return false, inHand;
      }
      if Normalize(workloads[i].instanceId) == "" {
        return true, inHand;
      }
      ok, inHand := HandlePresent(i);
      FirstPuts(SightOf(plan), false, trail);
      hide OnlyPuts;
      ok := TellActive(plan, workloads[i].id, inHand);
    }

    /** Tells the sandbox what its active workload is known to be. */
    method TellActive(plan: Plan, id: Id, inHand: WorkloadStatus) returns (ok: bool)
      requires plan.status == status && plan.workloadId == workloadId && (status.Starting? || status.Running?)
      requires Keeps(SightOf(plan), false, trail) && LastTold(SightOf(plan), trail) == plan.status
      modifies `status, `workloadId, `faults, `writes, `trail
      ensures Keeps(SightOf(plan), false, trail) && Rank(LastTold(SightOf(plan), trail)) >= 1
      ensures faults >= old(faults) && writes >= old(writes) && (faults == old(faults) ==> ok)
      ensures Rank(status) <= Rank(old(status))
      ensures
        status == old(status) || (inHand.Running? && status.Running?) || (inHand.Failed? && status.Failed?)
      ensures ok && inHand.Running? ==> IsUpWith(id)
      ensures ok && inHand.Failed? ==> status.Failed? && workloadId == None
      ensures !inHand.Running? && !inHand.Failed? ==> ok && status == old(status) && workloadId == old(workloadId)
    {
      hide Keeps;
      hide LastTold;
      ghost var before := trail;
      ok := true;
      if inHand.Running? {
        ok := UpdateState(plan, SandboxStatus.Running, Set(id));
        TellKeeps(plan, false, before, trail, SandboxStatus.Running, Set(id));
      } else if inHand.Failed? {
        ok := UpdateState(plan, SandboxStatus.Failed, Clear);
        TellKeeps(plan, false, before, trail, SandboxStatus.Failed, Clear);
      }
    }

    /** Closes every volume that was open at the start of the cycle, once its disk is removed. */
    method DeleteWorkspace(plan: Plan) returns (ok: bool)
      requires forall k :: k in plan.open ==> k < |volumes|
      modifies `volumes, `faults, `writes
      ensures faults == old(faults) ==> ok
      ensures faults >= old(faults) && |volumes| == |old(volumes)|
      ensures forall k :: 0 <= k < |volumes| ==>
        volumes[k] == old(volumes)[k] || volumes[k] == old(volumes)[k].(open := false)
      ensures ok ==> forall k :: k in plan.open ==> !volumes[k].open
      ensures plan.open == [] ==> ok && writes == old(writes) && volumes == old(volumes) && faults == old(faults)
    {
      for j := 0 to |plan.open|
        invariant faults >= old(faults) && |volumes| == |old(volumes)|
        invariant forall k :: 0 <= k < |volumes| ==>
          volumes[k] == old(volumes)[k] || volumes[k] == old(volumes)[k].(open := false)
        invariant forall m :: 0 <= m < j ==> plan.open[m] < |volumes| && !volumes[plan.open[m]].open
        invariant plan.open == [] ==> writes == old(writes) && volumes == old(volumes) && faults == old(faults)
      {
        var k := plan.open[j];
        assert k in plan.open;
        if volumes[k].runner != "" {
          var reach := CallRunner();
          if !reach.Answered? {
            faults := faults + if reach.Error? then 0 else 1;
            return false;
          }
          writes := writes + 1;
          var removal := CallRunner();
          if !removal.Answered? {
            faults := faults + if removal.Error? then 0 else 1;
            return false;
          }
        }
        writes := writes + 1;
        var done: bool := *;
        if !done {
          faults := faults + 1;
          return false;
        }
        volumes := volumes[k := volumes[k].(open := false)];
      }
      ok := true;
    }

    method CompensateIdentity(ziti: Id) returns (ok: bool)
      modifies `identities, `faults, `writes
      ensures faults >= old(faults) && writes >= old(writes)
      ensures identities == if ok then old(identities) - Minted(ziti) else old(identities)
    {
      ok := true;
      if ziti != "" {
        ok := DeleteIdentity(ziti);
      }
    }

    /** The identity of a new workload; "" when identities are not managed. */
    method CreateIdentity() returns (ok: bool, ziti: Id, undone: bool)
      modifies `identities, `faults, `writes
      ensures faults >= old(faults) && writes >= old(writes)
      ensures ok ==>
        (managed <==> ziti != "") && Minted(ziti) !! old(identities) && identities == old(identities) + Minted(ziti)
      ensures faults == old(faults) ==> ok
      ensures !ok && undone ==> identities == old(identities)
    {
      ok, undone := *, true;
      var token: bool := *;
      ziti := *;
      if !managed {
        return true, "", undone;
      }
      writes := writes + 1;
      if !ok || ziti in identities {
        faults := faults + 1;
        return false, "", undone;
      }
      if ziti == "" {
        faults := faults + 1;
        return false, "", undone;
      }
      identities := identities + {ziti};
      if !token {
        undone := DeleteIdentity(ziti);
        ok := false;
        faults := faults + 1;
      }
    }

    /** Volume records of the sandbox are created or reopened, or found open; none is undone. */
    method CreateVolumes(records: seq<Id>, runner: Id) returns (ok: bool)
      modifies `volumes, `faults, `writes
      ensures faults >= old(faults) && writes >= old(writes)
      ensures ok ==>
        forall v :: v in records ==> exists k :: 0 <= k < |volumes| && volumes[k].id == v && volumes[k].open
      ensures faults == old(faults) ==> ok
      ensures OnlyOpened(old(volumes), volumes, records, runner)
      ensures |volumes| >= |old(volumes)|
      ensures forall k :: 0 <= k < |old(volumes)| ==>
        volumes[k].id == old(volumes)[k].id && (old(volumes)[k].open ==> volumes[k].open)
    {
      for j := 0 to |records|
        invariant OnlyOpened(old(volumes), volumes, records, runner)
        invariant faults >= old(faults) && writes >= old(writes) && |volumes| >= |old(volumes)|
        invariant forall k :: 0 <= k < |old(volumes)| ==>
          volumes[k].id == old(volumes)[k].id && (old(volumes)[k].open ==> volumes[k].open)
        invariant forall m :: 0 <= m < j ==>
          exists k :: 0 <= k < |volumes| && volumes[k].id == records[m] && volumes[k].open
      {
        ghost var mid := volumes;
        var found := OpenVolume(records[j], runner);
        if !found {
          return false;
        }
        assert forall m :: 0 <= m < j ==>
          exists k ::
            0 <= k < |mid| && mid[k].id == records[m] && mid[k].open && volumes[k].id == records[m] && volumes[k].open;
      }
      ok := true;
    }

    method OpenVolume(v: Id, runner: Id) returns (ok: bool)
      modifies `volumes, `faults, `writes
      ensures faults >= old(faults) && writes >= old(writes) && |volumes| >= |old(volumes)|
      ensures forall k :: 0 <= k < |old(volumes)| ==>
        volumes[k].id == old(volumes)[k].id && (old(volumes)[k].open ==> volumes[k].open)
      ensures faults == old(faults) ==> ok
      ensures OnlyOpened(old(volumes), volumes, [v], runner)
      ensures ok ==> exists k :: 0 <= k < |volumes| && volumes[k].id == v && volumes[k].open
    {
      writes := writes + 1;
      var answers: bool, reopens: bool := *, *;
      if !answers {
        faults := faults + 1;
        return false;
      }
      for k := 0 to |volumes|
        invariant volumes == old(volumes) && faults == old(faults)
        invariant forall m :: 0 <= m < k ==> volumes[m].id != v
      {
        if volumes[k].id == v {
          if volumes[k].open {
            return true;
          }
          if reopens {
            volumes := volumes[k := Volume(v, true, runner)];
            assert volumes[k].id == v && volumes[k].open;
          }
          faults := faults + if reopens then 0 else 1;
          return reopens;
        }
      }
      volumes := volumes + [Volume(v, true, runner)];
      assert volumes[|volumes| - 1].id == v && volumes[|volumes| - 1].open;
      ok := true;
    }

    /** Undoes a start after its record, the last one, has been written. */
    method UndoStart(ziti: Id) returns (undone: bool)
      requires workloads != []
      modifies `workloads, `identities, `faults, `writes, `trail
      ensures OnlyPuts(old(trail), trail)
      ensures faults >= old(faults) && writes >= old(writes)
      ensures OnlyStatus(old(workloads), workloads, |old(workloads)| - 1)
      ensures workloads[|workloads| - 1].status in {old(workloads)[|workloads| - 1].status, WorkloadStatus.Failed}
      ensures identities <= old(identities)
      ensures undone ==> workloads[|workloads| - 1].status.Failed? && identities == old(identities) - Minted(ziti)
    {
      var marked := SetWorkload(|workloads| - 1, WorkloadStatus.Failed);
      var gone := CompensateIdentity(ziti);
      undone := marked && gone;
    }

    /**
     * Starts a workload under a fresh id. launched says that it ends up with a workload that runs or may
     * run; otherwise undone says that every compensating call succeeded.
     */
    method StartWorkload(plan: Plan, id: Id, runner: Id, owner: Id, records: seq<Id>) returns (ok: bool,
        launched: bool, undone: bool)
      requires Rank(status) >= 2 && plan.status == status && plan.workloadId == workloadId
      requires OnlyPuts([], trail) && MayStart(SightOf(plan), false)
      modifies `status, `workloadId, `workloads, `volumes, `identities, `faults, `writes, `trail
      ensures Keeps(SightOf(plan), false, trail) && Rank(LastTold(SightOf(plan), trail)) >= 1
      ensures Rank(status) <= Rank(old(status)) && status in {old(status), SandboxStatus.Running,
          SandboxStatus.Failed} && faults >= old(faults)
      ensures faults == old(faults) ==> ok && launched
      ensures OnlyOpened(old(volumes), volumes, records, runner)
      ensures launched ==>
        forall v :: v in records ==> exists k :: 0 <= k < |volumes| && volumes[k].id == v && volumes[k].open
      ensures ok && !launched ==> status.Failed? && workloadId == None
      ensures |old(workloads)| <= |workloads| <= |old(workloads)| + 1 && workloads[..|old(workloads)|] == old(workloads)
      ensures |workloads| > |old(workloads)| ==>
        var w := workloads[|workloads| - 1];
        w.id == id && w.runner == runner && w.owner == owner && (managed <==> w.ziti != "")
      ensures launched ==> |workloads| > |old(workloads)| && IsActive(workloads[|workloads| - 1].status)
      ensures launched ==> identities == old(identities) + Minted(workloads[|workloads| - 1].ziti)
      ensures launched && ok ==> workloads[|workloads| - 1].instanceId == Normalize(id)
      ensures ok && launched ==> SaysOf(workloads[|workloads| - 1], old(status), old(workloadId))
      ensures !launched && undone ==> identities == old(identities)
      ensures !launched && undone && |workloads| > |old(workloads)| ==> workloads[|workloads| - 1].status.Failed?
    {
      hide Keeps;
      hide LastTold;
      launched, undone := false, true;
      FirstPuts(SightOf(plan), false, trail);
      var assembled: bool := *;
      if !assembled || runner == "" {
        faults := faults + 1;
        return false, launched, undone;
      }
      var ziti;
      ok, ziti, undone := CreateIdentity();
      if !ok {
        return;
      }
      var enrolls: bool := *;
      if ziti != "" && !enrolls {
        faults := faults + 1;
        undone := CompensateIdentity(ziti);
        return false, launched, undone;
      }
      ok := CreateVolumes(records, runner);
      if !ok {
        undone := CompensateIdentity(ziti);
        return false, launched, undone;
      }
      writes := writes + 1;
      OneMoreWrite(SightOf(plan), false, trail, Create);
      trail := trail + [Create];
      var recorded: bool := *;
      if !recorded {
        faults := faults + 1;
        undone := CompensateIdentity(ziti);
        return false, launched, undone;
      }
      workloads := workloads + [Workload(id, WorkloadStatus.Starting, runner, owner, "", ziti, None)];
      ok, launched, undone := LaunchWorkload(plan, ziti);
    }

    /** Once the record is written, last: the runner is asked to start the workload and its answer is checked. */
    method LaunchWorkload(plan: Plan, ziti: Id) returns (ok: bool, launched: bool, undone: bool)
      requires Rank(status) >= 2 && plan.status == status && plan.workloadId == workloadId
      requires workloads != [] && workloads[|workloads| - 1].status.Starting?
      requires Keeps(SightOf(plan), false, trail) && LastTold(SightOf(plan), trail) == plan.status
      requires MayStart(SightOf(plan), false)
      modifies `status, `workloadId, `workloads, `identities, `faults, `writes, `trail
      ensures Keeps(SightOf(plan), false, trail) && Rank(LastTold(SightOf(plan), trail)) >= 1
      ensures Rank(status) <= Rank(old(status)) && status in {old(status), SandboxStatus.Running,
          SandboxStatus.Failed} && faults >= old(faults)
      ensures faults == old(faults) ==> ok && launched
      ensures ok && !launched ==> status.Failed? && workloadId == None
      ensures |workloads| == |old(workloads)| && workloads[..|workloads| - 1] == old(workloads)[..|workloads| - 1]
      ensures var w, before := workloads[|workloads| - 1], old(workloads)[|workloads| - 1];
        && w == before.(status := w.status, instanceId := w.instanceId)
        && (launched && ok ==> w.instanceId == Normalize(w.id))
      ensures launched ==> identities == old(identities)
      ensures launched ==> IsActive(workloads[|workloads| - 1].status)
      ensures ok && launched ==> SaysOf(workloads[|workloads| - 1], old(status), old(workloadId))
      ensures !launched && undone ==>
        identities == old(identities) - Minted(ziti) && workloads[|workloads| - 1].status.Failed?
    {
      hide Keeps;
      hide LastTold;
      hide OnlyPuts;
      hide MayTell;
      launched, undone := false, true;
      var last := |workloads| - 1;
      var answer := CallRunner();
      ghost var before := trail;
      if !answer.Answered? {
        faults := faults + if answer.Error? then 0 else 1;
        undone := UndoStart(ziti);
        PutsKeep(SightOf(plan), false, before, trail);
        return false, launched, undone;
      }
      var raw: Id, failed: bool, running: bool := *, *, *;
      if failed || raw != workloads[last].id {
        faults := faults + 1;
        if raw != "" {
          var stop := CallRunner();
        }
        ok, undone := RejectStart(plan, ziti);
        return;
      }
      launched := true;
      var written: bool, said := *, if running then WorkloadStatus.Running else WorkloadStatus.Starting;
      writes := writes + 1;
      trail := trail + [Put(last, said)];
      OneMoreWrite(SightOf(plan), false, before, Put(last, said));
      if !written {
        faults := faults + 1;
        return false, launched, undone;
      }
      workloads := workloads[last := workloads[last].(status := said, instanceId := Normalize(raw))];
      ok := true;
      if running {
        ok := TellActive(plan, workloads[last].id, WorkloadStatus.Running);
      }
    }

    /** The answer is not the one that the start needs. */
    method RejectStart(plan: Plan, ziti: Id) returns (ok: bool, undone: bool)
      requires (status.Starting? || status.Running?) && plan.status == status && plan.workloadId == workloadId
      requires Keeps(SightOf(plan), false, trail) && LastTold(SightOf(plan), trail) == plan.status && workloads != []
      modifies `status, `workloadId, `workloads, `identities, `faults, `writes, `trail
      ensures Keeps(SightOf(plan), false, trail) && Rank(LastTold(SightOf(plan), trail)) >= 1
      ensures faults >= old(faults) && writes >= old(writes) && (faults == old(faults) ==> ok)
      ensures status in {old(status), SandboxStatus.Failed} && (ok ==> status.Failed? && workloadId == None)
      ensures OnlyStatus(old(workloads), workloads, |old(workloads)| - 1)
      ensures undone ==> identities == old(identities) - Minted(ziti) && workloads[|workloads| - 1].status.Failed?
    {
      hide Keeps;
      hide LastTold;
      ghost var before := trail;
      undone := UndoStart(ziti);
      PutsKeep(SightOf(plan), false, before, trail);
      hide OnlyPuts;
      hide MayTell;
      ok := TellActive(plan, "", WorkloadStatus.Failed);
    }

    /** A start that fails also fails the sandbox. */
    method StartAttempt(plan: Plan, id: Id, runner: Id, owner: Id, records: seq<Id>) returns (ok: bool,
        launched: bool, undone: bool)
      requires Rank(status) >= 2 && plan.status == status && plan.workloadId == workloadId
      requires OnlyPuts([], trail) && MayStart(SightOf(plan), false)
      modifies `status, `workloadId, `workloads, `volumes, `identities, `faults, `writes, `trail
      ensures Keeps(SightOf(plan), false, trail)
      ensures Rank(status) <= Rank(old(status)) && Rank(status) >= 1 && faults >= old(faults)
      ensures faults == old(faults) ==> ok && launched
      ensures ok && !launched ==> status.Failed?
      ensures |old(workloads)| <= |workloads| <= |old(workloads)| + 1 && workloads[..|old(workloads)|] == old(workloads)
      ensures launched ==> |workloads| > |old(workloads)| && IsActive(workloads[|workloads| - 1].status)
      ensures ok && launched ==> SaysOf(workloads[|workloads| - 1], old(status), old(workloadId))
      ensures !launched && undone ==> identities == old(identities)
      ensures !launched && undone && |workloads| > |old(workloads)| ==> workloads[|workloads| - 1].status.Failed?
    {
      hide Keeps;
      hide LastTold;
      ok, launched, undone := StartWorkload(plan, id, runner, owner, records);
      if !ok {
        ghost var before := trail;
        var failed := UpdateState(plan, SandboxStatus.Failed, Clear);
        TellKeeps(plan, false, before, trail, SandboxStatus.Failed, Clear);
      }
    }

    /** A sandbox that is stopped, failed or terminated goes to rest and stays there. */
    method ReconcileResting(plan: Plan) returns (ok: bool)
      requires IsResting(status) && plan.status == status && plan.workloadId == workloadId
      requires plan.active.Some? ==> plan.active.value < |workloads| && IsActive(workloads[plan.active.value].status)
      requires forall k :: k in plan.open ==> k < |volumes|
      requires forall k :: 0 <= k < |volumes| && volumes[k].open ==> k in plan.open
      requires OnlyPuts([], trail)
      modifies `status, `workloadId, `workloads, `volumes, `identities, `faults, `writes, `trail
      ensures Keeps(SightOf(plan), false, trail)
      ensures status == old(status) && faults >= old(faults) && deleted == old(deleted)
      ensures |workloads| == |old(workloads)|
      ensures faults == old(faults) && (plan.active.Some? ==> Stoppable(old(workloads)[plan.active.value])) ==> ok
      ensures forall k :: 0 <= k < |workloads| && Some(k) != plan.active ==> workloads[k] == old(workloads)[k]
      ensures ok && faults == old(faults) && OnlyActive(old(workloads), plan.active) ==> Settled(status, workloadId,
          workloads, volumes)
      ensures ok && managed && plan.active.Some? && old(workloads)[plan.active.value].ziti != "" ==>
        old(workloads)[plan.active.value].ziti !in identities
      ensures plan.active.None? && plan.workloadId == None && (status.Terminated? ==> plan.open == []) ==>
        && ok && writes == old(writes) && faults == old(faults)
        && workloads == old(workloads) && volumes == old(volumes) && workloadId == old(workloadId)
          && identities == old(identities)
    {
      hide Keeps;
      hide LastTold;
      ok := true;
      FirstPuts(SightOf(plan), false, trail);
      hide OnlyPuts;
      ghost var before := trail;
      if plan.active.Some? {
        ok := StopSandboxWorkload(plan.active.value, workloads[plan.active.value].status);
        PutsKeep(SightOf(plan), false, before, trail);
        before := trail;
        if !ok {
          return;
        }
      }
      if plan.workloadId != None || (plan.active.Some? && !plan.status.Terminated?) {
        ok := UpdateState(plan, plan.status, Clear);
        TellKeeps(plan, false, before, trail, plan.status, Clear);
        if !ok {
          return;
        }
      }
      if plan.status.Terminated? {
        ok := DeleteWorkspace(plan);
      }
    }

    /** The TTL has run out. A sandbox that cannot be deleted then is not asked to be deleted again. */
    method Terminate(plan: Plan) returns (ok: bool)
      requires plan.status == status && plan.workloadId == workloadId
      requires plan.active.Some? ==> plan.active.value < |workloads| && IsActive(workloads[plan.active.value].status)
      requires forall k :: k in plan.open ==> k < |volumes|
      requires forall k :: 0 <= k < |volumes| && volumes[k].open ==> k in plan.open
      requires OnlyPuts([], trail) && !plan.status.Terminated?
      modifies this
      ensures Keeps(SightOf(plan), true, trail)
      ensures Rank(status) <= Rank(old(status)) && faults >= old(faults)
      ensures status in {old(status), SandboxStatus.Terminated}
      ensures |workloads| == |old(workloads)|
      ensures faults == old(faults) && (plan.active.Some? ==> Stoppable(old(workloads)[plan.active.value])) ==> ok
      ensures forall k :: 0 <= k < |workloads| && Some(k) != plan.active ==> workloads[k] == old(workloads)[k]
      ensures ok ==> status.Terminated? && deleted
      ensures ok && faults == old(faults) && OnlyActive(old(workloads), plan.active) ==> Settled(status, workloadId,
          workloads, volumes)
    {
      hide Keeps;
      hide LastTold;
      FirstPuts(SightOf(plan), true, trail);
      hide OnlyPuts;
      ghost var before := trail;
      if plan.active.Some? {
        ok := StopSandboxWorkload(plan.active.value, workloads[plan.active.value].status);
        PutsKeep(SightOf(plan), true, before, trail);
        before := trail;
        if !ok {
          return;
        }
      }
      ok := UpdateState(plan, Terminated, Clear);
      TellKeeps(plan, true, before, trail, Terminated, Clear);
      if !ok {
        return;
      }
      ok := DeleteWorkspace(plan);
      if !ok {
        return;
      }
      writes := writes + 1;
      OneMoreWrite(SightOf(plan), true, trail, Delete);
      trail := trail + [Delete];
      ok := *;
      if ok {
        deleted := true;
      } else {
        faults := faults + 1;
      }
    }

    /** A sandbox that is starting or running, before its TTL has run out. */
    method ReconcileUp(plan: Plan, now: Time, id: Id, runner: Id, owner: Id, records: seq<Id>) returns (ok: bool)
      requires (status.Starting? || status.Running?) && plan.status == status && plan.workloadId == workloadId
      requires plan.active.Some? ==> plan.active.value < |workloads| && IsActive(workloads[plan.active.value].status)
      requires OnlyPuts([], trail)
      modifies `status, `workloadId, `workloads, `volumes, `identities, `faults, `writes, `trail
      ensures Keeps(SightOf(plan), false, trail)
      ensures Rank(status) <= Rank(old(status)) && Rank(status) >= 1 && faults >= old(faults)
      ensures |old(workloads)| <= |workloads|
      ensures faults == old(faults) && plan.active.None? && !(old(status).Running? && plan.workloadId != None) ==>
        |workloads| == |old(workloads)| + 1 && IsActive(workloads[|old(workloads)|].status)
      ensures faults == old(faults) && (plan.active.Some? ==> IsWorkable(old(workloads)[plan.active.value])) ==> ok
      ensures plan.active.None? ==>
        |workloads| <= |old(workloads)| + 1 && workloads[..|old(workloads)|] == old(workloads)
      ensures plan.active.Some? ==> |workloads| == |old(workloads)|
      ensures plan.active.Some? ==>
        forall k :: 0 <= k < |workloads| && Some(k) != plan.active ==> workloads[k] == old(workloads)[k]
      ensures ok && plan.active.None? && old(status).Running? && plan.workloadId != None ==>
        status.Stopped? && workloadId == None && workloads == old(workloads)
      ensures ok && plan.active.None? && !(old(status).Running? && plan.workloadId != None) ==>
        status.Failed?
          || (workloads != old(workloads) && SaysOf(workloads[|workloads| - 1], old(status), old(workloadId)))
      ensures plan.active.Some? ==>
        var w := old(workloads)[plan.active.value];
        if old(status).Running? && idleTimeout.Some? && w.activityAt.Some?
          && now > w.activityAt.value + idleTimeout.value
        then
          ok && faults == old(faults) ==>
            status.Stopped? && workloadId == None && !IsActive(workloads[plan.active.value].status)
        else
          && !status.Stopped?
          && (ok ==> status == old(status) || IsUpWith(w.id) || (status.Failed? && workloadId == None))
    {
      hide Keeps;
      hide LastTold;
      FirstPuts(SightOf(plan), false, trail);
      if plan.active.None? {
        ghost var before := trail;
        if plan.status.Running? && plan.workloadId != None {
          ok := UpdateState(plan, SandboxStatus.Stopped, Clear);
          TellKeeps(plan, false, before, trail, SandboxStatus.Stopped, Clear);
          return;
        }
        var launched, undone;
        ok, launched, undone := StartAttempt(plan, id, runner, owner, records);
        return;
      }
      var i, inHand := plan.active.value, WorkloadStatus.Unspecified;
      ok, inHand := ReconcileActive(plan, i);
      assert IsIdle(workloads[i], now) <==> IsIdle(old(workloads)[i], now);
      if !ok || plan.status.Starting? || !IsIdle(workloads[i], now) {
        return;
      }
      ok := StopIdle(plan, i, inHand);
    }

    /** The active workload is stopped, and the sandbox with it. */
    method StopIdle(plan: Plan, i: nat, inHand: WorkloadStatus) returns (ok: bool)
      requires plan.status.Running? && Rank(status) >= 1 && i < |workloads| && (IsActive(inHand) || inHand.Failed?)
      requires Keeps(SightOf(plan), false, trail) && Rank(LastTold(SightOf(plan), trail)) >= 1
      modifies `status, `workloadId, `workloads, `identities, `faults, `writes, `trail
      ensures Keeps(SightOf(plan), false, trail)
      ensures faults >= old(faults) && status in {old(status), SandboxStatus.Stopped}
      ensures faults == old(faults) && Stoppable(old(workloads)[i]) ==> ok
      ensures OnlyStatus(old(workloads), workloads, i)
      ensures ok ==> status.Stopped? && workloadId == None
      ensures ok && faults == old(faults) ==>
        IsEnded(workloads[i].status) || (!IsActive(inHand) && workloads == old(workloads))
    {
      hide Keeps;
      hide LastTold;
      ghost var before := trail;
      ok := StopSandboxWorkload(i, inHand);
      PutsKeep(SightOf(plan), false, before, trail);
      before := trail;
      if ok {
        ok := UpdateState(plan, SandboxStatus.Stopped, Clear);
        TellKeeps(plan, false, before, trail, SandboxStatus.Stopped, Clear);
      }
    }

    /**
     * One cycle of the sandbox; id names the workload it may start. Whatever fails, the sandbox only moves
     * down and gets no second active workload. A cycle that goes through leaves at most one, and settles a
     * sandbox that is resting; a sandbox that is settled is left alone.
     */
    method ReconcileSandbox(now: Time, id: Id, runner: Id, owner: Id, records: seq<Id>) returns (ok: bool)
      modifies this
      ensures faults >= old(faults)
      ensures
        faults == old(faults) && OnlyActive(old(workloads), None) && IsToStart(old(Now()))
          && !(expiresAt.Some? && now >= expiresAt.value) ==>
        |workloads| == |old(workloads)| + 1 && IsActive(workloads[|old(workloads)|].status)
      ensures faults == old(faults) && (forall k :: 0 <= k < |old(workloads)| ==> IsWorkable(old(workloads)[k])) ==>
        ok || (old(status).Unspecified? && !(expiresAt.Some? && now >= expiresAt.value))
      ensures CycleOutcome(old(Now()), Now(), TtlExpired(now), ok, faults > old(faults))
      ensures expiresAt.None? || now < expiresAt.value ==>
        deleted == old(deleted) && (status.Terminated? ==> old(status).Terminated?)
      ensures ok && expiresAt.Some? && now >= expiresAt.value ==>
        status.Terminated? && (old(status).Terminated? || deleted)
      ensures Keeps(Sight(old(status), old(workloadId), OnlyActive(old(workloads), None)),
        TtlExpired(now) && !old(status).Terminated?, trail)
    {
      hide Keeps;
      hide LastTold;
      var plan;
      ghost var before, base := Now(), faults;
      ok, plan := LoadPlan();
      ghost var mid, earlier := Now(), faults;
      FirstPuts(Sight(before.status, before.workloadId, OnlyActive(before.workloads, None)),
        TtlExpired(now) && !before.status.Terminated?, trail);
      if !ok {
        NotLoaded(before, mid, TtlExpired(now), faults > base);
        return;
      }
      ok := Act(plan, now, id, runner, owner, records);
      CycleComposed(before, mid, Now(), plan, TtlExpired(now), ok, earlier > base, faults > earlier);
    }

    method Act(plan: Plan, now: Time, id: Id, runner: Id, owner: Id, records: seq<Id>) returns (ok: bool)
      requires plan.status == status && plan.workloadId == workloadId
      requires plan.active.Some? ==> plan.active.value < |workloads| && IsActive(workloads[plan.active.value].status)
      requires forall k :: k in plan.open ==> k < |volumes|
      requires forall k :: 0 <= k < |volumes| && volumes[k].open ==> k in plan.open
      requires OnlyPuts([], trail)
      modifies this
      ensures Keeps(SightOf(plan), TtlExpired(now) && !plan.status.Terminated?, trail)
      ensures faults >= old(faults)
      ensures faults == old(faults) && plan.active.None? && !TtlExpired(now) && IsToStart(old(Now())) ==>
        |workloads| == |old(workloads)| + 1 && IsActive(workloads[|old(workloads)|].status)
      ensures faults == old(faults) && (plan.active.Some? ==> IsWorkable(old(workloads)[plan.active.value])) ==>
        ok || (old(status).Unspecified? && !TtlExpired(now))
      ensures Acted(old(Now()), Now(), plan, TtlExpired(now), ok, faults > old(faults))
    {
      hide Keeps;
      hide LastTold;
      ghost var loaded := workloads;
      FirstPuts(SightOf(plan), TtlExpired(now) && !plan.status.Terminated?, trail);
      if TtlExpired(now) && !plan.status.Terminated? {
        ok := Terminate(plan);
        KeptApart(loaded, workloads, plan.active);
        return;
      }
      match plan.status {
        case Starting => ok := ReconcileUp(plan, now, id, runner, owner, records);
        case Running => ok := ReconcileUp(plan, now, id, runner, owner, records);
        case Unspecified => ok := false;
        case _ => ok := ReconcileResting(plan);
      }
      if plan.active.Some? || |workloads| == |loaded| {
        KeptApart(loaded, workloads, plan.active);
      } else {
        OneMore(loaded, workloads);
      }
    }
  }

  /** Nothing that belongs to the sandbox is left to be stopped or closed. */
  ghost predicate IsAtRest(s: Snapshot, plan: Plan) {
    plan.active.None? && s.workloadId == None && (s.status.Terminated? ==> plan.open == [])
  }

  /** What the part of a cycle after the read promises. */
  ghost predicate Acted(s: Snapshot, t: Snapshot, plan: Plan, expired: bool, ok: bool, faulty: bool) {
    var rests := s.status.Terminated? || !expired;
    && Rank(t.status) <= Rank(s.status)
    && (OnlyActive(s.workloads, plan.active) ==> AtMostOneActive(t.workloads))
    && (IsResting(s.status) && rests ==> t.status == s.status)
    && (rests ==> t.deleted == s.deleted)
    && (rests && t.status.Terminated? ==> s.status.Terminated?)
    && (ok && !rests ==> t.status.Terminated? && t.deleted)
    && (ok && !faulty && (IsResting(s.status) || !rests) && OnlyActive(s.workloads, plan.active) ==> IsSettled(t))
    && (IsResting(s.status) && rests && IsAtRest(s, plan) ==> t == s)
  }

  /** What reading the plan has done. */
  ghost predicate Loaded(s: Snapshot, m: Snapshot, plan: Plan, faulty: bool) {
    && m == s.(workloads := m.workloads, identities := m.identities, writes := m.writes)
    && (!faulty ==> OnlyActive(m.workloads, plan.active))
    && (AtMostOneActive(s.workloads) ==> m == s && OnlyActive(m.workloads, plan.active))
    && (plan.active.Some? ==> plan.active.value < |m.workloads| && IsActive(m.workloads[plan.active.value].status))
    && (forall k :: k in plan.open ==> k < |m.volumes| && m.volumes[k].open)
  }

  lemma CycleComposed(
    s: Snapshot, m: Snapshot, t: Snapshot, plan: Plan, expired: bool, ok: bool, earlier: bool, later: bool)
    requires Loaded(s, m, plan, earlier) && Acted(m, t, plan, expired, ok, later)
    ensures CycleOutcome(s, t, expired, ok, earlier || later)
  {
    if IsSettled(s) {
      assert plan.open != [] ==> plan.open[0] in plan.open;
      assert AtMostOneActive(s.workloads);
    }
  }

  /** A read that fails has kept at most one workload active, if it was so, and done no more. */
  lemma NotLoaded(s: Snapshot, m: Snapshot, expired: bool, faulty: bool)
    requires m == s.(workloads := m.workloads, identities := m.identities, writes := m.writes)
    requires AtMostOneActive(s.workloads) ==> m == s
    ensures CycleOutcome(s, m, expired, false, faulty)
  {
    if IsSettled(s) {
      assert AtMostOneActive(s.workloads);
    }
  }

  function Minted(ziti: Id): set<Id> {
    if ziti == "" then {} else {ziti}
  }

  /** Nothing about the workloads has changed but their status. */
  predicate SameKeys(before: seq<Workload>, after: seq<Workload>) {
    |after| == |before| && forall k :: 0 <= k < |before| ==> after[k] == before[k].(status := after[k].status)
  }

  lemma SameKeysStep(before: seq<Workload>, mid: seq<Workload>, after: seq<Workload>, i: nat)
    requires SameKeys(before, mid) && OnlyStatus(mid, after, i)
    ensures SameKeys(before, after)
  {
    forall k | 0 <= k < |before| ensures after[k] == before[k].(status := after[k].status) {
      assert mid[k] == before[k].(status := mid[k].status);
    }
  }

  /** Changing only the active workload adds no other active one. */
  lemma KeptApart(before: seq<Workload>, after: seq<Workload>, active: Option<nat>)
    requires |after| == |before| && forall k :: 0 <= k < |before| && Some(k) != active ==> after[k] == before[k]
    ensures OnlyActive(before, active) ==> OnlyActive(after, active) && AtMostOneActive(after)
  {
  }

  /** One more workload where none is active. */
  lemma OneMore(before: seq<Workload>, after: seq<Workload>)
    requires |after| == |before| + 1 && after[..|before|] == before
    ensures OnlyActive(before, None) ==> AtMostOneActive(after)
  {
    assert forall k :: 0 <= k < |before| ==> after[k] == before[k];
  }

  /* Cycles that nothing overlaps. */

  datatype Cycle = Cycle(expired: bool, ok: bool, faulty: bool)

  ghost predicate AreCycles(run: seq<Snapshot>, cycles: seq<Cycle>) {
    && |run| == |cycles| + 1
    && forall k :: 0 <= k < |cycles| ==>
         CycleOutcome(run[k], run[k + 1], cycles[k].expired, cycles[k].ok, cycles[k].faulty)
  }

  /**
   * One cycle that goes through settles a sandbox that is resting or expired, and from then on, while no
   * other loop writes to it, nothing is written: every later cycle, failing or not, leaves everything
   * exactly as it is.
   */
  lemma {:induction false} SettlesForGood(run: seq<Snapshot>, cycles: seq<Cycle>, k: nat)
    requires AreCycles(run, cycles) && 0 < k < |run|
    requires cycles[0].ok && !cycles[0].faulty && (IsResting(run[0].status) || cycles[0].expired)
    requires run[1].status.Terminated? || forall m :: 0 < m < k ==> !cycles[m].expired
    ensures IsSettled(run[k]) && run[k] == run[1]
    decreases k
  {
    var s, c, t := run[k - 1], cycles[k - 1], run[k - 1 + 1];
    assert CycleOutcome(s, t, c.expired, c.ok, c.faulty);
    if k > 1 {
      SettlesForGood(run, cycles, k - 1);
    }
  }
}
