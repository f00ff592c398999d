/**
 * The workload loop: tracked records against what each runner reports
 * (internal/reconciler/workload_reconcile.go). One cycle is one atomic call; any RPC in it may fail.
 */
module WorkloadReconcile {
  import opened Records
  import opened Containers
  import opened WorkloadId

  datatype Workload = Workload(
    runner: Id, status: WorkloadStatus, instanceId: Id, createdAt: Option<Time>, ziti: Id)

  /**
   * A workload on a runner, under the instance id the runner knows it by. containers is None when
   * the runner reports none (bare) or reports some that do not map.
   */
  datatype Pod = Pod(key: Id, stateRunning: bool, bare: bool, containers: Option<seq<Container>>)

  datatype Item = Item(key: Id, instanceId: Id)

  datatype Reach = Reached | NoTerminators | Unreached

  type Ledger = map<Id, Workload>
  type Pods = map<Id, Pod>

  predicate Tracked(records: Ledger, r: Id, id: Id) {
    id != "" && id in records && records[id].runner == r && IsActive(records[id].status)
  }

  /** Keys and instance ids are non-empty, and distinct even after normalization. */
  ghost predicate WellFormed(pods: Pods) {
    && (forall raw :: raw in pods ==> raw != "" && pods[raw].key != "")
    && (forall a, b :: a in pods && b in pods && pods[a].key == pods[b].key ==> a == b)
    && (forall a, b :: a in pods && b in pods && Normalize(a) == Normalize(b) ==> a == b)
  }

  ghost predicate Runs(pods: Pods, key: Id) {
    exists raw :: raw in pods && pods[raw].key == key
  }

  ghost function RawOf(pods: Pods, key: Id): (raw: Id)
    requires Runs(pods, key)
    ensures raw in pods && pods[raw].key == key
  {
    var raw :| raw in pods && pods[raw].key == key;
    raw
  }

  /** The containers condemn the workload. */
  ghost predicate IsCondemned(w: Workload, pod: Pod, now: Time) {
    && pod.containers.Some?
    && exists c :: c in pod.containers.value &&
         if w.status.Starting? then w.createdAt.Some? && Fails(c, now - w.createdAt.value)
         else w.status.Running? && c.role.Main? && IsCrashLooping(c)
  }

  /** A starting workload is seen to be up. */
  ghost predicate Promoted(w: Workload, pod: Pod, now: Time) {
    && w.status.Starting?
    && if pod.containers.Some? then w.createdAt.Some? && IsReady(pod.containers.value, now - w.createdAt.value)
       else pod.stateRunning && pod.bare
  }

  /** A starting workload whose containers name no main container, or that has no creation time. */
  ghost predicate Unclassified(w: Workload, pod: Pod, now: Time) {
    && w.status.Starting? && pod.containers.Some? && !IsCondemned(w, pod, now)
    && (w.createdAt.None? || forall c :: c in pod.containers.value ==> !c.role.Main?)
  }

  /** What becomes of a record whose workload the runner reports under instance id raw. */
  ghost function Present(w: Workload, raw: Id, pod: Pod, now: Time): Workload {
    if Unclassified(w, pod, now) then w
    else
      var status := if IsCondemned(w, pod, now) then WorkloadStatus.Failed
                    else if Promoted(w, pod, now) then WorkloadStatus.Running
                    else w.status;
      Workload(w.runner, status, Normalize(raw), w.createdAt, w.ziti)
  }

  /** What becomes of a record whose workload is gone. */
  function Missing(w: Workload): Workload {
    Workload(w.runner, if w.status.Stopping? then WorkloadStatus.Stopped else WorkloadStatus.Failed, w.instanceId,
        w.createdAt, w.ziti)
  }

  ghost function After(id: Id, w: Workload, pods: Pods, now: Time): Workload {
    if Runs(pods, id) then Present(w, RawOf(pods, id), pods[RawOf(pods, id)], now) else Missing(w)
  }

  /** A pod survives when its record is tracked here and stays starting or running. */
  ghost predicate Survives(records: Ledger, r: Id, raw: Id, pod: Pod, now: Time) {
    && Tracked(records, r, pod.key)
    && Present(records[pod.key], raw, pod, now).status in {WorkloadStatus.Starting, WorkloadStatus.Running}
  }

  /** A record that a cycle fails loses its identity. */
  function Forfeit(w: Workload, clean: Workload): set<Id> {
    if w.ziti != "" && clean.status.Failed? then {w.ziti} else {}
  }

  /** The identities that go with the records of done. */
  ghost function Forfeits(records: Ledger, done: set<Id>, pods: Pods, now: Time): set<Id>
    requires done <= records.Keys
  {
    set id, ziti | id in done && ziti in Forfeit(records[id], After(id, records[id], pods, now)) :: ziti
  }

  /** result is an outcome for a record at w: where a clean cycle takes it or, after a fault, not beyond it. */
  ghost predicate Outcome(w: Workload, clean: Workload, result: Workload, faulty: bool) {
    && result.runner == w.runner && result.createdAt == w.createdAt && result.ziti == w.ziti
    && result.status in {w.status, clean.status}
    && (!faulty ==> result == clean)
  }

  /** What handling one reported workload does to its record and to the pods of its runner. */
  ghost predicate HandledPresent(
    w: Workload, clean: Workload, raw: Id, before: Pods, after: Pods, result: Workload, faulty: bool)
  {
    var ends := clean.status.Failed? || clean.status.Stopping?;
    && Outcome(w, clean, result, faulty)
    && (after == before || (ends && after == before - {raw}))
    && (!faulty && ends ==> after == before - {raw})
  }

  /** No record outside done has changed, and none has moved to another runner. */
  ghost predicate Untouched(before: Ledger, after: Ledger, done: set<Id>) {
    && after.Keys == before.Keys
    && forall id :: id in before ==> after[id].runner == before[id].runner && (id !in done ==> after[id] == before[id])
  }

  /** The records of done have been handled; all the others are as they were. */
  ghost predicate RecordsOutcome(
    before: Ledger, after: Ledger, done: set<Id>, pods: Pods, now: Time, faulty: bool)
  {
    && after.Keys == before.Keys
    && forall id :: id in before ==>
         if id in done then Outcome(before[id], After(id, before[id], pods, now), after[id], faulty)
         else after[id] == before[id]
  }

  /**
   * Pods are only ever removed, and never one that a clean cycle keeps. Of the pods whose keys
   * have been handled, a clean cycle leaves no other.
   */
  ghost predicate PodsOutcome(
    records: Ledger, r: Id, before: Pods, after: Pods, handled: set<Id>, now: Time, faulty: bool)
  {
    && (forall raw :: raw in after ==> raw in before && after[raw] == before[raw])
    && (forall raw :: raw in before && (before[raw].key !in handled || Survives(records, r, raw, before[raw], now)) ==>
          raw in after)
    && (!faulty ==> forall raw :: raw in after && before[raw].key in handled ==> Survives(records, r, raw,
        before[raw], now))
  }

  /** One more record has been handled. */
  lemma RecordsStep(
    before: Ledger, mid: Ledger, after: Ledger, done: set<Id>, id: Id, pods: Pods, now: Time, earlier: bool,
    later: bool)
    requires RecordsOutcome(before, mid, done, pods, now, earlier)
    requires id in before && id !in done && mid.Keys == after.Keys
    requires forall other :: other in mid && other != id ==> after[other] == mid[other]
    requires Outcome(mid[id], After(id, mid[id], pods, now), after[id], later)
    ensures RecordsOutcome(before, after, done + {id}, pods, now, earlier || later)
  {
    forall other | other in before && other in done
      ensures Outcome(before[other], After(other, before[other], pods, now), after[other], earlier || later)
    {
    }
  }

  lemma ForfeitsStep(records: Ledger, done: set<Id>, id: Id, pods: Pods, now: Time)
    requires done <= records.Keys && id in records
    ensures Forfeits(records, done + {id}, pods, now)
         == Forfeits(records, done, pods, now) + Forfeit(records[id], After(id, records[id], pods, now))
  {
  }

  /** The pod of one more tracked record has been handled. */
  lemma PodsStep(
    records: Ledger, r: Id, before: Pods, mid: Pods, after: Pods, handled: set<Id>, raw: Id, clean: Workload,
    result: Workload,
    now: Time, earlier: bool, later: bool)
    requires WellFormed(before) && PodsOutcome(records, r, before, mid, handled, now, earlier)
    requires raw in mid && mid[raw].key in records
    requires Survives(records, r, raw, mid[raw], now) <==> !(clean.status.Failed? || clean.status.Stopping?)
    requires HandledPresent(records[mid[raw].key], clean, raw, mid, after, result, later)
    ensures PodsOutcome(records, r, before, after, handled + {mid[raw].key}, now, earlier || later)
  {
    var key := mid[raw].key;
    forall other | other in before && before[other].key == key ensures other == raw {
      assert before[raw].key == before[other].key;
    }
  }

  /** A key that no pod has makes no difference. */
  lemma PodsStepMissing(
    records: Ledger, r: Id, before: Pods, after: Pods, handled: set<Id>, id: Id, now: Time, earlier: bool, later: bool)
    requires PodsOutcome(records, r, before, after, handled, now, earlier) && !Runs(before, id)
    ensures PodsOutcome(records, r, before, after, handled + {id}, now, earlier || later)
  {
    forall raw | raw in before ensures before[raw].key != id {}
  }

  /** reported maps the keys not handled yet to instance ids. */
  ghost predicate Reports(reported: map<Id, Id>, pods: Pods, handled: set<Id>) {
    && (forall key :: key in reported ==> reported[key] in pods && pods[reported[key]].key == key && key !in handled)
    && (forall raw :: raw in pods && pods[raw].key !in handled ==>
      pods[raw].key in reported && reported[pods[raw].key] == raw)
  }

  /** Part of the way through a runner: the records of done have been handled, and reported holds the rest. */
  ghost predicate Halfway(
    r: Id, before: Ledger, podsBefore: Pods, identitiesBefore: set<Id>,
    records: Ledger, pods: Pods, identities: set<Id>, reported: map<Id, Id>, done: set<Id>, now: Time, faulty: bool)
  {
    && done <= before.Keys
    && RecordsOutcome(before, records, done, podsBefore, now, faulty)
    && PodsOutcome(before, r, podsBefore, pods, done, now, faulty)
    && Reports(reported, podsBefore, done)
    && (!faulty ==> identities == identitiesBefore - Forfeits(before, done, podsBefore, now))
  }

  function TrackedIds(records: Ledger, r: Id): set<Id> {
    set id | id in records && Tracked(records, r, id)
  }

  function At(pods: map<Id, Pods>, r: Id): Pods {
    if r in pods then pods[r] else map[]
  }

  /** Only the pods of r may have changed. */
  ghost predicate SameElse(before: map<Id, Pods>, after: map<Id, Pods>, r: Id) {
    forall other :: other != r ==> At(before, other) == At(after, other)
  }

  class Cluster {
    var records: Ledger
    var pods: map<Id, Pods>
    var identities: set<Id>
    const enrolled: set<Id>  // runners that are enrolled
    const listed: set<Id>    // runners that the organizations with agents list
    const inScope: set<Id>   // listed runners that belong to one of those organizations
    const cut: set<Id>       // runners with no terminators
    ghost var faults: nat    // RPCs that have failed

    method UpdateWorkload(id: Id, w: Workload) returns (ok: bool)
      requires id in records
      modifies this
      ensures pods == old(pods) && identities == old(identities)
      ensures records == if ok then old(records)[id := w] else old(records)
      ensures faults == old(faults) + if ok then 0 else 1
    {
      ok := *;
      if ok {
        records := records[id := w];
      } else {
        faults := faults + 1;
      }
    }

    method DeleteIdentity(ziti: Id)
      modifies this
      ensures pods == old(pods) && records == old(records)
      ensures faults >= old(faults)
      ensures faults == old(faults) ==> identities == old(identities) - {ziti}
    {
      var ok: bool := *;
      if ok {
        identities := identities - {ziti};
      } else {
        faults := faults + 1;
      }
    }

    method Dial(r: Id) returns (reach: Reach)
      modifies `faults
      ensures faults == old(faults) + if reach.Unreached? then 1 else 0
      ensures reach.NoTerminators? ==> r in cut
      ensures reach.Reached? ==> r !in cut
    {
      var ok: bool := *;
      if !ok {
        faults := faults + 1;
        return Unreached;
      }
      return if r in cut then NoTerminators else Reached;
    }

    /** The runner lists its workloads in any order. */
    method ListPods(r: Id) returns (ok: bool, items: seq<Item>)
      modifies `faults
      ensures faults == old(faults) + if ok then 0 else 1
      ensures ok ==> forall raw :: raw in At(pods, r) ==> Item(At(pods, r)[raw].key, raw) in items
      ensures ok ==> forall i :: 0 <= i < |items| ==>
        items[i].instanceId in At(pods, r) && items[i].key == At(pods, r)[items[i].instanceId].key
      ensures ok ==> forall i, j :: 0 <= i < j < |items| ==> items[i] != items[j]
    {
      ok := *;
      items := [];
      if !ok {
        faults := faults + 1;
        return;
      }
      var rest := At(pods, r).Keys;
      while rest != {}
        invariant rest <= At(pods, r).Keys
        invariant forall raw :: raw in At(pods, r) && raw !in rest ==> Item(At(pods, r)[raw].key, raw) in items
        invariant forall i :: 0 <= i < |items| ==>
          items[i].instanceId in At(pods, r) && items[i].instanceId !in rest
            && items[i].key == At(pods, r)[items[i].instanceId].key
        invariant forall i, j :: 0 <= i < j < |items| ==> items[i] != items[j]
        decreases |rest|
      {
        var raw :| raw in rest;
        rest := rest - {raw};
        items := items + [Item(At(pods, r)[raw].key, raw)];
      }
    }

    /** Stops the workload the runner knows by exactly this id; notFound when it knows none. */
    method StopWorkload(r: Id, raw: Id) returns (ok: bool, notFound: bool)
      modifies this
      ensures records == old(records) && identities == old(identities) && SameElse(old(pods), pods, r)
      ensures faults == old(faults) + if ok || notFound then 0 else 1
      ensures !(ok && notFound) && (ok ==> raw in At(old(pods), r)) && (notFound ==> raw !in At(old(pods), r))
      ensures At(pods, r) == if ok then At(old(pods), r) - {raw} else At(old(pods), r)
    {
      var answers: bool := *;
      if !answers {
        faults := faults + 1;
        return false, false;
      }
      if raw !in At(pods, r) {
        return false, true;
      }
      pods := pods[r := pods[r] - {raw}];
      return true, false;
    }

    /** Stops by normalized id; a runner that knows the UUID only with the prefix is asked again. */
    method StopRunnerWorkload(r: Id, instanceId: Id)
      modifies this
      ensures records == old(records) && identities == old(identities) && SameElse(old(pods), pods, r)
      ensures faults >= old(faults)
      ensures At(pods, r) == At(old(pods), r)
        || At(pods, r) == At(old(pods), r) - StopTarget(At(old(pods), r).Keys, instanceId)
      ensures faults == old(faults) ==> At(pods, r) == At(old(pods), r) - StopTarget(At(old(pods), r).Keys, instanceId)
    {
      var ok, notFound := StopWorkload(r, instanceId);
      if ok || !notFound {
        return;
      }
      if !IsUuid(instanceId) {
        return;
      }
      var prefixed := PREFIX + instanceId;
      ok, notFound := StopWorkload(r, prefixed);
    }

    /** Asks the runner by exactly this id. */
    method InspectWorkload(r: Id, raw: Id) returns (pod: Option<Pod>, notFound: bool)
      modifies `faults
      ensures faults == old(faults) + if pod.Some? || notFound then 0 else 1
      ensures pod.Some? ==> !notFound && raw in At(pods, r) && pod.value == At(pods, r)[raw]
      ensures notFound ==> raw !in At(pods, r)
    {
      var answers: bool := *;
      if !answers {
        faults := faults + 1;
        return None, false;
      }
      if raw in At(pods, r) {
        return Some(At(pods, r)[raw]), false;
      }
      return None, true;
    }

    method InspectRunnerWorkload(r: Id, instanceId: Id) returns (pod: Option<Pod>)
      modifies `faults
      ensures faults >= old(faults)
      ensures pod.Some? ==>
        exists raw :: raw in StopTarget(At(pods, r).Keys, instanceId) && pod.value == At(pods, r)[raw]
      ensures faults == old(faults) && StopTarget(At(pods, r).Keys, instanceId) != {} ==> pod.Some?
    {
      var notFound;
      pod, notFound := InspectWorkload(r, instanceId);
      if pod.Some? || !notFound || !IsUuid(instanceId) {
        return;
      }
      pod, notFound := InspectWorkload(r, PREFIX + instanceId);
    }

    method MarkFailed(id: Id, w: Workload, instanceId: Id)
      requires id in records && records[id] == w
      modifies this
      ensures pods == old(pods) && identities == old(identities) && faults >= old(faults)
      ensures records == old(records) || records == old(records)[id := Condemn(w, instanceId)]
      ensures faults == old(faults) ==> records == old(records)[id := Condemn(w, instanceId)]
    {
      var ok := UpdateWorkload(id, Condemn(w, instanceId));
    }

    method HandleMissing(id: Id, w: Workload)
      requires id in records && records[id] == w && IsActive(w.status)
      modifies this
      ensures pods == old(pods) && faults >= old(faults) && Untouched(old(records), records, {id})
      ensures Outcome(w, Missing(w), records[id], faults > old(faults))
      ensures faults == old(faults) ==> identities == old(identities) - Forfeit(w, Missing(w))
    {
      if w.status.Stopping? {
        var ok := UpdateWorkload(id, Missing(w));
      } else {
        MarkFailed(id, w, w.instanceId);
        if w.ziti != "" {
          DeleteIdentity(w.ziti);
        }
      }
    }

    method FailOnRunner(r: Id, id: Id, w: Workload, instanceId: Id)
      requires id in records && records[id] == w
      modifies this
      ensures SameElse(old(pods), pods, r) && faults >= old(faults) && Untouched(old(records), records, {id})
      ensures records[id] == w || records[id] == Condemn(w, instanceId)
      ensures At(pods, r) == At(old(pods), r)
        || At(pods, r) == At(old(pods), r) - StopTarget(At(old(pods), r).Keys, instanceId)
      ensures faults == old(faults) ==>
        && records[id] == Condemn(w, instanceId)
        && At(pods, r) == At(old(pods), r) - StopTarget(At(old(pods), r).Keys, instanceId)
        && identities == old(identities) - if w.ziti != "" then {w.ziti} else {}
    {
      MarkFailed(id, w, instanceId);
      StopRunnerWorkload(r, instanceId);
      if w.ziti != "" {
        DeleteIdentity(w.ziti);
      }
    }

    /** Every tracked record of a runner that is unenrolled or cut off is handled as missing. */
    method HandleAllMissing(r: Id, now: Time)
      modifies this
      ensures pods == old(pods) && faults >= old(faults)
      ensures RecordsOutcome(old(records), records, TrackedIds(old(records), r), map[], now, faults > old(faults))
      ensures faults == old(faults) ==>
        identities == old(identities) - Forfeits(old(records), TrackedIds(old(records), r), map[], now)
    {
      var tracked := TrackedIds(records, r);
      var rest := tracked;
      while rest != {}
        invariant rest <= tracked <= old(records).Keys && tracked == TrackedIds(old(records), r)
        invariant pods == old(pods) && faults >= old(faults)
        invariant RecordsOutcome(old(records), records, tracked - rest, map[], now, faults > old(faults))
        invariant faults == old(faults) ==>
          identities == old(identities) - Forfeits(old(records), tracked - rest, map[], now)
        decreases |rest|
      {
        var id :| id in rest;
        ghost var done := tracked - rest;
        rest := rest - {id};
        assert tracked - rest == done + {id};
        ghost var mid, earlier := records, faults;
        HandleMissing(id, records[id]);
        RecordsStep(old(records), mid, records, done, id, map[], now, earlier > old(faults), faults > earlier);
        ForfeitsStep(old(records), done, id, map[], now);
      }
      assert tracked - {} == tracked;
    }

    method HandlePresent(r: Id, id: Id, w: Workload, raw: Id, now: Time)
      requires id in records && records[id] == w && IsActive(w.status)
      modifies this
      ensures SameElse(old(pods), pods, r) && faults >= old(faults) && Untouched(old(records), records, {id})
      ensures WellFormed(At(old(pods), r)) && raw in At(old(pods), r) ==>
        HandledPresent(w, Present(w, raw, At(old(pods), r)[raw], now), raw, At(old(pods), r), At(pods, r),
            records[id], faults > old(faults))
      ensures WellFormed(At(old(pods), r)) && raw in At(old(pods), r) && faults == old(faults) ==>
        identities == old(identities) - Forfeit(w, Present(w, raw, At(old(pods), r)[raw], now))
    {
      if WellFormed(At(pods, r)) && raw in At(pods, r) {
        StopTargetExact(At(pods, r), At(pods, r), raw);
      }
      var instanceId := Normalize(raw);
      if instanceId == "" {
        return;
      }
      var inspected := InspectRunnerWorkload(r, instanceId);
      var assessment := Assess(w, inspected, now);
      match assessment
      case Leave =>
        return;
      case Condemned =>
        FailOnRunner(r, id, w, instanceId);
      case Continue(status) =>
        var updated := Workload(w.runner, status, instanceId, w.createdAt, w.ziti);
        if updated != w || (inspected.Some? && inspected.value.containers.Some?) {
          var ok := UpdateWorkload(id, updated);
          if !ok {
            return;
          }
        }
        if status.Stopping? {
          StopRunnerWorkload(r, instanceId);
        }
    }

    /** One tracked record of a reachable runner is matched against what the runner reported. */
    method ReconcileOne(
      r: Id, id: Id, reported: map<Id, Id>, now: Time, ghost before: Ledger, ghost podsBefore: Pods,
      ghost identitiesBefore: set<Id>, ghost done: set<Id>, ghost base: nat)
      returns (rest: map<Id, Id>)
      requires id in TrackedIds(before, r) && id !in done && base <= faults && Untouched(before, records, done)
      requires WellFormed(podsBefore) ==> Halfway(r, before, podsBefore, identitiesBefore, records, At(pods, r),
          identities, reported, done, now, faults > base)
      modifies this
      ensures SameElse(old(pods), pods, r) && base <= old(faults) <= faults && Untouched(before, records, done + {id})
      ensures WellFormed(podsBefore) ==> Halfway(r, before, podsBefore, identitiesBefore, records, At(pods, r),
          identities, rest, done + {id}, now, faults > base)
    {
      hide IsCondemned, Promoted, Unclassified, Survives, Halfway;
      ghost var mid, podsMid, identitiesMid, earlier := records, At(pods, r), identities, faults;
      if id !in reported {
        rest := reported;
        HandleMissing(id, records[id]);
        if WellFormed(podsBefore) {
          HalfwayMissing(r, before, podsBefore, identitiesBefore, podsMid, mid, identitiesMid, records, identities,
                         reported, done, id, now, earlier > base, faults > earlier);
        }
      } else {
        rest := reported - {id};
        if WellFormed(podsBefore) {
          HalfwayReported(r, before, podsBefore, identitiesBefore, mid, podsMid, identitiesMid, reported, done, id,
              now, earlier > base);
          SubsetWellFormed(podsBefore, At(pods, r));
          ReportedFate(before, r, id, reported[id], podsBefore, now);
        }
        HandlePresent(r, id, records[id], reported[id], now);
        if WellFormed(podsBefore) {
          HalfwayPresent(r, before, podsBefore, identitiesBefore, podsMid, At(pods, r), mid, identitiesMid, records,
            identities, reported, done, id, After(id, mid[id], podsBefore, now), now, earlier > base, faults > earlier);
        }
      }
    }

    /** Every tracked record of a reachable runner is matched against what the runner reported. */
    method ReconcileTracked(r: Id, reported: map<Id, Id>, now: Time) returns (rest: map<Id, Id>)
      requires WellFormed(At(pods, r)) ==> Reports(reported, At(pods, r), {})
      modifies this
      ensures SameElse(old(pods), pods, r) && faults >= old(faults)
      ensures Untouched(old(records), records, TrackedIds(old(records), r))
      ensures WellFormed(At(old(pods), r)) ==> Halfway(r, old(records), At(old(pods), r), old(identities), records,
          At(pods, r), identities, rest,
                      TrackedIds(old(records), r), now, faults > old(faults))
    {
      ghost var before, podsBefore, identitiesBefore, base := records, At(pods, r), identities, faults;
      var tracked := TrackedIds(records, r);
      var todo := tracked;
      rest := reported;
      if WellFormed(podsBefore) {
        HalfwayStart(r, before, podsBefore, identitiesBefore, reported, now);
      }
      assert tracked - todo == {};
      hide Halfway;
      while todo != {}
        invariant todo <= tracked && SameElse(old(pods), pods, r) && faults >= base
        invariant Untouched(before, records, tracked - todo)
        invariant WellFormed(podsBefore) ==> Halfway(r, before, podsBefore, identitiesBefore, records, At(pods, r),
            identities, rest,
                                                     tracked - todo, now, faults > base)
        decreases |todo|
      {
        var id :| id in todo;
        ghost var done := tracked - todo;
        todo := todo - {id};
        assert tracked - todo == done + {id};
        rest := ReconcileOne(r, id, rest, now, before, podsBefore, identitiesBefore, done, base);
      }
      assert tracked - {} == tracked;
    }

    /** Whatever else the runner reported is stopped. */
    method StopOrphans(r: Id, orphans: map<Id, Id>, ghost podsBefore: Pods, ghost handled: set<Id>)
      modifies this
      ensures SameElse(old(pods), pods,
          r) && faults >= old(faults) && records == old(records) && identities == old(identities)
      ensures forall raw :: raw in At(pods, r) ==> raw in At(old(pods), r) && At(pods, r)[raw] == At(old(pods), r)[raw]
      ensures OrphansKnown(orphans, podsBefore, handled, At(old(pods), r)) ==>
        && (forall raw :: raw in At(old(pods), r) && podsBefore[raw].key in handled ==> raw in At(pods, r))
        && (faults == old(faults) ==> forall raw :: raw in At(pods, r) ==> podsBefore[raw].key in handled)
    {
      hide StopTarget;
      hide Normalize;
      var rest := orphans.Keys;
      while rest != {}
        invariant rest <= orphans.Keys
        invariant SameElse(old(pods), pods,
            r) && faults >= old(faults) && records == old(records) && identities == old(identities)
        invariant forall raw :: raw in At(pods, r) ==>
          raw in At(old(pods), r) && At(pods, r)[raw] == At(old(pods), r)[raw]
        invariant OrphansKnown(orphans, podsBefore, handled, At(old(pods), r)) ==>
          && (forall raw :: raw in At(old(pods), r) && podsBefore[raw].key in handled ==> raw in At(pods, r))
          && (faults == old(faults) ==>
                forall raw :: raw in At(pods, r) ==> podsBefore[raw].key in handled || podsBefore[raw].key in rest)
        decreases |rest|
      {
        var key :| key in rest;
        rest := rest - {key};
        if OrphansKnown(orphans, podsBefore, handled, At(old(pods), r)) {
          StopTargetExact(podsBefore, At(pods, r), orphans[key]);
        }
        var instanceId := Normalize(orphans[key]);
        if instanceId == "" {
          continue;
        }
        StopRunnerWorkload(r, instanceId);
      }
    }

    method IndexItems(r: Id, items: seq<Item>) returns (reported: map<Id, Id>)
      requires forall raw :: raw in At(pods, r) ==> Item(At(pods, r)[raw].key, raw) in items
      requires forall i :: 0 <= i < |items| ==>
        items[i].instanceId in At(pods, r) && items[i].key == At(pods, r)[items[i].instanceId].key
      ensures WellFormed(At(pods, r)) ==> Reports(reported, At(pods, r), {})
    {
      reported := map[];
      for k := 0 to |items|
        invariant forall key :: key in reported ==>
          reported[key] in At(pods, r) && At(pods, r)[reported[key]].key == key
        invariant forall i :: 0 <= i < k && items[i].key != "" ==> items[i].key in reported
      {
        if items[k].key == "" || items[k].key in reported {
          continue;
        }
        reported := reported[items[k].key := items[k].instanceId];
      }
      forall raw | WellFormed(At(pods, r)) && raw in At(pods, r)
        ensures At(pods, r)[raw].key in reported && reported[At(pods, r)[raw].key] == raw
      {
        assert Item(At(pods, r)[raw].key, raw) in items;
      }
    }

    /** A runner that answers: its tracked records first, then its orphans. */
    method ReconcileReached(r: Id, now: Time)
      modifies this
      ensures SameElse(old(pods), pods, r) && faults >= old(faults)
      ensures Untouched(old(records), records, TrackedIds(old(records), r))
      ensures WellFormed(At(old(pods), r)) ==>
        && RecordsOutcome(old(records), records, TrackedIds(old(records), r), At(old(pods), r), now,
          faults > old(faults))
        && PodsOutcome(old(records), r, At(old(pods), r), At(pods, r), AllKeys(At(old(pods), r)), now,
            faults > old(faults))
        && (faults == old(faults) ==>
          identities == old(identities) - Forfeits(old(records), TrackedIds(old(records), r), At(old(pods), r), now))
    {
      ghost var before, podsBefore, identitiesBefore, base := records, At(pods, r), identities, faults;
      var ok, items := ListPods(r);
      if !ok {
        if WellFormed(podsBefore) {
          NothingDone(before, r, podsBefore, now);
        }
        return;
      }
      var reported := IndexItems(r, items);
      var orphans := ReconcileTracked(r, reported, now);
      ghost var podsMid, earlier := At(pods, r), faults;
      StopOrphans(r, orphans, podsBefore, TrackedIds(before, r));
      if WellFormed(podsBefore) {
        OrphansStopped(before, r, podsBefore, podsMid, At(pods, r), now, earlier > base, faults > earlier);
        RecordsFaulty(before, records, TrackedIds(before, r), podsBefore, now, earlier > base, faults > base);
      }
    }

    /** The body of the loop over the runners, some of which are known to be enrolled. */
    method ReconcileRunner(r: Id, known: set<Id>, now: Time)
      modifies this
      ensures SameElse(old(pods), pods, r) && faults >= old(faults)
      ensures Untouched(old(records), records, TrackedIds(old(records), r))
      ensures RunnerDone(r, known - cut, old(records), records, old(pods), pods, now, faults > old(faults))
      ensures WellFormed(Effective(old(pods), r, known - cut)) && faults == old(faults) ==>
        identities == old(identities)
          - Forfeits(old(records), TrackedIds(old(records), r), Effective(old(pods), r, known - cut), now)
    {
      if r !in known {
        HandleAllMissing(r, now);
        return;
      }
      ghost var before, podsBefore := records, At(pods, r);
      var reach := Dial(r);
      match reach
      case NoTerminators =>
        HandleAllMissing(r, now);
      case Unreached =>
        NothingDone(before, r, podsBefore, now);
        NothingDone(before, r, map[], now);
      case Reached =>
        ReconcileReached(r, now);
    }

    /**
     * The runners known to be enrolled: those listed, and those that tracked records name and that are found
     * when looked up one by one. A lookup that fails is not an error of the cycle: its runner is silent.
     */
    method KnownRunners(named: set<Id>) returns (known: set<Id>, silent: set<Id>)
      ensures silent <= named - listed
      ensures forall r :: r in known <==> IsKnown(r, enrolled, listed, named, silent)
    {
      known, silent := enrolled * listed, {};
      var rest := named - listed;
      while rest != {}
        invariant rest <= named - listed && silent <= named - listed && silent !! rest
        invariant forall r :: r in known <==> IsKnown(r, enrolled, listed, named - rest, silent)
        decreases |rest|
      {
        var r :| r in rest;
        rest := rest - {r};
        var ok: bool := *;
        if !ok {
          silent := silent + {r};
        } else if r in enrolled {
          known := known + {r};
        }
      }
    }

    /**
     * One cycle: every runner in scope, in any order. No record or pod outside the scope is touched, and
     * a cycle in which no call fails takes every record, every runner and the identities exactly to their
     * outcome. A failed lookup of a runner is no fault: that runner counts as unenrolled, no more and no less.
     */
    method ReconcileWorkloads(now: Time) returns (answered: bool, known: set<Id>, silent: set<Id>)
      modifies this
      ensures faults >= old(faults) && silent <= Named(old(records)) - listed
      ensures !answered ==>
        records == old(records) && pods == old(pods) && identities == old(identities) && faults == old(faults) + 1
      ensures answered ==> forall r :: r in known <==> IsKnown(r, enrolled, listed, Named(old(records)), silent)
      ensures answered ==> CycleOutcome(Named(old(records)) + (enrolled * listed * inScope), known - cut, old(records),
        records, old(pods), pods, now, faults > old(faults))
      ensures answered && faults == old(faults) ==>
        IdentitiesOutcome(Named(old(records)) + (enrolled * listed * inScope), known - cut, old(records), old(pods),
          old(identities), identities, now)
      ensures answered && faults == old(faults) ==>
        ReachesRecords(known - cut, enrolled * listed * inScope, old(records), records, old(pods), pods, now)
    {
      ghost var before, podsBefore, base := records, pods, faults;
      var scope := Named(records) + (enrolled * listed * inScope);
      // One of the listings may fail: the cycle then ends before it has done anything.
      answered := *;
      if !answered {
        faults := faults + 1;
        known, silent := {}, {};
        return;
      }
      known, silent := KnownRunners(Named(records));
      VisitRunners(scope, known, now);
      if faults == base {
        CycleReachesRecords(known - cut, enrolled * listed * inScope, before, records, podsBefore, pods, now);
      }
    }

    method VisitRunners(scope: set<Id>, known: set<Id>, now: Time)
      modifies this
      ensures faults >= old(faults)
      ensures CycleOutcome(scope, known - cut, old(records), records, old(pods), pods, now, faults > old(faults))
      ensures faults == old(faults) ==>
        IdentitiesOutcome(scope, known - cut, old(records), old(pods), old(identities), identities, now)
    {
      ghost var before, podsBefore, identitiesBefore, base := records, pods, identities, faults;
      var rest := scope;
      assert scope - rest == {};
      CycleStart(known - cut, records, pods, now, false);
      hide CycleOutcome, RunnerDone, Untouched, IdentitiesOutcome;
      assert IdentitiesOutcome({}, known - cut, before, podsBefore, identitiesBefore, identities, now) by {
        IdentitiesStart(known - cut, before, podsBefore, identities, now);
      }
      while rest != {}
        invariant rest <= scope && faults >= base
        invariant CycleOutcome(scope - rest, known - cut, before, records, podsBefore, pods, now, faults > base)
        invariant faults == base ==>
          IdentitiesOutcome(scope - rest, known - cut, before, podsBefore, identitiesBefore, identities, now)
        decreases |rest|
      {
        var r :| r in rest;
        ghost var done, mid, podsMid, identitiesMid, earlier := scope - rest, records, pods, identities, faults;
        rest := rest - {r};
        assert scope - rest == done + {r};
        ReconcileRunner(r, known, now);
        CycleStep(done, known - cut, r, before, mid, records, podsBefore, podsMid, pods, now, earlier > base,
          faults > earlier);
        if faults == base {
          IdentitiesStep(done, known - cut, r, before, mid, podsBefore, podsMid, identitiesBefore, identitiesMid,
            identities, now);
        }
      }
      assert scope - {} == scope;
    }
  }

  /** Known to be enrolled: listed, or named by a tracked record and found when looked up. */
  predicate IsKnown(r: Id, enrolled: set<Id>, listed: set<Id>, named: set<Id>, silent: set<Id>) {
    r in enrolled && (r in listed || (r in named && r !in silent))
  }

  /** The pods that decide the fate of the records of r: none when the runner cannot answer for them. */
  function Effective(pods: map<Id, Pods>, r: Id, up: set<Id>): Pods {
    if r in up then At(pods, r) else map[]
  }

  /** The runners that tracked records name. */
  function Named(records: Ledger): set<Id> {
    set id | id in records && records[id].runner != "" && Tracked(records, records[id].runner, id) :: records[id].runner
  }

  /** A record that is starting, running or stopping on a runner. */
  predicate IsConcerned(id: Id, w: Workload) {
    id != "" && w.runner != "" && w.status in {WorkloadStatus.Starting, WorkloadStatus.Running, Stopping}
  }

  ghost predicate IsNamed(records: Ledger, r: Id) {
    exists id :: id in records && records[id].runner == r && IsConcerned(id, records[id])
  }

  /** Exactly the runners that some such record names. */
  lemma NamedIff(records: Ledger, r: Id)
    ensures r in Named(records) <==> IsNamed(records, r)
  {
    forall id | id in records && records[id].runner == r && r != ""
      ensures Tracked(records, r, id) <==> IsConcerned(id, records[id])
    {
    }
  }

  /** What a clean cycle makes of the status of such a record whose workload is reported, in so many words. */
  ghost predicate IsPresentFate(w: Workload, pod: Pod, now: Time, status: WorkloadStatus) {
    match w.status
    case Starting =>
      if pod.containers.None? then
        status == if pod.stateRunning && pod.bare then WorkloadStatus.Running else WorkloadStatus.Starting
      else if w.createdAt.None? then status.Starting?
      else if exists c :: c in pod.containers.value && IsDoomed(c, now - w.createdAt.value) then status.Failed?
      else status == if IsUp(pod.containers.value) then WorkloadStatus.Running else WorkloadStatus.Starting
    case Running =>
      status == if pod.containers.Some? && (exists c :: c in pod.containers.value && Deserves(c, 0, CrashLoop))
                then WorkloadStatus.Failed else WorkloadStatus.Running
    case _ => status == w.status
  }

  ghost predicate IsFate(id: Id, w: Workload, pods: Pods, now: Time, status: WorkloadStatus) {
    if forall raw :: raw in pods ==> pods[raw].key != id then
      status == if w.status.Stopping? then Stopped else WorkloadStatus.Failed
    else exists raw :: raw in pods && pods[raw].key == id && IsPresentFate(w, pods[raw], now, status)
  }

  /**
   * A clean cycle reaches every starting, running or stopping record that names a runner, whether or not that
   * runner is known or in scope. It leaves alone the workloads of runners that are not known or cut off, and
   * of those that no such record names, unless they are in scope.
   */
  ghost predicate ReachesRecords(
    up: set<Id>, inScope: set<Id>, before: Ledger, after: Ledger, podsBefore: map<Id, Pods>, podsAfter: map<Id, Pods>,
    now: Time)
  {
    && after.Keys == before.Keys
    && (forall id :: id in before && IsConcerned(id, before[id]) ==>
          var w := before[id];
          var pods := if w.runner in up then At(podsBefore, w.runner) else map[];
          WellFormed(pods) ==>
            && after[id] == w.(status := after[id].status, instanceId := after[id].instanceId)
            && IsFate(id, w, pods, now, after[id].status)
            && ((forall raw :: raw in pods ==> pods[raw].key != id) ==> after[id].instanceId == w.instanceId))
    && (forall r :: (!IsNamed(before, r) && r !in inScope) || r !in up ==> At(podsAfter, r) == At(podsBefore, r))
  }

  lemma PresentIsFate(w: Workload, raw: Id, pod: Pod, now: Time)
    ensures IsActive(w.status) ==> IsPresentFate(w, pod, now, Present(w, raw, pod, now).status)
  {
    forall c: Container, age: Time ensures Fails(c, age) <==> IsDoomed(c, age) {
      OwnFailureIff(c, age);
    }
    if w.status.Starting? && pod.containers.Some? && w.createdAt.Some? {
      var cs, age := pod.containers.value, now - w.createdAt.value;
      if forall c :: c in cs ==> !IsDoomed(c, age) {
        SparedIsReadyIff(cs, age);
      }
    }
  }

  lemma AfterIsFate(id: Id, w: Workload, pods: Pods, now: Time)
    requires IsActive(w.status) && WellFormed(pods)
    ensures IsFate(id, w, pods, now, After(id, w, pods, now).status)
    ensures var result := After(id, w, pods, now);
      && result == w.(status := result.status, instanceId := result.instanceId)
      && ((forall raw :: raw in pods ==> pods[raw].key != id) ==> result.instanceId == w.instanceId)
  {
    if Runs(pods, id) {
      PresentIsFate(w, RawOf(pods, id), pods[RawOf(pods, id)], now);
    }
  }

  lemma CycleReachesRecords(
    up: set<Id>, inScope: set<Id>, before: Ledger, after: Ledger, podsBefore: map<Id, Pods>, podsAfter: map<Id, Pods>,
    now: Time)
    requires CycleOutcome(Named(before) + inScope, up, before, after, podsBefore, podsAfter, now, false)
    ensures ReachesRecords(up, inScope, before, after, podsBefore, podsAfter, now)
  {
    hide PodsOutcome;
    hide After;
    hide IsFate;
    hide WellFormed;
    forall id | id in before && IsConcerned(id, before[id])
      ensures var w := before[id];
        var pods := if w.runner in up then At(podsBefore, w.runner) else map[];
        WellFormed(pods) ==>
          && after[id] == w.(status := after[id].status, instanceId := after[id].instanceId)
          && IsFate(id, w, pods, now, after[id].status)
          && ((forall raw :: raw in pods ==> pods[raw].key != id) ==> after[id].instanceId == w.instanceId)
    {
      var w := before[id];
      NamedIff(before, w.runner);
      var pods := Effective(podsBefore, w.runner, up);
      if WellFormed(pods) {
        assert RunnerOutcome(w.runner, up, before, after, podsBefore, podsAfter, now, false);
        assert Tracked(before, w.runner, id);
        AfterIsFate(id, w, pods, now);
      }
    }
    forall r | (!IsNamed(before, r) && r !in inScope) || r !in up ensures At(podsAfter, r) == At(podsBefore, r) {
      NamedIff(before, r);
    }
  }

  /** What handling runner r alone makes of its records and pods. */
  ghost predicate RunnerDone(
    r: Id, up: set<Id>, before: Ledger, after: Ledger, podsBefore: map<Id, Pods>, podsAfter: map<Id, Pods>, now: Time,
    faulty: bool)
  {
    && (r !in up ==> At(podsAfter, r) == At(podsBefore, r))
    && (WellFormed(Effective(podsBefore, r, up)) ==>
          && RecordsOutcome(before, after, TrackedIds(before, r), Effective(podsBefore, r, up), now, faulty)
          && (r in up ==> PodsOutcome(before, r, At(podsBefore, r), At(podsAfter, r), AllKeys(At(podsBefore, r)), now,
              faulty)))
  }

  /** What a cycle makes of runner r, its records and its pods; up are the runners that answer. */
  ghost predicate RunnerOutcome(
    r: Id, up: set<Id>, before: Ledger, after: Ledger, podsBefore: map<Id, Pods>, podsAfter: map<Id, Pods>, now: Time,
    faulty: bool)
  {
    && (r !in up ==> At(podsAfter, r) == At(podsBefore, r))
    && (WellFormed(Effective(podsBefore, r, up)) ==>
          && (forall id :: id in before && Tracked(before, r, id) ==>
                id in after
                && Outcome(before[id], After(id, before[id], Effective(podsBefore, r, up), now), after[id], faulty))
          && (r in up ==>
                PodsOutcome(before, r, At(podsBefore, r), At(podsAfter, r), AllKeys(At(podsBefore, r)), now, faulty)))
  }

  /** A cycle over the runners of done leaves the records and pods of all others alone. */
  ghost predicate CycleOutcome(
    done: set<Id>, up: set<Id>, before: Ledger, after: Ledger, podsBefore: map<Id, Pods>, podsAfter: map<Id, Pods>,
    now: Time, faulty: bool)
  {
    && after.Keys == before.Keys
    && (forall id :: id in before ==> after[id].runner == before[id].runner)
    && (forall id :: id in before && !(before[id].runner in done && Tracked(before, before[id].runner, id)) ==>
      after[id] == before[id])
    && (forall r :: r !in done ==> At(podsAfter, r) == At(podsBefore, r))
    && (forall r :: r in done ==> RunnerOutcome(r, up, before, after, podsBefore, podsAfter, now, faulty))
  }

  /** The identities that a clean cycle over the runners of done takes away. */
  ghost function CycleForfeits(done: set<Id>, up: set<Id>, records: Ledger, pods: map<Id, Pods>, now: Time): set<Id> {
    set r, ziti | r in done && ziti in Forfeits(records, TrackedIds(records, r), Effective(pods, r, up), now) :: ziti
  }

  ghost predicate IdentitiesOutcome(
    done: set<Id>, up: set<Id>, records: Ledger, pods: map<Id, Pods>, before: set<Id>, after: set<Id>, now: Time)
  {
    (forall r :: r in done ==> WellFormed(Effective(pods, r, up))) ==>
      after == before - CycleForfeits(done, up, records, pods, now)
  }

  lemma IdentitiesStart(up: set<Id>, records: Ledger, pods: map<Id, Pods>, identities: set<Id>, now: Time)
    ensures IdentitiesOutcome({}, up, records, pods, identities, identities, now)
  {
    assert CycleForfeits({}, up, records, pods, now) == {};
  }

  /** One more runner has given up its identities. */
  lemma IdentitiesStep(
    done: set<Id>, up: set<Id>, r: Id, before: Ledger, mid: Ledger, podsBefore: map<Id, Pods>, podsMid: map<Id, Pods>,
    identitiesBefore: set<Id>, identitiesMid: set<Id>, identitiesAfter: set<Id>, now: Time)
    requires CycleOutcome(done, up, before, mid, podsBefore, podsMid, now, false) && r !in done
    requires IdentitiesOutcome(done, up, before, podsBefore, identitiesBefore, identitiesMid, now)
    requires WellFormed(Effective(podsMid, r, up)) ==>
      identitiesAfter == identitiesMid - Forfeits(mid, TrackedIds(mid, r), Effective(podsMid, r, up), now)
    ensures IdentitiesOutcome(done + {r}, up, before, podsBefore, identitiesBefore, identitiesAfter, now)
  {
    hide WellFormed, After, RunnerOutcome;
    assert Effective(podsMid, r, up) == Effective(podsBefore, r, up);
    forall id | id in before ensures Tracked(mid, r, id) <==> Tracked(before, r, id) {}
    assert TrackedIds(mid, r) == TrackedIds(before, r);
    assert Forfeits(mid, TrackedIds(mid, r), Effective(podsMid, r, up), now)
        == Forfeits(before, TrackedIds(before, r), Effective(podsBefore, r, up), now);
    assert CycleForfeits(done + {r}, up, before, podsBefore, now) == CycleForfeits(done, up, before, podsBefore, now)
      + Forfeits(before, TrackedIds(before, r), Effective(podsBefore, r, up), now);
  }

  lemma CycleStart(up: set<Id>, records: Ledger, pods: map<Id, Pods>, now: Time, faulty: bool)
    ensures CycleOutcome({}, up, records, records, pods, pods, now, faulty)
  {
  }

  /** One more runner has been handled. */
  lemma CycleStep(
    done: set<Id>, up: set<Id>, r: Id, before: Ledger, mid: Ledger, after: Ledger,
    podsBefore: map<Id, Pods>, podsMid: map<Id, Pods>, podsAfter: map<Id, Pods>, now: Time, earlier: bool, later: bool)
    requires CycleOutcome(done, up, before, mid, podsBefore, podsMid, now, earlier) && r !in done
    requires Untouched(mid, after, TrackedIds(mid, r)) && SameElse(podsMid, podsAfter, r)
    requires RunnerDone(r, up, mid, after, podsMid, podsAfter, now, later)
    ensures CycleOutcome(done + {r}, up, before, after, podsBefore, podsAfter, now, earlier || later)
  {
    hide RunnerOutcome, RunnerDone;
    forall other | other in done
      ensures RunnerOutcome(other, up, before, after, podsBefore, podsAfter, now, earlier || later)
    {
      RunnerKept(other, up, before, mid, after, podsBefore, podsMid, podsAfter, now, earlier, earlier || later);
    }
    NewRunner(r, up, before, mid, after, podsBefore, podsMid, podsAfter, now, later, earlier || later);
  }

  /** Runners handled earlier keep their outcome. */
  lemma RunnerKept(
    r: Id, up: set<Id>, before: Ledger, mid: Ledger, after: Ledger,
    podsBefore: map<Id, Pods>, podsMid: map<Id, Pods>, podsAfter: map<Id, Pods>, now: Time, earlier: bool, later: bool)
    requires RunnerOutcome(r, up, before, mid, podsBefore, podsMid, now, earlier) && (earlier ==> later)
    requires At(podsAfter, r) == At(podsMid, r)
    requires forall id :: id in before && Tracked(before, r, id) && id in mid ==> id in after && after[id] == mid[id]
    ensures RunnerOutcome(r, up, before, after, podsBefore, podsAfter, now, later)
  {
    hide After, WellFormed, Survives;
  }

  /** A runner whose records and pods had not been touched before has the outcome it has alone. */
  lemma NewRunner(
    r: Id, up: set<Id>, before: Ledger, mid: Ledger, after: Ledger,
    podsBefore: map<Id, Pods>, podsMid: map<Id, Pods>, podsAfter: map<Id, Pods>, now: Time, earlier: bool, later: bool)
    requires RunnerDone(r, up, mid, after, podsMid, podsAfter, now, earlier) && (earlier ==> later)
    requires At(podsMid, r) == At(podsBefore, r) && before.Keys == mid.Keys
    requires forall id :: id in before ==> mid[id].runner == before[id].runner
    requires forall id :: id in before && before[id].runner == r ==> mid[id] == before[id]
    ensures RunnerOutcome(r, up, before, after, podsBefore, podsAfter, now, later)
  {
    hide After, WellFormed, Present;
    forall id | id in before ensures Tracked(mid, r, id) <==> Tracked(before, r, id) {}
  }

  /** After a fault, a cycle that did nothing is as good as any. */
  lemma NothingDone(records: Ledger, r: Id, pods: Pods, now: Time)
    ensures RecordsOutcome(records, records, TrackedIds(records, r), pods, now, true)
    ensures PodsOutcome(records, r, pods, pods, AllKeys(pods), now, true)
  {
  }

  lemma RecordsFaulty(before: Ledger, after: Ledger, done: set<Id>, pods: Pods, now: Time, earlier: bool, later: bool)
    requires RecordsOutcome(before, after, done, pods, now, earlier) && (earlier ==> later)
    ensures RecordsOutcome(before, after, done, pods, now, later)
  {
    forall id | id in before && id in done
      ensures Outcome(before[id], After(id, before[id], pods, now), after[id], later)
    {
    }
  }

  /** The orphans are known: a well-formed report of which only the pods in current are left. */
  ghost predicate OrphansKnown(orphans: map<Id, Id>, podsBefore: Pods, handled: set<Id>, current: Pods) {
    && WellFormed(podsBefore) && Reports(orphans, podsBefore, handled)
    && forall raw :: raw in current ==> raw in podsBefore && current[raw] == podsBefore[raw]
  }

  /** The keys of all the workloads on a runner. */
  function AllKeys(pods: Pods): set<Id> {
    set raw | raw in pods :: pods[raw].key
  }

  /** What an inspection says about a record: leave it, fail it, or go on with a status. */
  datatype Assessment = Leave | Condemned | Continue(status: WorkloadStatus)

  method Assess(w: Workload, inspected: Option<Pod>, now: Time) returns (a: Assessment)
    requires IsActive(w.status)
    ensures inspected.None? ==> a == Continue(w.status)
    ensures inspected.Some? ==> (a.Condemned? <==> IsCondemned(w, inspected.value, now))
    ensures inspected.Some? ==> (a.Leave? <==> Unclassified(w, inspected.value, now))
    ensures a.Continue? && inspected.Some? && Promoted(w, inspected.value, now) ==> a.status.Running?
    ensures a.Continue? && !(inspected.Some? && Promoted(w, inspected.value, now)) ==> a.status == w.status
  {
    if inspected.Some? {
      var pod := inspected.value;
      if w.status.Starting? {
        if pod.containers.Some? {
          var verdict := ClassifyStarting(pod.containers.value, w.createdAt, now);
          match verdict {
            case Malformed => return Leave;
            case Failing(failure) => return Condemned;
            case Ready => return Continue(WorkloadStatus.Running);
            case Pending => return Continue(w.status);
          }
        } else if pod.stateRunning && pod.bare {
          return Continue(WorkloadStatus.Running);
        }
      } else if w.status.Running? && pod.containers.Some? {
        var failure := ClassifyRunning(pod.containers.value);
        if failure.Some? {
          return Condemned;
        }
      }
    }
    return Continue(w.status);
  }

  function Condemn(w: Workload, instanceId: Id): Workload {
    w.(status := WorkloadStatus.Failed, instanceId := if instanceId == "" then w.instanceId else instanceId)
  }

  /** A stop with the normalized id finds exactly the workload the item was about, if it is still there. */
  lemma StopTargetExact(pods: Pods, current: Pods, raw: Id)
    requires WellFormed(pods) && raw in pods
    requires forall other :: other in current ==> other in pods
    ensures StopTarget(current.Keys, Normalize(raw)) == (if raw in current then {raw} else {}) && Normalize(raw) != ""
  {
    var id := Normalize(raw);
    NormalizeIdempotent(raw);
    assert id == raw || (IsUuid(id) && raw == PREFIX + id);
    if id in current {
      assert Normalize(id) == Normalize(raw);
    }
    if IsUuid(id) && PREFIX + id in current {
      NormalizeFibres(PREFIX + id, id);
      assert Normalize(PREFIX + id) == Normalize(raw);
    }
  }

  /**
   * Instance ids are normalized before a stop, so a stop reaches the workload it is meant for, whichever
   * that is, exactly when no two ids of the runner normalize alike. Otherwise stopping an orphan can
   * take down a tracked workload instead.
   */
  lemma StopsAreExact(pods: Pods)
    ensures (forall raw :: raw in pods ==> StopTarget(pods.Keys, Normalize(raw)) == {raw})
       <==> (forall a, b :: a in pods && b in pods && Normalize(a) == Normalize(b) ==> a == b)
  {
    if forall a, b :: a in pods && b in pods && Normalize(a) == Normalize(b) ==> a == b {
      forall raw | raw in pods ensures StopTarget(pods.Keys, Normalize(raw)) == {raw} {
        StopFindsOnly(pods, raw);
      }
    }
    forall a, b | a in pods && b in pods && Normalize(a) == Normalize(b)
      ensures (forall raw :: raw in pods ==> StopTarget(pods.Keys, Normalize(raw)) == {raw}) ==> a == b
    {
      assert a in {a};
    }
  }

  lemma StopFindsOnly(pods: Pods, raw: Id)
    requires raw in pods && forall a, b :: a in pods && b in pods && Normalize(a) == Normalize(b) ==> a == b
    ensures StopTarget(pods.Keys, Normalize(raw)) == {raw}
  {
    var id := Normalize(raw);
    NormalizeIdempotent(raw);
    assert id == raw || (IsUuid(id) && raw == PREFIX + id);
    if id in pods {
      assert Normalize(id) == Normalize(raw);
    }
  }

  lemma SubsetWellFormed(pods: Pods, fewer: Pods)
    requires WellFormed(pods) && forall raw :: raw in fewer ==> raw in pods && fewer[raw] == pods[raw]
    ensures WellFormed(fewer)
  {
  }

  lemma HalfwayStart(r: Id, records: Ledger, pods: Pods, identities: set<Id>, reported: map<Id, Id>, now: Time)
    requires Reports(reported, pods, {})
    ensures Halfway(r, records, pods, identities, records, pods, identities, reported, {}, now, false)
  {
  }

  /** Handling a tracked record that the runner did not report. */
  lemma HalfwayMissing(
    r: Id, before: Ledger, podsBefore: Pods, identitiesBefore: set<Id>, pods: Pods,
    records: Ledger, identities: set<Id>, records': Ledger, identities': set<Id>,
    reported: map<Id, Id>, done: set<Id>, id: Id, now: Time, earlier: bool, later: bool)
    requires id in TrackedIds(before, r) && id !in done && id !in reported
    requires Halfway(r, before, podsBefore, identitiesBefore, records, pods, identities, reported, done, now, earlier)
    requires records'.Keys == records.Keys && Outcome(records[id], Missing(records[id]), records'[id], later)
    requires forall other :: other in records && other != id ==> records'[other] == records[other]
    requires !later ==> identities' == identities - Forfeit(records[id], Missing(records[id]))
    ensures Halfway(r, before, podsBefore, identitiesBefore, records', pods, identities', reported, done + {id}, now,
        earlier || later)
  {
    assert !Runs(podsBefore, id);
    PodsStepMissing(before, r, podsBefore, pods, done, id, now, earlier, later);
    RecordsStep(before, records, records', done, id, podsBefore, now, earlier, later);
    ForfeitsStep(before, done, id, podsBefore, now);
    assert Reports(reported, podsBefore, done + {id});
  }

  /** A record not handled yet is as it was, and so is the workload reported for it. */
  lemma HalfwayReported(
    r: Id, before: Ledger, podsBefore: Pods, identitiesBefore: set<Id>, records: Ledger, pods: Pods,
    identities: set<Id>, reported: map<Id, Id>, done: set<Id>, id: Id, now: Time, faulty: bool)
    requires Halfway(r, before, podsBefore, identitiesBefore, records, pods, identities, reported, done, now, faulty)
    requires id in TrackedIds(before, r) && id !in done && id in reported
    ensures id in records && records[id] == before[id]
    ensures forall raw :: raw in pods ==> raw in podsBefore && pods[raw] == podsBefore[raw]
    ensures reported[id] in pods && pods[reported[id]].key == id
  {
  }

  /** Handling a tracked record that the runner reported. */
  lemma HalfwayPresent(
    r: Id, before: Ledger, podsBefore: Pods, identitiesBefore: set<Id>, pods: Pods, pods': Pods,
    records: Ledger, identities: set<Id>, records': Ledger, identities': set<Id>,
    reported: map<Id, Id>, done: set<Id>, id: Id, clean: Workload, now: Time, earlier: bool, later: bool)
    requires records'.Keys == records.Keys && id in records
    requires WellFormed(podsBefore) && id in TrackedIds(before, r) && id !in done && id in reported
    requires Halfway(r, before, podsBefore, identitiesBefore, records, pods, identities, reported, done, now, earlier)
    requires id in records && reported[id] in pods && clean == After(id, records[id], podsBefore, now)
    requires Survives(before, r, reported[id], pods[reported[id]],
        now) <==> !(clean.status.Failed? || clean.status.Stopping?)
    requires HandledPresent(records[id], clean, reported[id], pods, pods', records'[id], later)
    requires forall other :: other in records && other != id ==> records'[other] == records[other]
    requires !later ==> identities' == identities - Forfeit(records[id], clean)
    ensures Halfway(r, before, podsBefore, identitiesBefore, records', pods', identities', reported - {id},
        done + {id}, now, earlier || later)
  {
    assert PodsOutcome(before, r, podsBefore, pods', done + {id}, now, earlier || later) by {
      PodsStep(before, r, podsBefore, pods, pods', done, reported[id], clean, records'[id], now, earlier, later);
    }
    assert RecordsOutcome(before, records', done + {id}, podsBefore, now, earlier || later) by {
      RecordsStep(before, records, records', done, id, podsBefore, now, earlier, later);
    }
    assert Reports(reported - {id}, podsBefore, done + {id}) by {
      ReportsStep(reported, podsBefore, done, id);
    }
    assert !earlier && !later ==> identities' == identitiesBefore - Forfeits(before, done + {id}, podsBefore, now) by {
      ForfeitsStep(before, done, id, podsBefore, now);
    }
  }

  /** What After and Survives say about a record whose workload is reported as raw. */
  lemma ReportedFate(records: Ledger, r: Id, id: Id, raw: Id, pods: Pods, now: Time)
    requires WellFormed(pods) && Tracked(records, r, id) && raw in pods && pods[raw].key == id
    ensures After(id, records[id], pods, now) == Present(records[id], raw, pods[raw], now)
    ensures var clean := Present(records[id], raw, pods[raw], now);
      Survives(records, r, raw, pods[raw], now) <==> !(clean.status.Failed? || clean.status.Stopping?)
  {
    assert RawOf(pods, id) == raw;
  }

  /** Once the orphans are stopped too, every key of the runner has been handled. */
  lemma OrphansStopped(
    records: Ledger, r: Id, before: Pods, mid: Pods, after: Pods, now: Time, earlier: bool, later: bool)
    requires PodsOutcome(records, r, before, mid, TrackedIds(records, r), now, earlier)
    requires forall raw :: raw in after ==> raw in mid && after[raw] == mid[raw]
    requires forall raw :: raw in mid && before[raw].key in TrackedIds(records, r) ==> raw in after
    requires !later ==> forall raw :: raw in after ==> before[raw].key in TrackedIds(records, r)
    ensures PodsOutcome(records, r, before, after, AllKeys(before), now, earlier || later)
  {
  }

  lemma ReportsStep(reported: map<Id, Id>, pods: Pods, done: set<Id>, id: Id)
    requires WellFormed(pods) && Reports(reported, pods, done)
    ensures Reports(reported - {id}, pods, done + {id})
  {
  }
}
