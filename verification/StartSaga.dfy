/**
 * Starting and stopping one workload, with compensation
 * (internal/reconciler/reconciler.go, internal/reconciler/lifecycle_helpers.go).
 */
module StartSaga {
  import opened Records
  import opened WorkloadId

  datatype Volume = Volume(
    status: VolumeStatus, runner: Id, thread: Id, agent: Id, organization: Id, definition: Id, sandboxOwned: bool,
    owner: Id)

  datatype VolumeRecord = VolumeRecord(id: Id, definition: Id, sizeGb: string)

  datatype Workload = Workload(status: WorkloadStatus, runner: Id, instance: Id, ziti: Id, instanceId: Id)

  datatype Target = Target(agent: Id, instance: Id, organization: Id)

  type Volumes = map<Id, Volume>

  predicate IsComplete(record: VolumeRecord) {
    record.id != "" && record.definition != "" && record.sizeGb != ""
  }

  /** The row that a start asks for. */
  function Requested(record: VolumeRecord, runner: Id, target: Target): Volume {
    Volume(Provisioning, runner, target.instance, target.agent, target.organization, record.definition, false,
        target.instance)
  }

  /** A row that the start may go on with: provisioning or active, on its runner, and of its instance. */
  predicate IsUsable(volume: Volume, record: VolumeRecord, runner: Id, target: Target) {
    && (volume.status.Provisioning? || volume.status.Active?)
    && volume.runner == runner && volume.definition == record.definition && !volume.sandboxOwned
    && volume.thread == target.instance && volume.owner == target.instance
    && volume.agent == target.agent && volume.organization == target.organization
  }

  /** The row is what one of the records asks for, but for its status. */
  ghost predicate IsRequested(row: Volume, v: Id, records: seq<VolumeRecord>, runner: Id, target: Target) {
    exists i ::
      0 <= i < |records| && records[i].id == v && row.(status := Provisioning) == Requested(records[i], runner, target)
  }

  /**
   * The rows of created are new or were closed, and are now as requested, at one of the given statuses.
   * Every other row is as it was.
   */
  ghost predicate OnlyCreated(
    before: Volumes, after: Volumes, created: seq<Id>, statuses: set<VolumeStatus>, records: seq<VolumeRecord>,
    runner: Id, target: Target)
  {
    && before.Keys + (set v | v in created) == after.Keys
    && forall v :: v in after ==>
         if v in created then
           && (v in before ==> !IsOpen(before[v].status))
           && after[v].status in statuses && IsRequested(after[v], v, records, runner, target)
         else v in before && after[v] == before[v]
  }

  /** All volumes that the start needs can be used. */
  ghost predicate AllUsable(volumes: Volumes, records: seq<VolumeRecord>, runner: Id, target: Target) {
    forall i :: 0 <= i < |records| ==>
      records[i].id in volumes && IsUsable(volumes[records[i].id], records[i], runner, target)
  }

  /** What an attempt sets out to do. */
  datatype Plan = Plan(id: Id, runner: Id, target: Target, records: seq<VolumeRecord>)

  datatype Stores = Stores(workloads: map<Id, Workload>, volumes: Volumes, identities: set<Id>, pods: set<Id>)

  function Minted(id: Option<Id>): set<Id> {
    if id.Some? then {id.value} else {}
  }

  function NewWorkload(plan: Plan, ziti: Option<Id>, status: WorkloadStatus, instanceId: Id): Workload {
    Workload(status, plan.runner, plan.target.instance, if ziti.Some? then ziti.value else "", instanceId)
  }

  ghost predicate CreatedAt(before: Stores, after: Stores, plan: Plan, created: seq<Id>, statuses: set<VolumeStatus>) {
    OnlyCreated(before.volumes, after.volumes, created, statuses, plan.records, plan.runner, plan.target)
  }

  /** The attempt has succeeded; written says that the instance id has been written to the record. */
  ghost predicate Started(
    before: Stores, after: Stores, plan: Plan, ziti: Option<Id>, created: seq<Id>, written: bool)
  {
    && after.workloads.Keys == before.workloads.Keys + {plan.id}
    && (forall id :: id in before.workloads && id != plan.id ==> after.workloads[id] == before.workloads[id])
    && after.workloads[plan.id].status.Starting? && after.workloads[plan.id].runner == plan.runner
    && after.workloads[plan.id].instance == plan.target.instance
    && after.workloads[plan.id].instanceId == (if written then plan.id else "")
    && (match ziti case None => after.workloads[plan.id].ziti == "" case Some(z) => after.workloads[plan.id].ziti == z)
    && Minted(ziti) !! before.identities && after.identities == before.identities + Minted(ziti)
    && CreatedAt(before, after, plan, created, {Provisioning})
    && AllUsable(after.volumes, plan.records, plan.runner, plan.target)
    && after.pods == before.pods + {plan.id} && plan.id !in before.pods
  }

  /** No record of the attempt has been written, or it is at one of the given statuses. */
  ghost predicate RecordAt(before: Stores, after: Stores, plan: Plan, ziti: Option<Id>, statuses: set<WorkloadStatus>) {
    || after.workloads == before.workloads
    || exists status, instanceId ::
         status in statuses
           && after.workloads == before.workloads[plan.id := NewWorkload(plan, ziti, status, instanceId)]
  }

  /** What the runner says to a start; NoReply when the call fails. */
  datatype Reply = NoReply | Reply(raw: Id, failed: bool)

  /** No id has come back. */
  predicate TellsNoId(reply: Reply) {
    reply.NoReply? || reply.raw == ""
  }

  /** The workload, if any, that the runner has started under an id that has not come back. */
  ghost predicate Hides(reply: Reply, hidden: Option<Id>, pods: set<Id>) {
    && (hidden.Some? ==> TellsNoId(reply) && hidden.value !in pods)
    && (reply == Reply("", false) ==> hidden.Some?)
  }

  /**
   * The attempt has failed and has been undone: nothing is left but closed records and, after an answer
   * without an id or a call that has failed, the workload that nobody has been told to stop.
   */
  ghost predicate Undone(
    before: Stores, after: Stores, plan: Plan, ziti: Option<Id>, created: seq<Id>, hidden: Option<Id>)
  {
    && RecordAt(before, after, plan, ziti, {WorkloadStatus.Failed})
    && after.identities == before.identities && after.pods == before.pods + Minted(hidden)
    && CreatedAt(before, after, plan, created, {VolumeFailed})
  }

  /** The attempt has failed and so have some of the calls that should undo it: what it may leave behind. */
  ghost predicate Contained(before: Stores, after: Stores, plan: Plan, ziti: Option<Id>, created: seq<Id>) {
    && RecordAt(before, after, plan, ziti, {Starting, WorkloadStatus.Failed})
    && before.identities <= after.identities
    && before.pods <= after.pods
    && CreatedAt(before, after, plan, created, {Provisioning, VolumeFailed})
  }

  /**
   * What stopping a workload may have done. A record is stopped only once its workload is, unless the
   * runner is lost; the identity goes only with an ended record, or when failing the record failed.
   */
  ghost predicate StopOutcome(before: Stores, after: Stores, id: Id, managed: bool, ok: bool, lost: bool,
      failureLost: bool)
    requires id in before.workloads
  {
    var w := before.workloads[id];
    var target := StopTarget(before.pods, Normalize(w.instanceId));
    && (exists status :: status in {w.status, Stopping, Stopped,
        WorkloadStatus.Failed} && after.workloads == before.workloads[id := w.(status := status)])
    && (after.pods == before.pods || after.pods == before.pods - target)
    && (after.identities == before.identities
        || (managed && w.ziti != "" && after.identities == before.identities - {w.ziti}))
    && (after.workloads[id].status.Stopped? && !w.status.Stopped? && !lost ==> after.pods == before.pods - target)
    && (after.identities != before.identities ==> IsEnded(after.workloads[id].status) || failureLost)
    && (ok ==>
          if Normalize(w.instanceId) == "" then
            && after.pods == before.pods && after.identities == before.identities
            && (!failureLost ==> after.workloads[id].status.Failed?)
          else if lost then !failureLost ==> !IsActive(after.workloads[id].status)
          else
            && after.workloads[id].status.Stopped? && after.pods == before.pods - target
            && (managed && w.ziti != "" ==> after.identities == before.identities - {w.ziti}))
  }

  datatype Answer = Answered | NotFound | AlreadyExists | NoTerminators | Error

  /**
   * The records are complete, and rows that are open are fit to go on with, or agree with each other where
   * several are for the same volume.
   */
  ghost predicate IsStartable(volumes: Volumes, records: seq<VolumeRecord>, runner: Id, target: Target) {
    && (forall i :: 0 <= i < |records| ==> IsComplete(records[i]))
    && (forall i :: 0 <= i < |records| && records[i].id in volumes && IsOpen(volumes[records[i].id].status) ==>
          IsUsable(volumes[records[i].id], records[i], runner, target))
    && (forall i, j :: 0 <= i < j < |records| && records[i].id == records[j].id ==>
          records[i].definition == records[j].definition)
  }

  /** The record names its runner and a workload that the runner knows, or that it need not know. */
  predicate CanBeStopped(s: Stores, id: Id)
    requires id in s.workloads
  {
    var instanceId := Normalize(s.workloads[id].instanceId);
    instanceId == "" || (s.workloads[id].runner != "" && (IsUuid(instanceId) || instanceId in s.pods))
  }

  class Services {
    var workloads: map<Id, Workload>
    var volumes: Volumes
    var identities: set<Id>
    var pods: set<Id>        // instance ids on the runner
    ghost var undoFailures: nat   // compensating calls that failed
    ghost var faults: nat         // calls of any kind that failed, or were not answered as they should

    /** A row that is open already exists; a closed one is reopened, or reported as existing. */
    method CreateVolume(id: Id, row: Volume) returns (answer: Answer)
      modifies `volumes, `faults
      ensures answer in {Answered, AlreadyExists, Error}
      ensures volumes == if answer.Answered? then old(volumes)[id := row] else old(volumes)
      ensures answer.Answered? && id in old(volumes) ==> !IsOpen(old(volumes)[id].status)
      ensures answer.AlreadyExists? ==> id in volumes
      ensures faults >= old(faults)
      ensures faults == old(faults) ==>
        (answer.AlreadyExists? <==> id in old(volumes) && IsOpen(old(volumes)[id].status))
      ensures faults == old(faults) ==> !answer.Error?
    {
      var ok: bool, reopens: bool := *, *;
      if !ok {
        faults := faults + 1;
        return Error;
      }
      if id in volumes && (IsOpen(volumes[id].status) || !reopens) {
        faults := faults + if IsOpen(volumes[id].status) then 0 else 1;
        return AlreadyExists;
      }
      volumes := volumes[id := row];
      return Answered;
    }

    method GetVolume(id: Id) returns (volume: Option<Volume>)
      modifies `faults
      ensures faults >= old(faults) && (faults == old(faults) && id in volumes ==> volume.Some?)
      ensures volume.Some? ==> id in volumes && volume.value == volumes[id]
    {
      var ok: bool := *;
      if !ok {
        faults := faults + 1;
        return None;
      }
      return if id in volumes then Some(volumes[id]) else None;
    }

    method UpdateVolume(id: Id, status: VolumeStatus) returns (ok: bool)
      requires id in volumes
      modifies `volumes, `faults
      ensures faults == old(faults) + if ok then 0 else 1
      ensures volumes == if ok then old(volumes)[id := old(volumes)[id].(status := status)] else old(volumes)
    {
      ok := *;
      if ok {
        volumes := volumes[id := volumes[id].(status := status)];
      } else {
        faults := faults + 1;
      }
    }

    method PrepareExisting(record: VolumeRecord, runner: Id, target: Target) returns (ok: bool)
      modifies `faults
      ensures faults >= old(faults)
      ensures faults == old(faults) && record.id in volumes ==>
        (ok <==> IsUsable(volumes[record.id], record, runner, target))
      ensures ok ==> record.id in volumes && IsUsable(volumes[record.id], record, runner, target)
    {
      var existing := GetVolume(record.id);
      if existing.None? || existing.value.(status := Provisioning) != Requested(record, runner, target) {
        return false;
      }
      return existing.value.status.Provisioning? || existing.value.status.Active?;
    }

    /** The row of one record is created, or found fit to go on with. */
    method PrepareRecord(record: VolumeRecord, runner: Id, target: Target) returns (ok: bool, isNew: bool)
      modifies `volumes, `faults
      ensures faults >= old(faults) && (ok ==> IsComplete(record)) && (isNew ==> ok)
      ensures volumes == if isNew then old(volumes)[record.id := Requested(record, runner, target)] else old(volumes)
      ensures isNew && record.id in old(volumes) ==> !IsOpen(old(volumes)[record.id].status)
      ensures ok ==> record.id in volumes && IsUsable(volumes[record.id], record, runner, target)
      ensures faults == old(faults) && IsComplete(record) ==>
        (record.id in old(volumes) && IsOpen(old(volumes)[record.id].status) ==>
           IsUsable(old(volumes)[record.id], record, runner, target)) ==> ok
    {
      isNew := false;
      if !IsComplete(record) {
        return false, isNew;
      }
      var answer := CreateVolume(record.id, Requested(record, runner, target));
      if answer.Error? {
        return false, isNew;
      }
      if answer.AlreadyExists? {
        ok := PrepareExisting(record, runner, target);
        return;
      }
      return true, true;
    }

    /** On an error, created says which rows this call has created so far. */
    method CreateVolumeRecords(records: seq<VolumeRecord>, runner: Id, target: Target) returns (ok: bool,
        created: seq<Id>)
      modifies `volumes, `faults
      ensures OnlyCreated(old(volumes), volumes, created, {Provisioning}, records, runner, target)
      ensures faults >= old(faults)
      ensures faults == old(faults) && IsStartable(old(volumes), records, runner, target) ==> ok
      ensures ok ==> AllUsable(volumes, records, runner, target)
      ensures ok ==> forall i :: 0 <= i < |records| ==>
        records[i].id != "" && records[i].definition != "" && records[i].sizeGb != ""
    {
      created := [];
      for k := 0 to |records|
        invariant OnlyCreated(old(volumes), volumes, created, {Provisioning}, records, runner, target)
        invariant forall i :: 0 <= i < k ==> IsComplete(records[i])
        invariant AllUsable(volumes, records[..k], runner, target) && faults >= old(faults)
        invariant faults == old(faults) && IsStartable(old(volumes), records, runner, target) ==>
          IsStartable(volumes, records, runner, target)
      {
        ghost var was := volumes;
        var prepared, isNew := PrepareRecord(records[k], runner, target);
        if !prepared {
          return false, created;
        }
        assert records[..k + 1] == records[..k] + [records[k]];
        if isNew {
          StaysStartable(was, records, k, runner, target);
          CreatedOneMore(old(volumes), was, created, records, k, runner, target);
          created := created + [records[k].id];
        }
      }
      assert records[..|records|] == records;
      ok := true;
    }

    method MarkVolumesFailed(created: seq<Id>, ghost before: Volumes, ghost records: seq<VolumeRecord>,
        ghost runner: Id, ghost target: Target)
      requires OnlyCreated(before, volumes, created, {Provisioning}, records, runner, target)
      modifies `volumes, `undoFailures, `faults
      ensures undoFailures >= old(undoFailures) && faults >= old(faults)
      ensures OnlyCreated(before, volumes, created, {Provisioning, VolumeFailed}, records, runner, target)
      ensures undoFailures == old(undoFailures) ==> OnlyCreated(before, volumes, created, {VolumeFailed}, records,
          runner, target)
    {
      WiderStatuses(before, volumes, created, records, runner, target);
      hide OnlyCreated, AllFailed;
      for k := 0 to |created|
        invariant undoFailures >= old(undoFailures) && faults >= old(faults)
        invariant OnlyCreated(before, volumes, created, {Provisioning, VolumeFailed}, records, runner, target)
        invariant undoFailures == old(undoFailures) ==> AllFailed(volumes, created[..k])
      {
        FailedOneMore(before, volumes, created, k, records, runner, target);
        var ok := UpdateVolume(created[k], VolumeFailed);
        if !ok {
          undoFailures := undoFailures + 1;
        }
      }
      assert created[..|created|] == created;
      if undoFailures == old(undoFailures) {
        NoneLeft(before, volumes, created, records, runner, target);
      }
    }

    method DeleteIdentity(ziti: Id) returns (ok: bool)
      modifies `identities, `faults
      ensures faults == old(faults) + if ok then 0 else 1
      ensures identities == if ok then old(identities) - {ziti} else old(identities)
    {
      ok := *;
      if ok {
        identities := identities - {ziti};
      } else {
        faults := faults + 1;
      }
    }

    method CompensateIdentity(ziti: Option<Id>)
      modifies `identities, `undoFailures, `faults
      ensures undoFailures >= old(undoFailures) && faults >= old(faults)
      ensures identities == old(identities) || (ziti.Some? && identities == old(identities) - {ziti.value})
      ensures undoFailures == old(undoFailures) ==>
        identities == old(identities) - (if ziti.Some? then {ziti.value} else {})
    {
      if ziti.None? {
        return;
      }
      var ok := DeleteIdentity(ziti.value);
      if !ok {
        undoFailures := undoFailures + 1;
      }
    }

    /** The management service mints an identity that was not there; either field may be missing from its answer. */
    method MintIdentity() returns (ok: bool, ziti: Id, jwt: string)
      modifies `identities, `faults
      ensures faults == old(faults) + if ok && ziti != "" && jwt != "" then 0 else 1
      ensures !ok ==> identities == old(identities)
      ensures ok ==> identities == old(identities) + (if ziti == "" then {} else {ziti}) && ziti !in old(identities)
    {
      ok := *;
      ziti, jwt := *, *;
      if ok && ziti !in identities {
        identities := identities + if ziti == "" then {} else {ziti};
      } else {
        ok := false;
      }
      faults := faults + if ok && ziti != "" && jwt != "" then 0 else 1;
    }

    /** None without an error means that identities are not managed. */
    method CreateIdentity(managed: bool) returns (ok: bool, identity: Option<(Id, string)>)
      modifies `identities, `undoFailures, `faults
      ensures undoFailures >= old(undoFailures) && old(identities) <= identities
      ensures faults >= old(faults) && (faults == old(faults) ==> ok)
      ensures ok ==> undoFailures == old(undoFailures) && (identity.Some? <==> managed)
      ensures ok && identity.Some? ==>
        && identity.value.0 != "" && identity.value.1 != ""
        && identity.value.0 !in old(identities) && identities == old(identities) + {identity.value.0}
      ensures ok && identity.None? ==> identities == old(identities)
      ensures !ok && undoFailures == old(undoFailures) ==> identities == old(identities)
    {
      if !managed {
        return true, None;
      }
      var minted, ziti, jwt := MintIdentity();
      if !minted {
        return false, None;
      }
      if ziti == "" || jwt == "" {
        CompensateIdentity(if ziti == "" then None else Some(ziti));
        return false, None;
      }
      return true, Some((ziti, jwt));
    }

    method CreateWorkload(id: Id, w: Workload) returns (ok: bool)
      modifies `workloads, `faults
      ensures faults == old(faults) + if ok then 0 else 1
      ensures workloads == if ok then old(workloads)[id := w] else old(workloads)
    {
      ok := *;
      if ok {
        workloads := workloads[id := w];
      } else {
        faults := faults + 1;
      }
    }

    method UpdateWorkload(id: Id, w: Workload) returns (ok: bool)
      requires id in workloads
      modifies `workloads, `faults
      ensures faults == old(faults) + if ok then 0 else 1
      ensures workloads == if ok then old(workloads)[id := w] else old(workloads)
    {
      ok := CreateWorkload(id, w);
    }

    method MarkWorkloadFailed(id: Id, instanceId: Id)
      requires id in workloads
      modifies `workloads, `undoFailures, `faults
      ensures undoFailures >= old(undoFailures) && faults - old(faults) == undoFailures - old(undoFailures)
      ensures workloads == old(workloads) || workloads == old(workloads)[id := AsFailed(old(workloads)[id], instanceId)]
      ensures undoFailures == old(undoFailures) ==>
        workloads == old(workloads)[id := AsFailed(old(workloads)[id], instanceId)]
      ensures undoFailures == old(undoFailures) ==>
        && workloads[id].status.Failed?
        && workloads[id] == old(workloads)[id].(status := workloads[id].status, instanceId := workloads[id].instanceId)
        && workloads[id].instanceId == if instanceId == "" then old(workloads)[id].instanceId else instanceId
    {
      var ok := UpdateWorkload(id, AsFailed(workloads[id], instanceId));
      if !ok {
        undoFailures := undoFailures + 1;
      }
    }

    /**
     * The runner starts a workload under an id of its own choosing, which no other workload has, even after
     * normalization, and may keep that id from us; or the call fails, whether or not it has started one.
     * Of the answers, only one of failure without an id may come without a workload.
     */
    method StartOnRunner() returns (reply: Reply, ghost hidden: Option<Id>)
      modifies `pods, `faults
      ensures faults == old(faults) + if reply.NoReply? then 1 else 0
      ensures Hides(reply, hidden, old(pods))
      ensures !TellsNoId(reply) ==> IsNewPod(reply.raw, old(pods)) && pods == old(pods) + {reply.raw}
      ensures TellsNoId(reply) ==> pods == old(pods) + Minted(hidden)
    {
      var ok: bool, starts: bool, tells: bool, failed: bool, actual: Id := *, *, *, *, *;
      hidden := None;
      if actual == "" || !IsNewPod(actual, pods) || (!ok && !starts) {
        faults := faults + 1;
        return NoReply, hidden;
      }
      if failed && !starts {
        return Reply("", true), hidden;
      }
      if !ok || !tells {
        hidden := Some(actual);
      }
      pods := pods + {actual};
      faults := faults + if ok then 0 else 1;
      reply := if !ok then NoReply else Reply(if tells then actual else "", failed);
    }

    method StopWorkload(id: Id) returns (answer: Answer)
      modifies `pods, `faults
      ensures answer in {Answered, NotFound, NoTerminators, Error}
      ensures faults == old(faults) + if answer.Error? then 1 else 0
      ensures pods == if answer.Answered? then old(pods) - {id} else old(pods)
      ensures answer.Answered? ==> id in old(pods)
      ensures answer.NotFound? ==> id !in pods
    {
      var up: bool, ok: bool := *, *;
      if !up {
        return NoTerminators;
      }
      if !ok {
        faults := faults + 1;
        return Error;
      }
      if id !in pods {
        return NotFound;
      }
      pods := pods - {id};
      return Answered;
    }

    /** Asks again with the prefix when the runner does not know a UUID; not to know that either is fine. */
    method StopRunnerWorkload(id: Id) returns (answer: Answer)
      modifies `pods, `faults
      ensures answer in {Answered, NotFound, NoTerminators, Error}
      ensures faults == old(faults) + if answer.Error? then 1 else 0
      ensures pods == old(pods) || pods == old(pods) - StopTarget(old(pods), id)
      ensures answer.Answered? ==> pods == old(pods) - StopTarget(old(pods), id)
      ensures answer.NotFound? ==> !IsUuid(id) && StopTarget(old(pods), id) == {}
    {
      answer := StopWorkload(id);
      if !answer.NotFound? || !IsUuid(id) {
        return;
      }
      answer := StopWorkload(PREFIX + id);
      if answer.NotFound? {
        answer := Answered;
      }
    }

    ghost function Now(): Stores
      reads this
    {
      Stores(workloads, volumes, identities, pods)
    }

    /** Undoes an attempt: its record if there is one, its volumes, its identity. */
    method Undo(
      plan: Plan, ziti: Option<Id>, created: seq<Id>, recorded: bool, instanceId: Id, ghost before: Stores,
      ghost hidden: Option<Id>)
      requires CreatedAt(before, Now(), plan, created, {Provisioning})
      requires workloads ==
        if recorded then before.workloads[plan.id := NewWorkload(plan, ziti, Starting, "")] else before.workloads
      requires Minted(ziti) !! before.identities && identities == before.identities + Minted(ziti)
      requires before.pods <= pods
      modifies this
      ensures faults >= old(faults)
      ensures undoFailures >= old(undoFailures) && pods == old(pods) && Contained(before, Now(), plan, ziti, created)
      ensures undoFailures == old(undoFailures) && pods == before.pods + Minted(hidden) ==>
        Undone(before, Now(), plan, ziti, created, hidden)
    {
      if recorded {
        MarkWorkloadFailed(plan.id, instanceId);
        var starting := NewWorkload(plan, ziti, Starting, "");
        var failed := NewWorkload(plan, ziti, WorkloadStatus.Failed, instanceId);
        assert before.workloads[plan.id := starting][plan.id := failed] == before.workloads[plan.id := failed];
      }
      MarkVolumesFailed(created, before.volumes, plan.records, plan.runner, plan.target);
      CompensateIdentity(ziti);
    }

    /** Stops a workload that the attempt must not keep. */
    method StopFailedStart(id: Id, ghost raw: Id, ghost before: set<Id>)
      requires raw != "" && IsNewPod(raw, before) && pods == before + {raw} && id in {raw, Normalize(raw)}
      modifies `pods, `undoFailures, `faults
      ensures faults >= old(faults)
      ensures undoFailures >= old(undoFailures) && before <= pods
      ensures undoFailures == old(undoFailures) ==> pods == before
    {
      StopsNewPod(raw, before);
      var answer := StopRunnerWorkload(id);
      if !answer.Answered? {
        undoFailures := undoFailures + 1;
      }
    }

    /** Once every record is written: the runner is asked to start the workload and its answer is checked. */
    method Launch(plan: Plan, ziti: Option<Id>, created: seq<Id>, ghost before: Stores)
      returns (ok: bool, reply: Reply, written: bool, ghost hidden: Option<Id>)
      requires IsUuid(plan.id)
      requires CreatedAt(before, Now(), plan, created, {Provisioning})
      requires AllUsable(volumes, plan.records, plan.runner, plan.target)
      requires workloads == before.workloads[plan.id := NewWorkload(plan, ziti, Starting, "")]
      requires Minted(ziti) !! before.identities && identities == before.identities + Minted(ziti)
      requires before.pods == pods
      modifies this
      ensures undoFailures >= old(undoFailures) && Hides(reply, hidden, before.pods)
      ensures faults >= old(faults) && (faults == old(faults) ==> reply.Reply? && (ok ==> written))
      ensures ok <==> reply == Reply(plan.id, false)
      ensures ok ==> Started(before, Now(), plan, ziti, created, written)
      ensures !ok ==> Contained(before, Now(), plan, ziti, created) && Minted(hidden) <= pods
      ensures !ok && undoFailures == old(undoFailures) ==> Undone(before, Now(), plan, ziti, created, hidden)
    {
      reply, hidden := StartOnRunner();
      ok, written := reply == Reply(plan.id, false), false;
      if !ok {
        Reject(plan, ziti, created, before, reply, hidden);
        return;
      }
      if PREFIX <= plan.id {
        PrefixedIsNoUuid(plan.id);
      }
      hide OnlyCreated, AllUsable;
      written := UpdateWorkload(plan.id, NewWorkload(plan, ziti, Starting, Normalize(reply.raw)));
    }

    /** The answer is not the one that the attempt needs: what may have been started is stopped, and the rest undone. */
    method Reject(
      plan: Plan, ziti: Option<Id>, created: seq<Id>, ghost before: Stores, reply: Reply, ghost hidden: Option<Id>)
      requires reply != Reply(plan.id, false)
      requires CreatedAt(before, Now(), plan, created, {Provisioning})
      requires workloads == before.workloads[plan.id := NewWorkload(plan, ziti, Starting, "")]
      requires Minted(ziti) !! before.identities && identities == before.identities + Minted(ziti)
      requires !TellsNoId(reply) ==>
        IsNewPod(reply.raw, before.pods) && pods == before.pods + {reply.raw} && hidden.None?
      requires TellsNoId(reply) ==> pods == before.pods + Minted(hidden)
      modifies this
      ensures undoFailures >= old(undoFailures) && faults >= old(faults)
      ensures Contained(before, Now(), plan, ziti, created) && Minted(hidden) <= pods
      ensures undoFailures == old(undoFailures) ==> Undone(before, Now(), plan, ziti, created, hidden)
    {
      hide OnlyCreated, RecordAt;
      if reply.NoReply? {
        Undo(plan, ziti, created, true, "", before, hidden);
        return;
      }
      var raw := reply.raw;
      var instanceId := Normalize(raw);
      if reply.failed {
        if instanceId != "" {
          StopFailedStart(instanceId, raw, before.pods);
        }
        Undo(plan, ziti, created, true, instanceId, before, hidden);
        return;
      }
      if raw != "" {
        StopFailedStart(raw, raw, before.pods);
      }
      Undo(plan, ziti, created, true, raw, before, hidden);
    }

    /**
     * One attempt to start a workload under a fresh id, on a runner that has been chosen and dialled.
     * managed says whether identities are managed at all, and enrolls whether the workload has a
     * container that can take the enrollment token. reply is what the runner has said, if it was asked, and
     * written says that the id it has given has been written to the record.
     */
    method StartWorkload(plan: Plan, managed: bool, enrolls: bool)
      returns (ok: bool, ziti: Option<Id>, created: seq<Id>, reply: Reply, written: bool, ghost hidden: Option<Id>)
      requires IsUuid(plan.id) && plan.id !in workloads
      modifies this
      ensures undoFailures >= old(undoFailures) && Hides(reply, hidden, old(pods))
      ensures faults >= old(faults)
      ensures
        var startable := IsStartable(old(volumes), plan.records, plan.runner, plan.target) && (managed ==> enrolls);
        faults == old(faults) && startable ==> reply.Reply? && (ok ==> written)
      ensures ok <==> reply == Reply(plan.id, false)
      ensures ok ==> Started(old(Now()), Now(), plan, ziti, created, written) && (ziti.Some? <==> managed)
      ensures !ok ==> Contained(old(Now()), Now(), plan, ziti, created) && Minted(hidden) <= pods
      ensures !ok && undoFailures == old(undoFailures) ==> Undone(old(Now()), Now(), plan, ziti, created, hidden)
    {
      ghost var before := Now();
      ok, ziti, created, reply, written, hidden := false, None, [], NoReply, false, None;
      var minted, identity := CreateIdentity(managed);
      if !minted {
        return;
      }
      ziti := if identity.Some? then Some(identity.value.0) else None;
      if identity.Some? && !enrolls {
        CompensateIdentity(ziti);
        return;
      }
      var prepared;
      prepared, created := CreateVolumeRecords(plan.records, plan.runner, plan.target);
      if !prepared {
        Undo(plan, ziti, created, false, "", before, hidden);
        return;
      }
      var recorded := CreateWorkload(plan.id, NewWorkload(plan, ziti, Starting, ""));
      if !recorded {
        Undo(plan, ziti, created, false, "", before, hidden);
        return;
      }
      ok, reply, written, hidden := Launch(plan, ziti, created, before);
    }

    method Dial() returns (answer: Answer)
      modifies `faults
      ensures faults == old(faults) + if answer.Error? then 1 else 0
      ensures answer in {Answered, NoTerminators, Error}
    {
      var ok: bool, up: bool := *, *;
      faults := faults + if ok then 0 else 1;
      return if !ok then Error else if up then Answered else NoTerminators;
    }

    /** The runner is gone: the workload is stopped if it was stopping, and lost otherwise. */
    method HandleMissing(id: Id, managed: bool) returns (ok: bool)
      requires id in workloads
      modifies `workloads, `identities, `undoFailures, `faults
      ensures undoFailures >= old(undoFailures) && faults >= old(faults) && (faults == old(faults) ==> ok)
      ensures undoFailures > old(undoFailures) ==> faults > old(faults)
      ensures id in workloads
      ensures ok && undoFailures == old(undoFailures) ==>
        var before, after := old(workloads)[id].status, workloads[id].status;
        && (before.Starting? || before.Running? ==> after.Failed?) && (before.Stopping? ==> after.Stopped?)
        && (before.Stopped? || before.Failed? ==> after == before)
        && workloads[id] == old(workloads)[id].(status := after)
      ensures var w := old(workloads)[id];
        && workloads in {old(workloads), old(workloads)[id := Lost(w)]}
        && (ok && undoFailures == old(undoFailures) ==> workloads == old(workloads)[id := Lost(w)])
        && (identities == old(identities)
            || (ok && managed && w.ziti != "" && Lost(w).status.Failed? && identities == old(identities) - {w.ziti}))
    {
      var w := workloads[id];
      if w.status.Stopping? {
        ok := UpdateWorkload(id, w.(status := Stopped));
        return;
      }
      if !IsActive(w.status) {
        assert workloads[id := w] == workloads;
        return true;
      }
      MarkWorkloadFailed(id, w.instanceId);
      if managed && w.ziti != "" {
        var deleted := DeleteIdentity(w.ziti);
      }
      return true;
    }

    /**
     * Stops a workload: its record goes to stopping, the runner is asked to stop it, the record goes to
     * stopped, the identity goes. lost says that the runner turned out to have no terminators.
     */
    method StopWorkloadRecord(id: Id, managed: bool) returns (ok: bool, lost: bool)
      requires id in workloads
      modifies this
      ensures undoFailures >= old(undoFailures) && volumes == old(volumes) && id in workloads
      ensures faults >= old(faults) && (undoFailures > old(undoFailures) ==> faults > old(faults))
      ensures faults == old(faults) && CanBeStopped(old(Now()), id) ==> ok
      ensures StopOutcome(old(Now()), Now(), id, managed, ok, lost, undoFailures > old(undoFailures))
    {
      ghost var before := Now();
      var w := workloads[id];
      var instanceId := Normalize(w.instanceId);
      assert workloads == workloads[id := w.(status := w.status)];
      lost := false;
      if instanceId == "" {
        MarkWorkloadFailed(id, "");
        return true, lost;
      }
      if w.runner == "" {
        return false, lost;
      }
      var reach := Dial();
      if !reach.Answered? {
        lost := reach.NoTerminators?;
        ok := false;
        if lost {
          ok := HandleMissing(id, managed);
        }
        return;
      }
      ok := UpdateWorkload(id, w.(status := Stopping));
      if ok {
        ok, lost := FinishStop(id, managed, before);
      }
    }

    /** The record is stopping. */
    method FinishStop(id: Id, managed: bool, ghost before: Stores) returns (ok: bool, lost: bool)
      requires id in before.workloads && Normalize(before.workloads[id].instanceId) != ""
      requires Now() == before.(workloads := before.workloads[id := before.workloads[id].(status := Stopping)])
      modifies this
      ensures undoFailures >= old(undoFailures) && volumes == old(volumes)
      ensures faults >= old(faults) && (undoFailures > old(undoFailures) ==> faults > old(faults))
      ensures faults == old(faults) && CanBeStopped(before, id) ==> ok
      ensures StopOutcome(before, Now(), id, managed, ok, lost, undoFailures > old(undoFailures))
    {
      var w := workloads[id];
      var answer := StopRunnerWorkload(Normalize(w.instanceId));
      lost := answer.NoTerminators?;
      if lost {
        ok := HandleMissing(id, managed);
        return;
      }
      if !answer.Answered? {
        return false, lost;
      }
      ok := UpdateWorkload(id, w.(status := Stopped));
      if ok && managed && w.ziti != "" {
        ok := DeleteIdentity(w.ziti);
      }
    }
  }

  /** A row that has just been created is fit to go on with. */
  lemma StaysStartable(volumes: Volumes, records: seq<VolumeRecord>, k: nat, runner: Id, target: Target)
    requires k < |records|
    ensures IsStartable(volumes, records, runner, target) ==>
      IsStartable(volumes[records[k].id := Requested(records[k], runner, target)], records, runner, target)
  {
  }

  /** One more row has been created. */
  lemma CreatedOneMore(before: Volumes, volumes: Volumes, created: seq<Id>, records: seq<VolumeRecord>, k: nat,
      runner: Id, target: Target)
    requires OnlyCreated(before, volumes, created, {Provisioning}, records, runner, target) && k < |records|
    requires AllUsable(volumes, records[..k], runner, target)
    requires records[k].id in volumes ==> !IsOpen(volumes[records[k].id].status)
    ensures OnlyCreated(before, volumes[records[k].id := Requested(records[k], runner, target)],
        created + [records[k].id], {Provisioning}, records, runner, target)
    ensures AllUsable(volumes[records[k].id := Requested(records[k], runner, target)], records[..k + 1], runner, target)
  {
    var id, row := records[k].id, Requested(records[k], runner, target);
    assert IsRequested(row, id, records, runner, target);
    assert (set v | v in created + [id]) == (set v | v in created) + {id};
    assert records[..k + 1] == records[..k] + [records[k]];
    hide IsRequested;
  }

  predicate AllFailed(volumes: Volumes, created: seq<Id>) {
    forall v :: v in created ==> v in volumes && volumes[v].status.VolumeFailed?
  }

  lemma WiderStatuses(before: Volumes, volumes: Volumes, created: seq<Id>, records: seq<VolumeRecord>, runner: Id,
      target: Target)
    requires OnlyCreated(before, volumes, created, {Provisioning}, records, runner, target)
    ensures OnlyCreated(before, volumes, created, {Provisioning, VolumeFailed}, records, runner, target)
    ensures AllFailed(volumes, [])
  {
    hide IsRequested;
  }

  /** One more of the created rows may be marked failed. */
  lemma FailedOneMore(before: Volumes, volumes: Volumes, created: seq<Id>, k: nat, records: seq<VolumeRecord>,
      runner: Id, target: Target)
    requires OnlyCreated(before, volumes, created, {Provisioning, VolumeFailed}, records, runner, target)
    requires k < |created|
    ensures created[k] in volumes
    ensures var after := volumes[created[k] := volumes[created[k]].(status := VolumeFailed)];
      && OnlyCreated(before, after, created, {Provisioning, VolumeFailed}, records, runner, target)
      && (AllFailed(volumes, created[..k]) ==> AllFailed(after, created[..k + 1]))
  {
    var v := created[k];
    assert v in (set w | w in created);
    var after := volumes[v := volumes[v].(status := VolumeFailed)];
    StillRequested(volumes[v], VolumeFailed, v, records, runner, target);
    assert created[..k + 1] == created[..k] + [v];
    hide IsRequested;
  }

  lemma StillRequested(row: Volume, status: VolumeStatus, v: Id, records: seq<VolumeRecord>, runner: Id, target: Target)
    requires IsRequested(row, v, records, runner, target)
    ensures IsRequested(row.(status := status), v, records, runner, target)
  {
    var i :| 0 <= i < |records| && records[i].id == v
      && row.(status := Provisioning) == Requested(records[i], runner, target);
    assert row.(status := status).(status := Provisioning) == Requested(records[i], runner, target);
  }

  lemma NoneLeft(before: Volumes, volumes: Volumes, created: seq<Id>, records: seq<VolumeRecord>, runner: Id,
      target: Target)
    requires OnlyCreated(before, volumes, created, {Provisioning, VolumeFailed}, records, runner,
        target) && AllFailed(volumes, created)
    ensures OnlyCreated(before, volumes, created, {VolumeFailed}, records, runner, target)
  {
    hide IsRequested;
  }

  /** What becomes of a workload whose runner is gone. */
  function Lost(w: Workload): Workload {
    if w.status.Stopping? then w.(status := Stopped)
    else if IsActive(w.status) then w.(status := WorkloadStatus.Failed)
    else w
  }

  function AsFailed(w: Workload, instanceId: Id): Workload {
    w.(status := WorkloadStatus.Failed, instanceId := if instanceId == "" then w.instanceId else instanceId)
  }

  predicate IsNewPod(raw: Id, pods: set<Id>) {
    forall pod :: pod in pods ==> Normalize(pod) != Normalize(raw)
  }

  /** A new workload is what a stop with its id ends, normalized or not. */
  lemma StopsNewPod(raw: Id, pods: set<Id>)
    requires raw != "" && IsNewPod(raw, pods)
    ensures StopTarget(pods + {raw}, raw) == {raw} && StopTarget(pods + {raw}, Normalize(raw)) == {raw}
    ensures pods + {raw} - {raw} == pods && Normalize(raw) != ""
  {
    NormalizeIdempotent(raw);
    var id := Normalize(raw);
    NormalizeFibres(raw, id);
    assert id == raw || (IsUuid(id) && raw == PREFIX + id);
  }

  /**
   * A stop that goes through, of a workload just as its start has left it, leaves it on the runner exactly when
   * the start has not written the instance id: then the record is failed and the runner is not asked.
   */
  lemma StopUndoesStart(
    before: Stores, started: Stores, stopped: Stores, plan: Plan, ziti: Option<Id>, created: seq<Id>, written: bool,
    managed: bool, failureLost: bool)
    requires IsUuid(plan.id) && Started(before, started, plan, ziti, created, written)
    requires StopOutcome(started, stopped, plan.id, managed, true, false, failureLost)
    ensures plan.id in stopped.pods <==> !written
    ensures written ==> stopped.pods == before.pods && stopped.workloads[plan.id].status.Stopped?
    ensures written && managed && ziti != Some("") ==> stopped.identities == before.identities
    ensures !written && !failureLost ==> stopped.workloads[plan.id].status.Failed?
  {
    if PREFIX <= plan.id {
      PrefixedIsNoUuid(plan.id);
    }
    assert plan.id in started.pods && StopTarget(started.pods, plan.id) == {plan.id};
  }

  /**
   * A corollary of the contract: a start that succeeds has not touched a volume that was open, and goes
   * ahead only on those that are provisioning or active on its runner, never on one that is being deprovisioned.
   */
  lemma StartNeedsUsableVolumes(
    before: Stores, after: Stores, plan: Plan, ziti: Option<Id>, created: seq<Id>, written: bool, i: nat)
    requires Started(before, after, plan, ziti, created, written) && i < |plan.records|
    requires plan.records[i].id in before.volumes && IsOpen(before.volumes[plan.records[i].id].status)
    ensures IsUsable(before.volumes[plan.records[i].id], plan.records[i], plan.runner, plan.target)
    ensures after.volumes[plan.records[i].id] == before.volumes[plan.records[i].id]
  {
    assert plan.records[i].id in after.volumes;
  }

  /**
   * A corollary of the contract: an attempt that is undone leaves every volume that was open as it was, and
   * no new open one.
   */
  lemma UndoneKeepsOpenVolumes(
    before: Stores, after: Stores, plan: Plan, ziti: Option<Id>, created: seq<Id>, hidden: Option<Id>, v: Id)
    requires Undone(before, after, plan, ziti, created, hidden) && v in after.volumes
    ensures IsOpen(after.volumes[v].status) || (v in before.volumes && IsOpen(before.volumes[v].status)) ==>
      v in before.volumes && after.volumes[v] == before.volumes[v]
  {
    hide IsRequested;
  }
}
