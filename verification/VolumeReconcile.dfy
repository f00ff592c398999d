/**
 * The volume loop: volume records against the disks that each runner reports
 * (internal/reconciler/volume_reconcile.go). One cycle is one atomic call; any RPC in it may fail.
 */
module VolumeReconcile {
  import opened Records
  import opened StartDecision

  datatype Volume = Volume(
    status: VolumeStatus, runner: Id, organization: Id, instanceId: Id, definition: Id, owner: Id, sandbox: bool)

  datatype Item = Item(key: Id, instanceId: Id)

  /** The disks of a runner: the key of each, by the instance id that the runner knows it by. */
  type Disks = map<Id, Id>
  type Volumes = map<Id, Volume>

  /** The TTL of a volume definition: absent, given, or unreadable. */
  datatype Ttl = NoTtl | Ttl(span: Time) | BadTtl

  datatype Definition = Definition(persistent: bool, ttl: Ttl)

  /** What the loop looks up and does not change: volume definitions, and the workload history of each instance. */
  datatype Facts = Facts(definitions: map<Id, Definition>, history: map<Id, seq<Row>>)

  datatype Info = Info(persistent: bool, ttl: Option<Time>)

  datatype Activity = Activity(hasActive: bool, latest: Option<Time>)

  datatype Alert = SandboxLost(sandbox: Id) | RunnerDeprovisioned(instance: Id) | VolumeLost(instance: Id)

  /** What a cycle learns about a runner. */
  datatype Report = Unenrolled | Cut | Listed(disks: Disks)

  /** In scope: open, named, on runner r and in one of the organizations. */
  predicate Tracked(volumes: Volumes, r: Id, organizations: set<Id>, id: Id) {
    id != "" && id in volumes && volumes[id].runner == r && IsOpen(volumes[id].status)
      && volumes[id].organization in organizations
  }

  function TrackedIds(volumes: Volumes, r: Id, organizations: set<Id>): set<Id> {
    set id | id in volumes && Tracked(volumes, r, organizations, id)
  }

  /** Keys and instance ids are non-empty, and keys are distinct. */
  ghost predicate WellFormed(disks: Disks) {
    && (forall raw :: raw in disks ==> raw != "" && disks[raw] != "")
    && (forall a, b :: a in disks && b in disks && disks[a] == disks[b] ==> a == b)
  }

  ghost predicate Has(disks: Disks, key: Id) {
    exists raw :: raw in disks && disks[raw] == key
  }

  ghost function RawOf(disks: Disks, key: Id): (raw: Id)
    requires Has(disks, key)
    ensures raw in disks && disks[raw] == key
  {
    var raw :| raw in disks && disks[raw] == key;
    raw
  }

  function HistoryOf(facts: Facts, owner: Id): seq<Row> {
    if owner in facts.history then facts.history[owner] else []
  }

  /** The instance has no active workload, and its last one ended at least span ago. */
  ghost predicate IdleFor(rows: seq<Row>, span: Time, now: Time) {
    && (forall i :: 0 <= i < |rows| ==> !IsActive(rows[i].status))
    && (exists i :: 0 <= i < |rows| && HasEnded(rows[i]))
    && (forall i :: 0 <= i < |rows| && HasEnded(rows[i]) ==> now - EndedAt(rows[i]).value >= span)
  }

  predicate HasEnded(row: Row) {
    IsEnded(row.status) && EndedAt(row).Some?
  }

  /** The volume is persistent, has a TTL, and its instance has been idle for that long. */
  ghost predicate Expired(v: Volume, facts: Facts, now: Time) {
    && v.definition != "" && v.definition in facts.definitions
    && facts.definitions[v.definition].persistent && facts.definitions[v.definition].ttl.Ttl?
    && v.owner != "" && v.owner in facts.history
    && (forall i :: 0 <= i < |facts.history[v.owner]| ==> facts.history[v.owner][i].id != "")
    && IdleFor(facts.history[v.owner], facts.definitions[v.definition].ttl.span, now)
  }

  /** Updates of records that have a removal time make no difference to how long the instance has been idle. */
  lemma IdleIgnoresUpdates(a: seq<Row>, b: seq<Row>, span: Time, now: Time)
    requires DifferInUpdates(a, b)
    ensures IdleFor(a, span, now) <==> IdleFor(b, span, now)
  {
    forall i | 0 <= i < |a| ensures HasEnded(a[i]) <==> HasEnded(b[i]) {
      assert a[i].status == b[i].status && a[i].removedAt == b[i].removedAt;
    }
  }

  /** With removal times, idle since all of them: the instance has had a workload, and each was removed a span ago. */
  lemma IdleByRemoval(rows: seq<Row>, span: Time, now: Time)
    requires forall i :: 0 <= i < |rows| ==> rows[i].status in {Stopped, Failed} && rows[i].removedAt.Some?
    ensures IdleFor(rows, span, now) <==>
      rows != [] && forall i :: 0 <= i < |rows| ==> now - rows[i].removedAt.value >= span
  {
    if rows != [] {
      assert HasEnded(rows[0]);
    }
    forall i | 0 <= i < |rows| ensures HasEnded(rows[i]) && EndedAt(rows[i]) == rows[i].removedAt {}
  }

  /** An active workload keeps the instance from being idle. */
  lemma NotIdleWhileActive(rows: seq<Row>, span: Time, now: Time, i: nat)
    requires i < |rows| && rows[i].status in {WorkloadStatus.Starting, WorkloadStatus.Running, Stopping}
    ensures !IdleFor(rows, span, now)
  {
    assert IsActive(rows[i].status);
  }

  /** What a clean cycle makes of a tracked record whose disk the runner reports as raw. */
  ghost function Present(v: Volume, raw: Id, facts: Facts, now: Time): Volume {
    match v.status
    case Provisioning => v.(status := Active, instanceId := raw)
    case Active => v.(status := if !v.sandbox && Expired(v, facts, now) then Deprovisioning else Active,
        instanceId := raw)
    case _ => v
  }

  /** The disk is gone for good. A provisioning record is left alone: it is written before its disk. */
  function Missing(v: Volume): Volume {
    if v.status.Active? || v.status.Deprovisioning? then v.(status := Deleted) else v
  }

  /** The runner is cut off: its disks may well exist. */
  function Unseen(v: Volume): Volume {
    if v.status.Deprovisioning? then v.(status := Deleted) else v
  }

  ghost function After(id: Id, v: Volume, report: Report, facts: Facts, now: Time): Volume {
    match report
    case Unenrolled => Missing(v)
    case Cut => Unseen(v)
    case Listed(disks) => if Has(disks, id) then Present(v, RawOf(disks, id), facts, now) else Missing(v)
  }

  /** Who is told that a record has lost its disk or its runner. */
  ghost function AlertsFor(id: Id, v: Volume, report: Report): set<Alert> {
    match report
    case Unenrolled => if v.sandbox then {} else {RunnerDeprovisioned(v.owner)}
    case Cut => {}
    case Listed(disks) =>
      if Has(disks, id) || !v.status.Active? then {}
      else if v.sandbox then {SandboxLost(v.owner)}
      else {VolumeLost(v.owner)}
  }

  ghost function Alerts(volumes: Volumes, done: set<Id>, report: Report): set<Alert>
    requires done <= volumes.Keys
  {
    set id, alert | id in done && alert in AlertsFor(id, volumes[id], report) :: alert
  }

  /** A disk survives when its record is tracked on this runner and is neither expired nor being deprovisioned. */
  ghost predicate Survives(volumes: Volumes, r: Id, organizations: set<Id>, raw: Id, key: Id, facts: Facts, now: Time) {
    Tracked(volumes, r, organizations, key) && !Present(volumes[key], raw, facts, now).status.Deprovisioning?
  }

  /** result is where a clean cycle takes v or, after a fault, on the way there. */
  ghost predicate Outcome(v: Volume, clean: Volume, result: Volume, faulty: bool) {
    && result == v.(status := result.status, instanceId := result.instanceId)
    && result.status in {v.status, clean.status} && result.instanceId in {v.instanceId, clean.instanceId}
    && (!faulty ==> result == clean)
  }

  ghost predicate VolumesOutcome(
    before: Volumes, after: Volumes, done: set<Id>, report: Report, facts: Facts, now: Time, faulty: bool)
  {
    && after.Keys == before.Keys
    && forall id :: id in before ==>
         if id in done then Outcome(before[id], After(id, before[id], report, facts, now), after[id], faulty)
         else after[id] == before[id]
  }

  /**
   * Disks are only ever removed. A disk whose record is tracked goes only when that record has been
   * written as deprovisioning. Of the disks whose keys have been handled, a clean cycle leaves the survivors.
   */
  ghost predicate DisksOutcome(
    volumes: Volumes, after: Volumes, r: Id, organizations: set<Id>, before: Disks, disks: Disks, handled: set<Id>,
    facts: Facts, now: Time, faulty: bool)
  {
    && (forall raw :: raw in disks ==> raw in before && disks[raw] == before[raw])
    && (forall raw :: raw in before && before[raw] !in handled ==> raw in disks)
    && (forall raw :: raw in before && raw !in disks && Tracked(volumes, r, organizations, before[raw]) ==>
      before[raw] in after && after[before[raw]].status.Deprovisioning?
      && !Survives(volumes, r, organizations, raw, before[raw], facts, now))
    && (!faulty ==> forall raw :: raw in disks && before[raw] in handled ==> Survives(volumes, r, organizations, raw,
        before[raw], facts, now))
  }

  function At(disks: map<Id, Disks>, r: Id): Disks {
    if r in disks then disks[r] else map[]
  }

  ghost predicate SameElse(before: map<Id, Disks>, after: map<Id, Disks>, r: Id) {
    forall other :: other != r ==> At(before, other) == At(after, other)
  }

  /** Only the record id has changed, and it is still on its runner. */
  ghost predicate OnlyChanged(before: Volumes, after: Volumes, done: set<Id>) {
    && after.Keys == before.Keys
    && forall id :: id in before ==>
         && after[id].runner == before[id].runner && after[id].organization == before[id].organization
         && (id !in done ==> after[id] == before[id])
  }

  /** The per-cycle caches. */
  datatype Caches = Caches(info: map<Id, Info>, activity: map<Id, Activity>)

  predicate IsInfo(info: Info, d: Definition) {
    !d.ttl.BadTtl? && info == Info(d.persistent, if d.ttl.Ttl? then Some(d.ttl.span) else None)
  }

  ghost predicate IsActivity(a: Activity, rows: seq<Row>) {
    && (a.hasActive <==> exists i :: 0 <= i < |rows| && IsActive(rows[i].status))
    && (a.latest.Some? <==> exists i :: 0 <= i < |rows| && HasEnded(rows[i]))
    && (a.latest.Some? ==>
          && (exists i :: 0 <= i < |rows| && HasEnded(rows[i]) && EndedAt(rows[i]) == a.latest)
          && (forall i :: 0 <= i < |rows| && HasEnded(rows[i]) ==> EndedAt(rows[i]).value <= a.latest.value))
  }

  /** What has been cached is what would be looked up. */
  ghost predicate CachesTrue(c: Caches, facts: Facts) {
    && (forall d :: d in c.info ==> d in facts.definitions && IsInfo(c.info[d], facts.definitions[d]))
    && (forall o :: o in c.activity ==>
      o != "" && AllNamed(HistoryOf(facts, o)) && IsActivity(c.activity[o], HistoryOf(facts, o)))
  }

  /** The last end among all rows, and whether any row is active. */
  method ActivityOf(rows: seq<Row>) returns (a: Activity)
    ensures IsActivity(a, rows)
  {
    a := Activity(false, None);
    assert rows[..0] == [];
    for k := 0 to |rows|
      invariant IsActivity(a, rows[..k])
    {
      assert rows[..k + 1][..k] == rows[..k] && rows[..k + 1][k] == rows[k];
      ghost var was := a;
      if IsActive(rows[k].status) {
        a := Activity(true, a.latest);
      }
      if IsEnded(rows[k].status) {
        var ended := EndedAt(rows[k]);
        if ended.Some? && (a.latest.None? || ended.value > a.latest.value) {
          a := Activity(a.hasActive, ended);
        }
      }
      ActivityStep(was, a, rows, k);
    }
    assert rows[..|rows|] == rows;
  }

  lemma ActivityStep(was: Activity, a: Activity, rows: seq<Row>, k: nat)
    requires k < |rows| && IsActivity(was, rows[..k])
    requires a.hasActive == (was.hasActive || IsActive(rows[k].status))
    requires a.latest ==
      if HasEnded(rows[k]) && (was.latest.None? || EndedAt(rows[k]).value > was.latest.value) then EndedAt(rows[k])
      else was.latest
    ensures IsActivity(a, rows[..k + 1])
  {
    var before, after := rows[..k], rows[..k + 1];
    assert forall i :: 0 <= i < k ==> after[i] == before[i];
    assert after[k] == rows[k];
    if was.hasActive {
      var i :| 0 <= i < |before| && IsActive(before[i].status);
      assert IsActive(after[i].status);
    }
    if was.latest.Some? {
      var i :| 0 <= i < |before| && HasEnded(before[i]) && EndedAt(before[i]) == was.latest;
      assert HasEnded(after[i]) && EndedAt(after[i]) == was.latest;
    }
  }

  class VolumeCluster {
    var volumes: Volumes
    var disks: map<Id, Disks>
    var alerts: set<Alert>
    const organizations: set<Id>  // the organizations that have agents
    const enrolled: set<Id>       // enrolled runners that those organizations list
    const inScope: set<Id>        // the ones among them that belong to one of the organizations
    const cut: set<Id>            // runners with no terminators
    const facts: Facts
    ghost var faults: nat         // RPCs that have failed

    method UpdateVolume(id: Id, v: Volume) returns (ok: bool)
      requires id in volumes
      modifies `volumes, `faults
      ensures volumes == if ok then old(volumes)[id := v] else old(volumes)
      ensures faults == old(faults) + if ok then 0 else 1
    {
      ok := *;
      if ok {
        volumes := volumes[id := v];
      } else {
        faults := faults + 1;
      }
    }

    method Tell(alert: Alert)
      modifies `alerts, `faults
      ensures faults >= old(faults) && (faults == old(faults) ==> alerts == old(alerts) + {alert})
    {
      var ok: bool := *;
      if ok {
        alerts := alerts + {alert};
      } else {
        faults := faults + 1;
      }
    }

    /** Removes the disk that the runner knows by exactly this id; not to know it is an error. */
    method RemoveDisk(r: Id, raw: Id)
      modifies `disks, `faults
      ensures faults >= old(faults) && SameElse(old(disks), disks, r)
      ensures At(disks, r) == At(old(disks), r) || At(disks, r) == At(old(disks), r) - {raw}
      ensures faults == old(faults) ==> At(disks, r) == At(old(disks), r) - {raw}
    {
      var ok: bool := *;
      if ok && raw in At(disks, r) {
        disks := disks[r := disks[r] - {raw}];
      } else {
        faults := faults + 1;
      }
    }

    method LookUpInfo(definition: Id, caches: Caches) returns (info: Option<Info>, later: Caches)
      requires CachesTrue(caches, facts)
      modifies `faults
      ensures faults >= old(faults) && CachesTrue(later, facts)
      ensures info.Some? ==> definition in facts.definitions && IsInfo(info.value, facts.definitions[definition])
      ensures info.None? && faults == old(faults) ==>
        definition !in facts.definitions || facts.definitions[definition].ttl.BadTtl?
    {
      later := caches;
      if definition in caches.info {
        return Some(caches.info[definition]), later;
      }
      var ok: bool := *;
      if !ok {
        faults := faults + 1;
        return None, later;
      }
      if definition !in facts.definitions || facts.definitions[definition].ttl.BadTtl? {
        return None, later;
      }
      var d := facts.definitions[definition];
      var found := Info(d.persistent, if d.ttl.Ttl? then Some(d.ttl.span) else None);
      return Some(found), Caches(caches.info[definition := found], caches.activity);
    }

    method LookUpActivity(owner: Id, caches: Caches) returns (activity: Option<Activity>, later: Caches)
      requires CachesTrue(caches, facts)
      modifies `faults
      ensures faults >= old(faults) && CachesTrue(later, facts)
      ensures activity.Some? ==>
        owner != "" && AllNamed(HistoryOf(facts, owner)) && IsActivity(activity.value, HistoryOf(facts, owner))
      ensures activity.None? && faults == old(faults) ==> owner == "" || !AllNamed(HistoryOf(facts, owner))
    {
      later := caches;
      if owner in caches.activity {
        return Some(caches.activity[owner]), later;
      }
      var ok: bool := *;
      if owner == "" {
        return None, later;
      }
      if !ok {
        faults := faults + 1;
        return None, later;
      }
      if !AllNamed(HistoryOf(facts, owner)) {
        return None, later;
      }
      var found := ActivityOf(HistoryOf(facts, owner));
      return Some(found), Caches(caches.info, caches.activity[owner := found]);
    }

    /** None stands for an error. */
    method TtlExpired(v: Volume, now: Time, caches: Caches) returns (expired: Option<bool>, later: Caches)
      requires CachesTrue(caches, facts)
      modifies `faults
      ensures faults >= old(faults) && CachesTrue(later, facts)
      ensures expired.Some? ==> (expired.value <==> Expired(v, facts, now))
      ensures expired.None? && faults == old(faults) ==> !Expired(v, facts, now)
    {
      later := caches;
      if v.definition == "" {
        return None, later;
      }
      var info;
      info, later := LookUpInfo(v.definition, later);
      if info.None? {
        return None, later;
      }
      if !info.value.persistent || info.value.ttl.None? {
        return Some(false), later;
      }
      if v.owner == "" {
        return None, later;
      }
      var activity;
      activity, later := LookUpActivity(v.owner, later);
      if activity.None? {
        return None, later;
      }
      if activity.value.hasActive || activity.value.latest.None? {
        return Some(false), later;
      }
      return Some(now - activity.value.latest.value >= info.value.ttl.value), later;
    }

    method CloseMissing(id: Id)
      requires id in volumes
      modifies `volumes, `faults
      ensures faults >= old(faults) && OnlyChanged(old(volumes), volumes, {id})
      ensures Outcome(old(volumes)[id], Missing(old(volumes)[id]), volumes[id], faults > old(faults))
    {
      if volumes[id].status.Active? || volumes[id].status.Deprovisioning? {
        var ok := UpdateVolume(id, Missing(volumes[id]));
      }
    }

    method HandleUnseen(id: Id)
      requires id in volumes
      modifies `volumes, `faults
      ensures faults >= old(faults) && OnlyChanged(old(volumes), volumes, {id})
      ensures Outcome(old(volumes)[id], Unseen(old(volumes)[id]), volumes[id], faults > old(faults))
    {
      if volumes[id].status.Deprovisioning? {
        var ok := UpdateVolume(id, Unseen(volumes[id]));
      }
    }

    /** A tracked record of an unenrolled runner. */
    method HandleDeprovisioned(id: Id)
      requires id in volumes
      modifies `volumes, `alerts, `faults
      ensures faults >= old(faults) && OnlyChanged(old(volumes), volumes, {id})
      ensures Outcome(old(volumes)[id], Missing(old(volumes)[id]), volumes[id], faults > old(faults))
      ensures faults == old(faults) ==> alerts == old(alerts) + AlertsFor(id, old(volumes)[id], Unenrolled)
    {
      var v := volumes[id];
      CloseMissing(id);
      if !v.sandbox {
        Tell(RunnerDeprovisioned(v.owner));
      }
    }

    /** Every tracked record of an unenrolled runner is closed, and its instance paused. */
    method HandleUnenrolled(r: Id, now: Time)
      modifies `volumes, `alerts, `faults
      ensures faults >= old(faults)
      ensures ClosedSoFar(old(volumes), volumes, old(alerts), alerts, TrackedIds(old(volumes), r, organizations),
          facts, now, faults > old(faults))
    {
      ghost var before, base := volumes, faults;
      var tracked := TrackedIds(volumes, r, organizations);
      var rest := tracked;
      assert tracked - rest == {};
      assert ClosedSoFar(before, volumes, alerts, alerts, {}, facts, now, false);
      hide ClosedSoFar;
      while rest != {}
        invariant rest <= tracked && tracked == TrackedIds(before, r, organizations) && faults >= base
        invariant volumes.Keys == before.Keys
        invariant ClosedSoFar(before, volumes, old(alerts), alerts, tracked - rest, facts, now, faults > base)
        decreases |rest|
      {
        var id :| id in rest;
        ghost var done, mid, alertsMid, earlier := tracked - rest, volumes, alerts, faults;
        rest := rest - {id};
        assert tracked - rest == done + {id};
        HandleDeprovisioned(id);
        ClosedStep(before, mid, volumes, old(alerts), alertsMid, alerts, done, id, facts, now, earlier > base,
            faults > earlier);
      }
      assert tracked - {} == tracked;
    }

    /** The tracked records of a runner that is cut off. */
    method HandleCut(r: Id, now: Time)
      modifies `volumes, `faults
      ensures faults >= old(faults)
      ensures VolumesOutcome(old(volumes), volumes, TrackedIds(old(volumes), r, organizations), Cut, facts, now,
          faults > old(faults))
    {
      ghost var before, base := volumes, faults;
      var tracked := TrackedIds(volumes, r, organizations);
      var rest := tracked;
      assert tracked - rest == {};
      assert VolumesOutcome(before, volumes, {}, Cut, facts, now, false);
      hide VolumesOutcome;
      while rest != {}
        invariant rest <= tracked && tracked == TrackedIds(before, r, organizations) && faults >= base
        invariant volumes.Keys == before.Keys
        invariant VolumesOutcome(before, volumes, tracked - rest, Cut, facts, now, faults > base)
        decreases |rest|
      {
        var id :| id in rest;
        ghost var done, mid, earlier := tracked - rest, volumes, faults;
        rest := rest - {id};
        assert tracked - rest == done + {id};
        HandleUnseen(id);
        VolumesStep(before, mid, volumes, done, id, Cut, facts, now, earlier > base, faults > earlier);
      }
      assert tracked - {} == tracked;
    }

    method HandlePresent(r: Id, id: Id, raw: Id, now: Time, caches: Caches) returns (later: Caches)
      requires id in volumes && IsOpen(volumes[id].status) && CachesTrue(caches, facts)
      modifies `volumes, `disks, `faults
      ensures faults >= old(faults) && CachesTrue(later, facts)
      ensures OnlyChanged(old(volumes), volumes, {id}) && SameElse(old(disks), disks, r)
      ensures raw != "" ==>
        HandledPresent(old(volumes)[id], Present(old(volumes)[id], raw, facts, now), raw, At(old(disks), r),
          At(disks, r), volumes[id], faults > old(faults))
    {
      later := caches;
      if raw == "" {
        return;
      }
      var v := volumes[id];
      match v.status {
        case Provisioning =>
          var ok := UpdateVolume(id, v.(status := Active, instanceId := raw));
        case Active =>
          if v.instanceId != raw {
            var ok := UpdateVolume(id, v.(instanceId := raw));
            if !ok {
              return;
            }
          }
          if v.sandbox {
            return;
          }
          var expired;
          expired, later := TtlExpired(v, now, later);
          if expired.None? || !expired.value {
            return;
          }
          var ok := UpdateVolume(id, v.(status := Deprovisioning, instanceId := raw));
          if ok {
            RemoveDisk(r, raw);
          }
        case Deprovisioning =>
          RemoveDisk(r, raw);
        case _ =>
      }
    }

    /** A tracked record whose disk the runner does not have. */
    method HandleLost(id: Id)
      requires id in volumes
      modifies `volumes, `alerts, `faults
      ensures faults >= old(faults) && OnlyChanged(old(volumes), volumes, {id})
      ensures Outcome(old(volumes)[id], Missing(old(volumes)[id]), volumes[id], faults > old(faults))
      ensures faults == old(faults) ==> alerts == old(alerts) + AlertsFor("", old(volumes)[id], Listed(map[]))
    {
      var v := volumes[id];
      CloseMissing(id);
      if v.status.Active? {
        Tell(if v.sandbox then SandboxLost(v.owner) else VolumeLost(v.owner));
      }
    }

    /** The runner lists its disks in any order. */
    method ListDisks(r: Id) returns (ok: bool, items: seq<Item>)
      modifies `faults
      ensures faults == old(faults) + if ok then 0 else 1
      ensures ok ==> forall raw :: raw in At(disks, r) ==> Item(At(disks, r)[raw], raw) in items
      ensures ok ==> forall i :: 0 <= i < |items| ==>
        items[i].instanceId in At(disks, r) && items[i].key == At(disks, r)[items[i].instanceId]
    {
      ok := *;
      items := [];
      if !ok {
        faults := faults + 1;
        return;
      }
      var rest := At(disks, r).Keys;
      while rest != {}
        invariant rest <= At(disks, r).Keys
        invariant forall raw :: raw in At(disks, r) && raw !in rest ==> Item(At(disks, r)[raw], raw) in items
        invariant forall i :: 0 <= i < |items| ==>
          items[i].instanceId in At(disks, r) && items[i].key == At(disks, r)[items[i].instanceId]
        decreases |rest|
      {
        var raw :| raw in rest;
        rest := rest - {raw};
        items := items + [Item(At(disks, r)[raw], raw)];
      }
    }

    method IndexItems(r: Id, items: seq<Item>) returns (reported: map<Id, Id>)
      requires forall raw :: raw in At(disks, r) ==> Item(At(disks, r)[raw], raw) in items
      requires forall i :: 0 <= i < |items| ==>
        items[i].instanceId in At(disks, r) && items[i].key == At(disks, r)[items[i].instanceId]
      ensures WellFormed(At(disks, r)) ==> Reports(reported, At(disks, r), {})
    {
      reported := map[];
      for k := 0 to |items|
        invariant forall key :: key in reported ==> reported[key] in At(disks, r) && At(disks, r)[reported[key]] == key
        invariant forall i :: 0 <= i < k && items[i].key != "" ==> items[i].key in reported
      {
        if items[k].key == "" || items[k].key in reported {
          continue;
        }
        reported := reported[items[k].key := items[k].instanceId];
      }
      forall raw | WellFormed(At(disks, r)) && raw in At(disks, r)
        ensures At(disks, r)[raw] in reported && reported[At(disks, r)[raw]] == raw
      {
        assert Item(At(disks, r)[raw], raw) in items;
      }
    }

    ghost function Now(r: Id): Stores
      reads this
    {
      Stores(volumes, At(disks, r), alerts)
    }

    /** One tracked record of a runner that answers is matched against what the runner reported. */
    method ReconcileOne(
      r: Id, id: Id, reported: map<Id, Id>, now: Time, caches: Caches, ghost before: Stores, ghost done: set<Id>,
      ghost base: nat)
      returns (rest: map<Id, Id>, later: Caches)
      requires id in TrackedIds(before.volumes, r, organizations) && id !in done && base <= faults
      requires CachesTrue(caches, facts)
      requires OnlyChanged(before.volumes, volumes, done)
      requires WellFormed(before.disks) ==> Halfway(r, organizations, before, Now(r), reported, done, facts, now,
          faults > base)
      modifies this
      ensures SameElse(old(disks), disks, r) && base <= old(faults) <= faults && CachesTrue(later, facts)
      ensures OnlyChanged(before.volumes, volumes, done + {id})
      ensures WellFormed(before.disks) ==> Halfway(r, organizations, before, Now(r), rest, done + {id}, facts, now,
          faults > base)
    {
      hide Halfway, Expired;
      ghost var mid, earlier := Now(r), faults;
      if id !in reported {
        rest, later := reported, caches;
        HandleLost(id);
        if WellFormed(before.disks) {
          HalfwayLost(r, organizations, before, mid, Now(r), reported, done, id, facts, now, earlier > base,
              faults > earlier);
        }
      } else {
        rest := reported - {id};
        if WellFormed(before.disks) {
          HalfwayReported(r, organizations, before, mid, reported, done, id, facts, now, earlier > base);
        }
        later := HandlePresent(r, id, reported[id], now, caches);
        if WellFormed(before.disks) {
          HalfwayPresent(r, organizations, before, mid, Now(r), reported, done, id, reported[id], facts, now,
              earlier > base, faults > earlier);
        }
      }
    }

    /** Every tracked record of a runner that answers is matched against what the runner reported. */
    method ReconcileTracked(r: Id, reported: map<Id, Id>, now: Time, caches: Caches) returns (rest: map<Id, Id>,
        later: Caches)
      requires WellFormed(At(disks, r)) ==> Reports(reported, At(disks, r), {})
      requires CachesTrue(caches, facts)
      modifies this
      ensures SameElse(old(disks), disks, r) && faults >= old(faults) && CachesTrue(later, facts)
      ensures OnlyChanged(old(volumes), volumes, TrackedIds(old(volumes), r, organizations))
      ensures WellFormed(At(old(disks), r)) ==>
        Halfway(r, organizations, old(Now(r)), Now(r), rest, TrackedIds(old(volumes), r, organizations), facts, now,
            faults > old(faults))
    {
      ghost var before, base := Now(r), faults;
      var tracked := TrackedIds(volumes, r, organizations);
      var todo := tracked;
      rest, later := reported, caches;
      if WellFormed(before.disks) {
        HalfwayStart(r, organizations, before, reported, facts, now);
      }
      assert tracked - todo == {};
      hide Halfway;
      while todo != {}
        invariant todo <= tracked && SameElse(old(disks), disks, r) && faults >= base && CachesTrue(later, facts)
        invariant OnlyChanged(before.volumes, volumes, tracked - todo)
        invariant WellFormed(before.disks) ==> Halfway(r, organizations, before, Now(r), rest, tracked - todo, facts,
            now, faults > base)
        decreases |todo|
      {
        var id :| id in todo;
        ghost var done := tracked - todo;
        todo := todo - {id};
        assert tracked - todo == done + {id};
        rest, later := ReconcileOne(r, id, rest, now, later, before, done, base);
      }
      assert tracked - {} == tracked;
    }

    /** Whatever else the runner reported is removed. */
    method RemoveOrphans(r: Id, orphans: map<Id, Id>, ghost disksBefore: Disks, ghost handled: set<Id>)
      modifies `disks, `faults
      ensures SameElse(old(disks), disks, r) && faults >= old(faults)
      ensures forall raw :: raw in At(disks, r) ==>
        raw in At(old(disks), r) && At(disks, r)[raw] == At(old(disks), r)[raw]
      ensures OrphansKnown(orphans, disksBefore, handled, At(old(disks), r)) ==>
        && (forall raw :: raw in At(old(disks), r) && disksBefore[raw] in handled ==> raw in At(disks, r))
        && (faults == old(faults) ==> forall raw :: raw in At(disks, r) ==> disksBefore[raw] in handled)
    {
      var rest := orphans.Keys;
      while rest != {}
        invariant rest <= orphans.Keys
        invariant SameElse(old(disks), disks, r) && faults >= old(faults)
        invariant forall raw :: raw in At(disks, r) ==>
          raw in At(old(disks), r) && At(disks, r)[raw] == At(old(disks), r)[raw]
        invariant OrphansKnown(orphans, disksBefore, handled, At(old(disks), r)) ==>
          && (forall raw :: raw in At(old(disks), r) && disksBefore[raw] in handled ==> raw in At(disks, r))
          && (faults == old(faults) ==>
                forall raw :: raw in At(disks, r) ==> disksBefore[raw] in handled || disksBefore[raw] in rest)
        decreases |rest|
      {
        var key :| key in rest;
        rest := rest - {key};
        if orphans[key] == "" {
          continue;
        }
        RemoveDisk(r, orphans[key]);
      }
    }

    /** A runner that answers: its tracked records first, then its orphans. */
    method ReconcileListed(r: Id, now: Time, caches: Caches) returns (later: Caches, listed: bool)
      requires CachesTrue(caches, facts)
      modifies this
      ensures !listed ==> volumes == old(volumes) && disks == old(disks) && alerts == old(alerts)
      ensures SameElse(old(disks), disks, r) && faults >= old(faults) && CachesTrue(later, facts)
      ensures OnlyChanged(old(volumes), volumes, TrackedIds(old(volumes), r, organizations))
      ensures RunnerDone(r, organizations, old(Now(r)), Now(r), Listed(At(old(disks), r)), facts, now,
          faults > old(faults))
    {
      ghost var before, base := Now(r), faults;
      later := caches;
      var items;
      listed, items := ListDisks(r);
      if !listed {
        NothingDone(r, organizations, before, Listed(before.disks), facts, now);
        return;
      }
      var reported := IndexItems(r, items);
      hide Halfway;
      var orphans;
      orphans, later := ReconcileTracked(r, reported, now, later);
      ghost var mid, earlier := Now(r), faults;
      if WellFormed(before.disks) {
        OrphansAreKnown(r, organizations, before, mid, orphans, facts, now, earlier > base);
      }
      RemoveOrphans(r, orphans, before.disks, TrackedIds(before.volumes, r, organizations));
      if WellFormed(before.disks) {
        OrphansRemoved(r, organizations, before, mid, Now(r), orphans, facts, now, earlier > base, faults > earlier);
      }
    }

    method Dial(r: Id) returns (ok: bool, up: bool)
      modifies `faults
      ensures faults == old(faults) + if ok then 0 else 1
      ensures ok ==> (up <==> r !in cut)
    {
      ok := *;
      up := r !in cut;
      if !ok {
        faults := faults + 1;
      }
    }

    /** The body of the loop over the runners. A runner that is not reached costs no active record. */
    method ReconcileRunner(r: Id, now: Time, caches: Caches) returns (later: Caches, reached: bool)
      requires CachesTrue(caches, facts)
      modifies this
      ensures SameElse(old(disks), disks, r) && faults >= old(faults) && CachesTrue(later, facts)
      ensures OnlyChanged(old(volumes), volumes, TrackedIds(old(volumes), r, organizations))
      ensures RunnerDone(r, organizations, old(Now(r)), Now(r), ReportOf(r, enrolled, cut, At(old(disks), r)), facts,
          now, faults > old(faults))
      ensures r in enrolled && !reached ==>
        disks == old(disks) && forall id :: id in old(volumes) && old(volumes)[id].status.Active? ==>
          volumes[id] == old(volumes)[id]
    {
      later, reached := caches, false;
      if r !in enrolled {
        HandleUnenrolled(r, now);
        return;
      }
      var ok, up := Dial(r);
      if !ok {
        NothingDone(r, organizations, Now(r), ReportOf(r, enrolled, cut, At(disks, r)), facts, now);
      } else if !up {
        HandleCut(r, now);
      } else {
        later, reached := ReconcileListed(r, now, caches);
      }
    }

    /**
     * One cycle: every runner that a tracked record names and every enrolled runner in scope, in any order,
     * with caches that last for the cycle. Nothing else is touched.
     */
    method ReconcileVolumes(now: Time)
      modifies this
      ensures faults >= old(faults)
      ensures CycleOutcome(Named(old(volumes), organizations) + (enrolled * inScope), organizations, enrolled, cut,
        old(volumes), volumes, old(disks), disks, facts, now, faults > old(faults))
      ensures faults == old(faults) ==>
        AlertsOutcome(Named(old(volumes), organizations) + (enrolled * inScope), organizations, enrolled, cut,
          old(volumes), old(disks), old(alerts), alerts)
      ensures faults == old(faults) ==>
        ReachesRecords(organizations, enrolled, inScope, cut, old(volumes), volumes, old(disks), disks, facts, now)
    {
      ghost var before, disksBefore, base := volumes, disks, faults;
      var scope := Named(volumes, organizations) + (enrolled * inScope);
      var listed: bool := *;
      if !listed {
        faults := faults + 1;
        NoCycle(scope, organizations, enrolled, cut, volumes, disks, facts, now);
        return;
      }
      VisitRunners(scope, now);
      if faults == base {
        CycleReachesRecords(organizations, enrolled, inScope, cut, before, volumes, disksBefore, disks, facts, now);
      }
    }

    method VisitRunners(scope: set<Id>, now: Time)
      modifies this
      ensures faults >= old(faults)
      ensures CycleOutcome(scope, organizations, enrolled, cut, old(volumes), volumes, old(disks), disks, facts, now,
        faults > old(faults))
      ensures faults == old(faults) ==>
        AlertsOutcome(scope, organizations, enrolled, cut, old(volumes), old(disks), old(alerts), alerts)
    {
      ghost var before, disksBefore, alertsBefore, base := volumes, disks, alerts, faults;
      var caches := Caches(map[], map[]);
      var rest := scope;
      assert scope - rest == {};
      CycleStart(organizations, enrolled, cut, volumes, disks, facts, now);
      assert AlertsOutcome({}, organizations, enrolled, cut, before, disksBefore, alertsBefore, alerts) by {
        CycleAlertsStart(organizations, enrolled, cut, volumes, disks, alerts);
      }
      hide CycleOutcome, AlertsOutcome;
      while rest != {}
        invariant rest <= scope && faults >= base && CachesTrue(caches, facts)
        invariant CycleOutcome(scope - rest, organizations, enrolled, cut, before, volumes, disksBefore, disks, facts,
            now, faults > base)
        invariant faults == base ==>
          AlertsOutcome(scope - rest, organizations, enrolled, cut, before, disksBefore, alertsBefore, alerts)
        decreases |rest|
      {
        var r :| r in rest;
        ghost var done, mid, earlier := scope - rest, Whole(volumes, disks, alerts), faults;
        rest := rest - {r};
        assert scope - rest == done + {r};
        caches := VisitRunner(r, now, caches);
        CycleStep(done, r, organizations, enrolled, cut, before, disksBefore, mid, Whole(volumes, disks, alerts),
          facts, now, earlier > base, faults > earlier);
        if faults == base {
          CycleAlertsStep(done, r, organizations, enrolled, cut, before, disksBefore, alertsBefore, mid,
            Whole(volumes, disks, alerts), facts, now);
        }
      }
      assert scope - {} == scope;
    }

    method VisitRunner(r: Id, now: Time, caches: Caches) returns (later: Caches)
      requires CachesTrue(caches, facts)
      modifies this
      ensures faults >= old(faults) && CachesTrue(later, facts)
      ensures Visited(r, organizations, enrolled, cut, Whole(old(volumes), old(disks), old(alerts)),
        Whole(volumes, disks, alerts), facts, now, faults > old(faults))
    {
      var reached;
      later, reached := ReconcileRunner(r, now, caches);
    }
  }

  /** The whole state that a cycle changes. */
  datatype Whole = Whole(volumes: Volumes, disks: map<Id, Disks>, alerts: set<Alert>) {
    function Of(r: Id): Stores {
      Stores(volumes, At(disks, r), alerts)
    }
  }

  /** Runner r alone has been handled. */
  ghost predicate Visited(
    r: Id, organizations: set<Id>, enrolled: set<Id>, cut: set<Id>, before: Whole, after: Whole, facts: Facts,
    now: Time, faulty: bool)
  {
    && OnlyChanged(before.volumes, after.volumes, TrackedIds(before.volumes, r, organizations))
      && SameElse(before.disks, after.disks, r)
    && RunnerDone(r, organizations, before.Of(r), after.Of(r), ReportOf(r, enrolled, cut, At(before.disks, r)), facts,
        now, faulty)
  }

  /** The runners that tracked records name. */
  function Named(volumes: Volumes, organizations: set<Id>): set<Id> {
    set id | id in volumes && volumes[id].runner != "" && Tracked(volumes, volumes[id].runner, organizations, id) ::
      volumes[id].runner
  }

  /** An open record of one of the organizations, which names a runner. */
  predicate IsConcerned(id: Id, v: Volume, organizations: set<Id>) {
    id != "" && v.runner != "" && !v.status.Deleted? && !v.status.VolumeFailed? && v.organization in organizations
  }

  ghost predicate IsNamed(volumes: Volumes, organizations: set<Id>, r: Id) {
    exists id :: id in volumes && volumes[id].runner == r && IsConcerned(id, volumes[id], organizations)
  }

  /** Exactly the runners that some such record names. */
  lemma NamedIff(volumes: Volumes, organizations: set<Id>, r: Id)
    ensures r in Named(volumes, organizations) <==> IsNamed(volumes, organizations, r)
  {
    forall id | id in volumes && volumes[id].runner == r && r != ""
      ensures Tracked(volumes, r, organizations, id) <==> IsConcerned(id, volumes[id], organizations)
    {
    }
  }

  /** What a runner has to say when every call succeeds. */
  function ReportOf(r: Id, enrolled: set<Id>, cut: set<Id>, disks: Disks): Report {
    if r !in enrolled then Unenrolled else if r in cut then Cut else Listed(disks)
  }

  /** What a cycle makes of runner r, its records and its disks. */
  ghost predicate RunnerOutcome(
    r: Id, organizations: set<Id>, report: Report, before: Volumes, after: Volumes, disksBefore: Disks,
    disksAfter: Disks, facts: Facts, now: Time, faulty: bool)
  {
    && (!report.Listed? ==> disksAfter == disksBefore)
    && (report.Listed? && WellFormed(disksBefore) ==>
          DisksOutcome(before, after, r, organizations, disksBefore, disksAfter, AllKeys(disksBefore), facts, now,
              faulty))
    && (!report.Listed? || WellFormed(disksBefore) ==>
          forall id :: id in before && Tracked(before, r, organizations, id) ==>
            id in after && Outcome(before[id], After(id, before[id], report, facts, now), after[id], faulty))
  }

  /** A cycle over the runners of done leaves the records and disks of all others alone. */
  ghost predicate CycleOutcome(
    done: set<Id>, organizations: set<Id>, enrolled: set<Id>, cut: set<Id>, before: Volumes, after: Volumes,
    disksBefore: map<Id, Disks>, disksAfter: map<Id, Disks>, facts: Facts, now: Time, faulty: bool)
  {
    && after.Keys == before.Keys
    && (forall id :: id in before ==>
      after[id].runner == before[id].runner && after[id].organization == before[id].organization)
    && (forall id :: id in before ==>
          || (before[id].runner in done && Tracked(before, before[id].runner, organizations, id))
          || after[id] == before[id])
    && (forall r :: r !in done ==> At(disksAfter, r) == At(disksBefore, r))
    && (forall r :: r in done ==>
          RunnerOutcome(r, organizations, ReportOf(r, enrolled, cut, At(disksBefore, r)), before, after,
              At(disksBefore, r), At(disksAfter, r), facts, now, faulty))
  }

  /** What a clean cycle makes of the status of an open record, in so many words. */
  ghost predicate IsFate(
    id: Id, v: Volume, enrolled: bool, cut: bool, disks: Disks, facts: Facts, now: Time, status: VolumeStatus)
  {
    match v.status
    case Provisioning => status == if enrolled && !cut && id in disks.Values then Active else Provisioning
    case Active =>
      && (status.Deleted? <==> !enrolled || (!cut && id !in disks.Values))
      && (status.Deprovisioning? <==> enrolled && !cut && id in disks.Values && !v.sandbox && Expired(v, facts, now))
      && (status.Active? || status.Deleted? || status.Deprovisioning?)
    case Deprovisioning => status == if enrolled && !cut && id in disks.Values then Deprovisioning else Deleted
    case _ => true
  }

  /** It has come to its fate, with nothing else of it changed but the instance id, which is that of the disk found. */
  ghost predicate IsReached(
    id: Id, v: Volume, result: Volume, enrolled: bool, cut: bool, disks: Disks, facts: Facts, now: Time)
  {
    && result == v.(status := result.status, instanceId := result.instanceId)
    && IsFate(id, v, enrolled, cut, disks, facts, now, result.status)
    && (if enrolled && !cut && id in disks.Values && !v.status.Deprovisioning? then
          result.instanceId in disks && disks[result.instanceId] == id
        else result.instanceId == v.instanceId)
  }

  /**
   * A clean cycle reaches every open record of the organizations that names a runner, whether or not that runner
   * is enrolled or in scope. It leaves alone the disks of runners that no such record names, unless they
   * are enrolled and in scope.
   */
  ghost predicate ReachesRecords(
    organizations: set<Id>, enrolled: set<Id>, inScope: set<Id>, cut: set<Id>, before: Volumes, after: Volumes,
    disksBefore: map<Id, Disks>, disksAfter: map<Id, Disks>, facts: Facts, now: Time)
  {
    && after.Keys == before.Keys
    && (forall id :: id in before && IsConcerned(id, before[id], organizations) ==>
          var r := before[id].runner;
          (r in enrolled && r !in cut ==> WellFormed(At(disksBefore, r))) ==>
            IsReached(id, before[id], after[id], r in enrolled, r in cut, At(disksBefore, r), facts, now))
    && (forall r :: !IsNamed(before, organizations, r) && !(r in enrolled && r in inScope) ==>
          At(disksAfter, r) == At(disksBefore, r))
  }

  lemma AfterIsFate(id: Id, v: Volume, r: Id, enrolled: set<Id>, cut: set<Id>, disks: Disks, facts: Facts, now: Time)
    requires IsOpen(v.status)
    ensures IsReached(id, v, After(id, v, ReportOf(r, enrolled, cut, disks), facts, now), r in enrolled, r in cut,
      disks, facts, now)
  {
    hide Expired;
    assert Has(disks, id) <==> id in disks.Values;
  }

  lemma CycleReachesRecords(
    organizations: set<Id>, enrolled: set<Id>, inScope: set<Id>, cut: set<Id>, before: Volumes, after: Volumes,
    disksBefore: map<Id, Disks>, disksAfter: map<Id, Disks>, facts: Facts, now: Time)
    requires CycleOutcome(Named(before, organizations) + (enrolled * inScope), organizations, enrolled, cut, before,
      after, disksBefore, disksAfter, facts, now, false)
    ensures ReachesRecords(organizations, enrolled, inScope, cut, before, after, disksBefore, disksAfter, facts, now)
  {
    hide DisksOutcome;
    hide After;
    hide IsFate;
    forall id | id in before && IsConcerned(id, before[id], organizations)
      ensures var r := before[id].runner;
        (r in enrolled && r !in cut ==> WellFormed(At(disksBefore, r))) ==>
          IsReached(id, before[id], after[id], r in enrolled, r in cut, At(disksBefore, r), facts, now)
    {
      var r := before[id].runner;
      assert Tracked(before, r, organizations, id);
      NamedIff(before, organizations, r);
      AfterIsFate(id, before[id], r, enrolled, cut, At(disksBefore, r), facts, now);
    }
    forall r | !IsNamed(before, organizations, r) && !(r in enrolled && r in inScope)
      ensures At(disksAfter, r) == At(disksBefore, r)
    {
      NamedIff(before, organizations, r);
    }
  }

  /** The owner of an active record of an agent is told when its runner is unenrolled, or answers without its disk. */
  lemma OwnerIsTold(
    organizations: set<Id>, enrolled: set<Id>, inScope: set<Id>, cut: set<Id>, volumes: Volumes, disks: map<Id, Disks>,
    before: set<Alert>, after: set<Alert>, id: Id)
    requires AlertsOutcome(Named(volumes, organizations) + (enrolled * inScope), organizations, enrolled, cut, volumes,
      disks, before, after)
    requires forall r :: WellFormed(At(disks, r))
    requires id in volumes && IsConcerned(id, volumes[id], organizations) && volumes[id].status.Active?
    ensures before <= after
    ensures volumes[id].runner !in enrolled && !volumes[id].sandbox ==> RunnerDeprovisioned(volumes[id].owner) in after
    ensures
      var v, r := volumes[id], volumes[id].runner;
      r in enrolled && r !in cut && id !in At(disks, r).Values ==>
        (if v.sandbox then SandboxLost(v.owner) else VolumeLost(v.owner)) in after
  {
    var r := volumes[id].runner;
    NamedIff(volumes, organizations, r);
    assert Tracked(volumes, r, organizations, id) && id in TrackedIds(volumes, r, organizations);
    var report := ReportOf(r, enrolled, cut, At(disks, r));
    forall alert | alert in AlertsFor(id, volumes[id], report) ensures alert in after {
      assert alert in Alerts(volumes, TrackedIds(volumes, r, organizations), report);
    }
  }

  /** Whom a clean cycle over the runners of done tells that a record has lost its disk or its runner. */
  ghost function CycleAlerts(
    done: set<Id>, organizations: set<Id>, enrolled: set<Id>, cut: set<Id>, volumes: Volumes, disks: map<Id, Disks>)
    : set<Alert>
  {
    set r, alert | r in done
      && alert in Alerts(volumes, TrackedIds(volumes, r, organizations), ReportOf(r, enrolled, cut, At(disks, r)))
      :: alert
  }

  ghost predicate AlertsOutcome(
    done: set<Id>, organizations: set<Id>, enrolled: set<Id>, cut: set<Id>, volumes: Volumes, disks: map<Id, Disks>,
    before: set<Alert>, after: set<Alert>)
  {
    (forall r :: r in done && r in enrolled && r !in cut ==> WellFormed(At(disks, r))) ==>
      after == before + CycleAlerts(done, organizations, enrolled, cut, volumes, disks)
  }

  lemma CycleAlertsStart(
    organizations: set<Id>, enrolled: set<Id>, cut: set<Id>, volumes: Volumes, disks: map<Id, Disks>,
    alerts: set<Alert>)
    ensures AlertsOutcome({}, organizations, enrolled, cut, volumes, disks, alerts, alerts)
  {
    assert CycleAlerts({}, organizations, enrolled, cut, volumes, disks) == {};
  }

  lemma SameAlerts(r: Id, organizations: set<Id>, before: Volumes, mid: Volumes, report: Report)
    requires before.Keys == mid.Keys
    requires forall id :: id in before ==> mid[id].runner == before[id].runner
    requires forall id :: id in before && before[id].runner == r ==> mid[id] == before[id]
    ensures TrackedIds(mid, r, organizations) == TrackedIds(before, r, organizations)
    ensures Alerts(mid, TrackedIds(mid, r, organizations), report)
         == Alerts(before, TrackedIds(before, r, organizations), report)
  {
    hide AlertsFor;
    forall id | id in before ensures Tracked(mid, r, organizations, id) <==> Tracked(before, r, organizations, id) {}
  }

  /** The alerts of one more runner. */
  lemma CycleAlertsStep(
    done: set<Id>, r: Id, organizations: set<Id>, enrolled: set<Id>, cut: set<Id>, before: Volumes,
    disksBefore: map<Id, Disks>, alertsBefore: set<Alert>, mid: Whole, after: Whole, facts: Facts, now: Time)
    requires CycleOutcome(done, organizations, enrolled, cut, before, mid.volumes, disksBefore, mid.disks, facts, now,
      false)
    requires AlertsOutcome(done, organizations, enrolled, cut, before, disksBefore, alertsBefore, mid.alerts)
    requires Visited(r, organizations, enrolled, cut, mid, after, facts, now, false) && r !in done
    ensures AlertsOutcome(done + {r}, organizations, enrolled, cut, before, disksBefore, alertsBefore, after.alerts)
  {
    hide WellFormed, RunnerOutcome, VolumesOutcome, DisksOutcome, Alerts;
    var report := ReportOf(r, enrolled, cut, At(disksBefore, r));
    SameAlerts(r, organizations, before, mid.volumes, report);
    assert CycleAlerts(done + {r}, organizations, enrolled, cut, before, disksBefore)
        == CycleAlerts(done, organizations, enrolled, cut, before, disksBefore)
         + Alerts(before, TrackedIds(before, r, organizations), report);
  }

  lemma CycleStart(
    organizations: set<Id>, enrolled: set<Id>, cut: set<Id>, volumes: Volumes, disks: map<Id, Disks>, facts: Facts,
    now: Time)
    ensures CycleOutcome({}, organizations, enrolled, cut, volumes, volumes, disks, disks, facts, now, false)
  {
  }

  lemma NoCycle(
    scope: set<Id>, organizations: set<Id>, enrolled: set<Id>, cut: set<Id>, volumes: Volumes, disks: map<Id, Disks>,
    facts: Facts, now: Time)
    ensures CycleOutcome(scope, organizations, enrolled, cut, volumes, volumes, disks, disks, facts, now, true)
  {
  }

  /** One more runner has been handled. */
  lemma CycleStep(
    done: set<Id>, r: Id, organizations: set<Id>, enrolled: set<Id>, cut: set<Id>, before: Volumes,
    disksBefore: map<Id, Disks>,
    mid: Whole, after: Whole, facts: Facts, now: Time, earlier: bool, later: bool)
    requires CycleOutcome(done, organizations, enrolled, cut, before, mid.volumes, disksBefore, mid.disks, facts, now,
        earlier) && r !in done
    requires Visited(r, organizations, enrolled, cut, mid, after, facts, now, later)
    ensures CycleOutcome(done + {r}, organizations, enrolled, cut, before, after.volumes, disksBefore, after.disks,
        facts, now, earlier || later)
  {
    hide RunnerOutcome, RunnerDone;
    forall other | other in done
      ensures RunnerOutcome(other, organizations, ReportOf(other, enrolled, cut, At(disksBefore, other)), before,
          after.volumes,
                            At(disksBefore, other), At(after.disks, other), facts, now, earlier || later)
    {
      RunnerKept(other, organizations, ReportOf(other, enrolled, cut, At(disksBefore, other)), before, mid.volumes,
          after.volumes,
                 At(disksBefore, other), At(after.disks, other), facts, now, earlier, earlier || later);
    }
    NewRunner(r, organizations, ReportOf(r, enrolled, cut, At(disksBefore, r)), before, mid.Of(r), after.Of(r), facts,
        now, later, earlier || later);
  }

  /** Runners handled earlier keep their outcome. */
  lemma RunnerKept(
    r: Id, organizations: set<Id>, report: Report, before: Volumes, mid: Volumes, after: Volumes, disksBefore: Disks,
    disksAfter: Disks,
    facts: Facts, now: Time, earlier: bool, later: bool)
    requires RunnerOutcome(r, organizations, report, before, mid, disksBefore, disksAfter, facts, now,
        earlier) && (earlier ==> later)
    requires forall id :: id in before && Tracked(before, r, organizations, id) && id in mid ==>
      id in after && after[id] == mid[id]
    ensures RunnerOutcome(r, organizations, report, before, after, disksBefore, disksAfter, facts, now, later)
  {
    hide Survives;
  }

  /** A runner whose records had not been touched before has the outcome it has alone. */
  lemma NewRunner(
    r: Id, organizations: set<Id>, report: Report, before: Volumes, mid: Stores, after: Stores, facts: Facts, now: Time,
    earlier: bool, later: bool)
    requires RunnerDone(r, organizations, mid, after, report, facts, now, earlier)
    requires before.Keys == mid.volumes.Keys && (earlier ==> later)
    requires forall id :: id in before ==> mid.volumes[id].runner == before[id].runner
    requires forall id :: id in before && before[id].runner == r ==> mid.volumes[id] == before[id]
    ensures RunnerOutcome(r, organizations, report, before, after.volumes, mid.disks, after.disks, facts, now, later)
  {
    forall id | id in before ensures Tracked(mid.volumes, r, organizations, id) <==> Tracked(before, r, organizations,
        id) {}
    if report.Listed? && WellFormed(mid.disks) {
      SameDisksOutcome(r, organizations, before, mid, after, facts, now, earlier, later);
    }
    hide DisksOutcome;
  }

  lemma SameDisksOutcome(
    r: Id, organizations: set<Id>, before: Volumes, mid: Stores, after: Stores, facts: Facts, now: Time, earlier: bool,
    later: bool)
    requires DisksOutcome(mid.volumes, after.volumes, r, organizations, mid.disks, after.disks, AllKeys(mid.disks),
        facts, now, earlier)
    requires before.Keys == mid.volumes.Keys && (earlier ==> later)
    requires forall id :: id in before ==> (Tracked(mid.volumes, r, organizations, id) <==> Tracked(before, r,
        organizations, id))
    requires forall id :: id in before && before[id].runner == r ==> mid.volumes[id] == before[id]
    ensures DisksOutcome(before, after.volumes, r, organizations, mid.disks, after.disks, AllKeys(mid.disks), facts,
        now, later)
  {
    forall raw, key | true
      ensures Survives(mid.volumes, r, organizations, raw, key, facts, now) <==> Survives(before, r, organizations,
          raw, key, facts, now)
    {
      hide Present;
    }
    hide Survives;
  }

  /** The part of the state that handling a runner changes. */
  datatype Stores = Stores(volumes: Volumes, disks: Disks, alerts: set<Alert>)

  /** The keys of all the disks of a runner. */
  function AllKeys(disks: Disks): set<Id> {
    set raw | raw in disks :: disks[raw]
  }

  /** What handling runner r makes of its records, its disks and the alerts. */
  ghost predicate RunnerDone(
    r: Id, organizations: set<Id>, before: Stores, after: Stores, report: Report, facts: Facts, now: Time, faulty: bool)
  {
    var tracked := TrackedIds(before.volumes, r, organizations);
    && (!report.Listed? ==> after.disks == before.disks)
    && (report.Listed? && WellFormed(before.disks) ==>
          DisksOutcome(before.volumes, after.volumes, r, organizations, before.disks, after.disks,
              AllKeys(before.disks), facts, now, faulty))
    && (report.Listed? ==> report.disks == before.disks)
    && (!report.Listed? || WellFormed(before.disks) ==>
          && VolumesOutcome(before.volumes, after.volumes, tracked, report, facts, now, faulty)
          && (!faulty ==> after.alerts == before.alerts + Alerts(before.volumes, tracked, report)))
  }

  lemma NothingDone(r: Id, organizations: set<Id>, stores: Stores, report: Report, facts: Facts, now: Time)
    requires report.Listed? ==> report.disks == stores.disks
    ensures RunnerDone(r, organizations, stores, stores, report, facts, now, true)
  {
  }

  /** reported maps the keys not handled yet to instance ids. */
  ghost predicate Reports(reported: map<Id, Id>, disks: Disks, handled: set<Id>) {
    && (forall key :: key in reported ==> reported[key] in disks && disks[reported[key]] == key && key !in handled)
    && (forall raw :: raw in disks && disks[raw] !in handled ==> disks[raw] in reported && reported[disks[raw]] == raw)
  }

  /** Part of the way through a runner that answers: the records of done have been handled, reported holds the rest. */
  ghost predicate Halfway(
    r: Id, organizations: set<Id>, before: Stores, mid: Stores, reported: map<Id, Id>, done: set<Id>, facts: Facts,
    now: Time, faulty: bool)
  {
    && done <= before.volumes.Keys
    && VolumesOutcome(before.volumes, mid.volumes, done, Listed(before.disks), facts, now, faulty)
    && DisksOutcome(before.volumes, mid.volumes, r, organizations, before.disks, mid.disks, done, facts, now, faulty)
    && Reports(reported, before.disks, done)
    && (!faulty ==> mid.alerts == before.alerts + Alerts(before.volumes, done, Listed(before.disks)))
  }

  lemma HalfwayStart(r: Id, organizations: set<Id>, stores: Stores, reported: map<Id, Id>, facts: Facts, now: Time)
    requires Reports(reported, stores.disks, {})
    ensures Halfway(r, organizations, stores, stores, reported, {}, facts, now, false)
  {
  }

  /** Handling a tracked record whose disk the runner did not report. */
  lemma HalfwayLost(
    r: Id, organizations: set<Id>, before: Stores, mid: Stores, after: Stores, reported: map<Id, Id>, done: set<Id>,
    id: Id,
    facts: Facts, now: Time, earlier: bool, later: bool)
    requires Halfway(r, organizations, before, mid, reported, done, facts, now, earlier)
    requires id in TrackedIds(before.volumes, r, organizations) && id !in done && id !in reported && id in mid.volumes
    requires after.disks == mid.disks && OnlyChanged(mid.volumes, after.volumes, {id})
    requires Outcome(mid.volumes[id], Missing(mid.volumes[id]), after.volumes[id], later)
    requires !later ==> after.alerts == mid.alerts + AlertsFor("", mid.volumes[id], Listed(map[]))
    ensures Halfway(r, organizations, before, after, reported, done + {id}, facts, now, earlier || later)
  {
    assert !Has(before.disks, id);
    assert mid.volumes[id] == before.volumes[id] by {
      NotHandled(before.volumes, mid.volumes, done, Listed(before.disks), facts, now, earlier, id);
    }
    VolumesStep(before.volumes, mid.volumes, after.volumes, done, id, Listed(before.disks), facts, now, earlier, later);
    DisksStepLost(r, organizations, before, mid, after, done, id, facts, now, earlier, later);
    AlertsStep(before.volumes, done, id, Listed(before.disks));
  }

  /** A record without a disk makes no difference to the disks. */
  lemma DisksStepLost(
    r: Id, organizations: set<Id>, before: Stores, mid: Stores, after: Stores, done: set<Id>, id: Id, facts: Facts,
    now: Time, earlier: bool, later: bool)
    requires DisksOutcome(before.volumes, mid.volumes, r, organizations, before.disks, mid.disks, done, facts, now,
        earlier)
    requires !Has(before.disks, id) && after.disks == mid.disks && OnlyChanged(mid.volumes, after.volumes, {id})
    ensures DisksOutcome(before.volumes, after.volumes, r, organizations, before.disks, after.disks, done + {id},
        facts, now, earlier || later)
  {
    hide Survives;
    forall raw | raw in before.disks ensures before.disks[raw] != id {}
  }

  /** A record not handled yet is as it was, and so is its disk. */
  lemma HalfwayReported(
    r: Id, organizations: set<Id>, before: Stores, mid: Stores, reported: map<Id, Id>, done: set<Id>, id: Id,
    facts: Facts, now: Time, faulty: bool)
    requires Halfway(r, organizations, before, mid, reported, done, facts, now, faulty) && WellFormed(before.disks)
    requires id in TrackedIds(before.volumes, r, organizations) && id !in done && id in reported
    ensures id in mid.volumes && mid.volumes[id] == before.volumes[id]
    ensures reported[id] in mid.disks && before.disks[reported[id]] == id && reported[id] != ""
    ensures After(id, before.volumes[id], Listed(before.disks), facts, now)
      == Present(before.volumes[id], reported[id], facts, now)
  {
    assert RawOf(before.disks, id) == reported[id];
  }

  /** Handling a tracked record whose disk the runner reported. */
  lemma HalfwayPresent(
    r: Id, organizations: set<Id>, before: Stores, mid: Stores, after: Stores, reported: map<Id, Id>, done: set<Id>,
    id: Id, raw: Id,
    facts: Facts, now: Time, earlier: bool, later: bool)
    requires Halfway(r, organizations, before, mid, reported, done, facts, now, earlier) && WellFormed(before.disks)
    requires id in TrackedIds(before.volumes, r, organizations) && id !in done && id in mid.volumes
    requires mid.volumes[id] == before.volumes[id]
    requires raw in mid.disks && before.disks[raw] == id
    requires After(id, before.volumes[id], Listed(before.disks), facts, now)
      == Present(before.volumes[id], raw, facts, now)
    requires after.alerts == mid.alerts && OnlyChanged(mid.volumes, after.volumes, {id})
    requires HandledPresent(mid.volumes[id], Present(mid.volumes[id], raw, facts, now), raw, mid.disks, after.disks,
        after.volumes[id], later)
    ensures Halfway(r, organizations, before, after, reported - {id}, done + {id}, facts, now, earlier || later)
  {
    VolumesStep(before.volumes, mid.volumes, after.volumes, done, id, Listed(before.disks), facts, now, earlier, later);
    DisksStep(r, organizations, before, mid, after, done, id, raw, facts, now, earlier, later);
    ReportsStep(reported, before.disks, done, id);
    NoAlert(before.volumes, done, id, raw, before.disks);
  }

  /** Nobody is told about a record whose disk is there. */
  lemma NoAlert(volumes: Volumes, done: set<Id>, id: Id, raw: Id, disks: Disks)
    requires done <= volumes.Keys && id in volumes && raw in disks && disks[raw] == id
    ensures Alerts(volumes, done + {id}, Listed(disks)) == Alerts(volumes, done, Listed(disks))
  {
    assert Has(disks, id);
    AlertsStep(volumes, done, id, Listed(disks));
  }

  lemma ReportsStep(reported: map<Id, Id>, disks: Disks, done: set<Id>, id: Id)
    requires Reports(reported, disks, done)
    ensures Reports(reported - {id}, disks, done + {id})
  {
  }

  /** The disk of one more tracked record has been handled. */
  lemma DisksStep(
    r: Id, organizations: set<Id>, before: Stores, mid: Stores, after: Stores, done: set<Id>, id: Id, raw: Id,
    facts: Facts, now: Time, earlier: bool, later: bool)
    requires DisksOutcome(before.volumes, mid.volumes, r, organizations, before.disks, mid.disks, done, facts, now,
        earlier)
    requires WellFormed(before.disks) && raw in mid.disks && before.disks[raw] == id
    requires id in TrackedIds(before.volumes, r, organizations) && id !in done && id in mid.volumes
    requires mid.volumes[id] == before.volumes[id]
    requires OnlyChanged(mid.volumes, after.volumes, {id})
    requires HandledPresent(mid.volumes[id], Present(mid.volumes[id], raw, facts, now), raw, mid.disks, after.disks,
        after.volumes[id], later)
    ensures DisksOutcome(before.volumes, after.volumes, r, organizations, before.disks, after.disks, done + {id},
        facts, now, earlier || later)
  {

    forall other | other in before.disks && before.disks[other] == id ensures other == raw {}
  }

  /** The orphans are known: a well-formed report of which only the disks in current are left. */
  ghost predicate OrphansKnown(orphans: map<Id, Id>, disksBefore: Disks, handled: set<Id>, current: Disks) {
    && WellFormed(disksBefore) && Reports(orphans, disksBefore, handled)
    && forall raw :: raw in current ==> raw in disksBefore && current[raw] == disksBefore[raw]
  }

  lemma OrphansAreKnown(
    r: Id, organizations: set<Id>, before: Stores, mid: Stores, orphans: map<Id, Id>, facts: Facts, now: Time,
    faulty: bool)
    requires Halfway(r, organizations, before, mid, orphans, TrackedIds(before.volumes, r, organizations), facts, now,
        faulty)
    requires WellFormed(before.disks)
    ensures OrphansKnown(orphans, before.disks, TrackedIds(before.volumes, r, organizations), mid.disks)
  {
  }

  /** Once the orphans are removed too, every disk of the runner has been handled. */
  lemma OrphansRemoved(
    r: Id, organizations: set<Id>, before: Stores, mid: Stores, after: Stores, orphans: map<Id, Id>, facts: Facts,
    now: Time, earlier: bool, later: bool)
    requires Halfway(r, organizations, before, mid, orphans, TrackedIds(before.volumes, r, organizations), facts, now,
        earlier)
    requires after.volumes == mid.volumes && after.alerts == mid.alerts
    requires forall raw :: raw in after.disks ==> raw in mid.disks && after.disks[raw] == mid.disks[raw]
    requires forall raw :: raw in mid.disks && before.disks[raw] in TrackedIds(before.volumes, r, organizations) ==>
      raw in after.disks
    requires !later ==>
      forall raw :: raw in after.disks ==> before.disks[raw] in TrackedIds(before.volumes, r, organizations)
    ensures RunnerDone(r, organizations, before, after, Listed(before.disks), facts, now, earlier || later)
  {
    assert DisksOutcome(before.volumes, after.volumes, r, organizations, before.disks, after.disks,
        AllKeys(before.disks), facts, now, earlier || later);
    assert VolumesOutcome(before.volumes, after.volumes, TrackedIds(before.volumes, r, organizations),
        Listed(before.disks), facts, now, earlier || later);
  }

  /** What handling a record whose disk was reported does to the record and to the disks of the runner. */
  ghost predicate HandledPresent(v: Volume, clean: Volume, raw: Id, before: Disks, after: Disks, result: Volume,
      faulty: bool) {
    && Outcome(v, clean, result, faulty)
    && (after == before || (after == before - {raw} && result.status.Deprovisioning? && clean.status.Deprovisioning?))
    && (!faulty && clean.status.Deprovisioning? ==> after == before - {raw})
  }

  /** The records of done are on an unenrolled runner and have been handled. */
  ghost predicate ClosedSoFar(
    before: Volumes, after: Volumes, alertsBefore: set<Alert>, alerts: set<Alert>, done: set<Id>, facts: Facts,
    now: Time, faulty: bool)
  {
    && done <= before.Keys && VolumesOutcome(before, after, done, Unenrolled, facts, now, faulty)
    && (!faulty ==> alerts == alertsBefore + Alerts(before, done, Unenrolled))
  }

  lemma ClosedStep(
    before: Volumes, mid: Volumes, after: Volumes, alertsBefore: set<Alert>, alertsMid: set<Alert>, alerts: set<Alert>,
    done: set<Id>, id: Id, facts: Facts, now: Time, earlier: bool, later: bool)
    requires ClosedSoFar(before, mid, alertsBefore, alertsMid, done, facts, now, earlier)
    requires id in before && id !in done && OnlyChanged(mid, after, {id})
    requires Outcome(mid[id], Missing(mid[id]), after[id], later)
    requires !later ==> alerts == alertsMid + AlertsFor(id, mid[id], Unenrolled)
    ensures ClosedSoFar(before, after, alertsBefore, alerts, done + {id}, facts, now, earlier || later)
  {
    VolumesStep(before, mid, after, done, id, Unenrolled, facts, now, earlier, later);
    AlertsStep(before, done, id, Unenrolled);
  }

  /** A record that has not been handled is as it was. */
  lemma NotHandled(before: Volumes, mid: Volumes, done: set<Id>, report: Report, facts: Facts, now: Time,
      faulty: bool, id: Id)
    requires VolumesOutcome(before, mid, done, report, facts, now, faulty) && id in before && id !in done
    ensures id in mid && mid[id] == before[id]
  {
  }

  /** One more record has been handled. */
  lemma VolumesStep(
    before: Volumes, mid: Volumes, after: Volumes, done: set<Id>, id: Id, report: Report, facts: Facts, now: Time,
    earlier: bool, later: bool)
    requires VolumesOutcome(before, mid, done, report, facts, now, earlier)
    requires id in before && id !in done && OnlyChanged(mid, after, {id})
    requires Outcome(mid[id], After(id, mid[id], report, facts, now), after[id], later)
    ensures VolumesOutcome(before, after, done + {id}, report, facts, now, earlier || later)
  {
    forall other | other in before && other in done
      ensures Outcome(before[other], After(other, before[other], report, facts, now), after[other], earlier || later)
    {
    }
  }

  lemma AlertsStep(volumes: Volumes, done: set<Id>, id: Id, report: Report)
    requires done <= volumes.Keys && id in volumes
    ensures Alerts(volumes, done + {id}, report) == Alerts(volumes, done, report) + AlertsFor(id, volumes[id], report)
  {
  }
}
