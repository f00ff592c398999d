/** What whole runs of volume cycles can and cannot do to a record and its disk. */
module VolumeRuns {
  import opened Records
  import opened VolumeReconcile

  /**
   * A corollary of the cycle's contract. On a runner that is listed, a clean cycle keeps a disk exactly when
   * its record is tracked there and not due to go.
   */
  lemma DiskKeptIff(
    r: Id, organizations: set<Id>, before: Volumes, after: Volumes, disksBefore: Disks, disksAfter: Disks, facts: Facts,
    now: Time, raw: Id)
    requires RunnerOutcome(r, organizations, Listed(disksBefore), before, after, disksBefore, disksAfter, facts, now,
      false)
    requires WellFormed(disksBefore) && raw in disksBefore
    ensures raw in disksAfter <==>
      var key := disksBefore[raw];
      && Tracked(before, r, organizations, key) && !before[key].status.Deprovisioning?
      && (before[key].status.Active? && !before[key].sandbox ==> !Expired(before[key], facts, now))
  {
    hide Expired, Outcome;
    assert disksBefore[raw] in AllKeys(disksBefore);
  }

  /**
   * A corollary of the cycle's contract. The records of other organizations do not protect their disks: a
   * clean cycle removes the disk of an active record that is out of scope and leaves the record active.
   */
  lemma OutOfScopeDiskRemoved(
    scope: set<Id>, organizations: set<Id>, enrolled: set<Id>, cut: set<Id>, before: Volumes, after: Volumes,
    disksBefore: map<Id, Disks>, disksAfter: map<Id, Disks>, facts: Facts, now: Time, r: Id, raw: Id)
    requires CycleOutcome(scope, organizations, enrolled, cut, before, after, disksBefore, disksAfter, facts, now,
      false)
    requires r in scope && r in enrolled && r !in cut && WellFormed(At(disksBefore, r)) && raw in At(disksBefore, r)
    requires var key := At(disksBefore, r)[raw];
      key in before && before[key].status.Active? && before[key].organization !in organizations
    ensures raw !in At(disksAfter, r)
    ensures after[At(disksBefore, r)[raw]] == before[At(disksBefore, r)[raw]]
  {
    var key := At(disksBefore, r)[raw];
    assert !Tracked(before, r, organizations, key);
    DiskKeptIff(r, organizations, before, after, At(disksBefore, r), At(disksAfter, r), facts, now, raw);
  }

  /**
   * One record, at most one disk for it, and everything that happens to them. starting: the start that
   * created the record is still under way. seen: the record as the cycle under way has listed it; the cycle
   * acts on what it has seen, whatever has happened since.
   */
  datatype State = State(volume: Volume, disk: Option<Id>, starting: bool, seen: Option<Volume>)

  datatype Event =
    | Look                 // a cycle lists the records
    | Act(report: Report, facts: Facts, now: Time, faulty: bool)  // and gets to the runner of this one
    | Create(runner: Id)   // by a start: the record is closed, and reopens
    | Undo                 // the start of an agent's workload fails, and the record it has created with it
    | Finish               // the start is over otherwise; its undo may have failed
    | Terminate(removed: bool, closed: bool)  // of the sandbox that owns it, perhaps in part
    | DiskChanges          // the runner provisions the disk, or loses it

  /** A cycle writes what it changes of the record it has seen. */
  function Written(v: Volume, seen: Volume, result: Volume): Volume {
    v.(status := if result.status != seen.status then result.status else v.status,
       instanceId := if result.instanceId != seen.instanceId then result.instanceId else v.instanceId)
  }

  /** What a cycle does to a record and to its disk: a record that was closed when listed is not in scope. */
  ghost predicate ActStep(id: Id, s: State, e: Event, t: State)
    requires e.Act? && s.seen.Some?
  {
    var seen := s.seen.value;
    var clean := After(id, seen, e.report, e.facts, e.now);
    && t.starting == s.starting && t.seen.None?
    && if !IsOpen(seen.status) then t.volume == s.volume && t.disk in {s.disk, None}
       else exists result ::
         && Outcome(seen, clean, result, e.faulty) && t.volume == Written(s.volume, seen, result)
         && (t.disk == s.disk || (t.disk == None && result.status.Deprovisioning? && clean.status.Deprovisioning?))
  }

  ghost predicate Step(id: Id, s: State, e: Event, t: State) {
    match e
    case Look => s.seen.None? && t == s.(seen := Some(s.volume))
    case Act(_, _, _, _) => s.seen.Some? && ActStep(id, s, e, t)
    case Create(runner) =>
      && !IsOpen(s.volume.status) && !s.starting
      && t == s.(volume := s.volume.(status := Provisioning, runner := runner), starting := true)
    case Undo =>
      && s.starting && !s.volume.sandbox
      && t == s.(volume := s.volume.(status := VolumeFailed), starting := false)
    case Finish => t == s.(starting := false)
    case Terminate(removed, closed) =>
      && s.volume.sandbox && !s.starting && IsOpen(s.volume.status)
      && (removed ==> s.volume.runner != "") && (closed ==> removed || s.volume.runner == "")
      && t == s.(volume := if closed then s.volume.(status := Deleted) else s.volume,
                 disk := if removed then None else s.disk)
    case DiskChanges => t == s.(disk := t.disk)
  }

  /** A run begins with a record that is closed; the kind of the record never changes. */
  ghost predicate IsRun(id: Id, run: seq<State>, events: seq<Event>) {
    && |run| == |events| + 1 && !IsOpen(run[0].volume.status) && !run[0].starting && run[0].seen.None?
    && forall k :: 0 <= k < |events| ==> Step(id, run[k], events[k], run[k + 1])
  }

  /** Cycles do to a tracked record what runs allow. */
  lemma CycleIsStep(
    r: Id, organizations: set<Id>, report: Report, before: Volumes, after: Volumes, disksBefore: Disks,
    disksAfter: Disks, facts: Facts, now: Time, faulty: bool, id: Id, raw: Option<Id>, starting: bool)
    requires RunnerOutcome(r, organizations, report, before, after, disksBefore, disksAfter, facts, now, faulty)
    requires WellFormed(disksBefore) && Tracked(before, r, organizations, id)
    requires report.Listed? ==> report.disks == disksBefore
    requires if Has(disksBefore, id) then raw == Some(RawOf(disksBefore, id)) else raw == None
    ensures id in after
    ensures ActStep(id, State(before[id], raw, starting, Some(before[id])), Act(report, facts, now, faulty),
      State(after[id], if raw.Some? && raw.value !in disksAfter then None else raw, starting, None))
  {
    hide Expired;
    assert Written(before[id], before[id], after[id]) == after[id];
  }

  predicate IsDeprovisioning(s: State) {
    s.volume.status.Deprovisioning?
  }

  /** A cycle expires the record: its instance has no active workload, and the last one ended at least a TTL ago. */
  ghost predicate Expires(id: Id, s: State, e: Event, t: State) {
    && e.Act? && e.report.Listed? && Has(e.report.disks, id) && s.seen.Some?
    && s.seen.value.status.Active? && !s.seen.value.sandbox && Expired(s.seen.value, e.facts, e.now)
    && IsDeprovisioning(t)
  }

  /** Only an expiry makes a record deprovisioning. */
  lemma OnlyExpiryDeprovisions(id: Id, s: State, e: Event, t: State)
    requires Step(id, s, e, t) && !IsDeprovisioning(s) && IsDeprovisioning(t)
    ensures Expires(id, s, e, t)
  {
    hide Expired;
  }

  /** A record that is deprovisioning has been so ever since a cycle expired it. */
  lemma {:induction false} ExpiredBefore(id: Id, run: seq<State>, events: seq<Event>, k: nat) returns (j: nat)
    requires IsRun(id, run, events) && k < |run| && IsDeprovisioning(run[k])
    ensures j < k && Expires(id, run[j], events[j], run[j + 1])
    ensures forall m :: j < m <= k ==> IsDeprovisioning(run[m])
    decreases k
  {
    hide Step, Expires;
    assert Step(id, run[k - 1], events[k - 1], run[k - 1 + 1]);
    if IsDeprovisioning(run[k - 1]) {
      j := ExpiredBefore(id, run, events, k - 1);
    } else {
      OnlyExpiryDeprovisions(id, run[k - 1], events[k - 1], run[k]);
      j := k - 1;
    }
  }

  /** The cycle under way in state k has listed the records in state l. */
  ghost predicate IsLook(run: seq<State>, events: seq<Event>, l: nat, k: nat)
    requires k <= |events| < |run|
  {
    && l < k && events[l].Look? && run[k].seen == Some(run[l].volume)
    && forall m :: l < m < k ==> !events[m].Look? && !events[m].Act?
  }

  /** One of the events from i up to k creates the record anew. */
  predicate IsCreated(events: seq<Event>, i: nat, k: nat)
    requires k <= |events|
  {
    exists m :: i <= m < k && events[m].Create?
  }

  /** One of the events from i up to k undoes a start. */
  predicate IsUndone(events: seq<Event>, i: nat, k: nat)
    requires k <= |events|
  {
    exists m :: i <= m < k && events[m].Undo?
  }

  /** One of the events from i up to k closes the record: an undone start, or the end of its sandbox. */
  predicate IsClosed(events: seq<Event>, i: nat, k: nat)
    requires k <= |events|
  {
    exists m :: i <= m < k && (events[m].Undo? || (events[m].Terminate? && events[m].closed))
  }

  /** While a cycle is under way the record stays as it was listed, unless it is closed or created anew. */
  lemma {:induction false} SinceLook(id: Id, run: seq<State>, events: seq<Event>, k: nat) returns (l: nat)
    requires IsRun(id, run, events) && k < |run| && run[k].seen.Some?
    ensures IsLook(run, events, l, k)
    ensures !IsClosed(events, l, k) && !IsCreated(events, l, k) ==> run[k].volume == run[l].volume
    ensures !IsCreated(events, l, k) ==> run[k].volume == run[l].volume || !IsOpen(run[k].volume.status)
    ensures IsCreated(events, l, k) ==> run[k].volume.status.Provisioning? || !IsOpen(run[k].volume.status)
    ensures !IsClosed(events, l, k) && IsCreated(events, l, k) ==> !IsOpen(run[l].volume.status)
    ensures !IsOpen(run[k].volume.status) ==> IsClosed(events, l, k) || run[k].volume == run[l].volume
    ensures forall m :: l < m <= k ==> run[m].seen == run[k].seen
    decreases k
  {
    var s, e, t := run[k - 1], events[k - 1], run[k - 1 + 1];
    assert Step(id, s, e, t);
    if e.Look? {
      l := k - 1;
    } else {
      l := SinceLook(id, run, events, k - 1);
      assert IsClosed(events, l, k) <==> IsClosed(events, l, k - 1) || e.Undo? || (e.Terminate? && e.closed);
      assert IsCreated(events, l, k) <==> IsCreated(events, l, k - 1) || e.Create?;
    }
  }

  /** The kind of a record never changes. */
  lemma {:induction false} KindConstant(id: Id, run: seq<State>, events: seq<Event>, k: nat)
    requires IsRun(id, run, events) && k < |run|
    ensures run[k].volume.sandbox == run[0].volume.sandbox
    ensures run[k].seen.Some? ==> run[k].seen.value.sandbox == run[0].volume.sandbox
    decreases k
  {
    if k > 0 {
      hide Expired;
      assert Step(id, run[k - 1], events[k - 1], run[k - 1 + 1]);
      KindConstant(id, run, events, k - 1);
    }
  }

  /**
   * In every run, when a cycle removes the disk of an open record in scope: unless the record has been created anew
   * since the cycle listed the records, an earlier cycle, or the same one, found the instance idle for a whole
   * TTL, and the record has been deprovisioning ever since; the disk of a sandbox is never removed
   * like this. If it has, the disk is that of a record that is just being provisioned.
   */
  lemma DiskRemovedOnlyWhenExpired(id: Id, run: seq<State>, events: seq<Event>, k: nat) returns (l: nat, j: nat)
    requires IsRun(id, run, events) && k < |events| && events[k].Act?
    requires IsOpen(run[k].volume.status) && run[k].disk.Some? && run[k + 1].disk.None?
    ensures IsLook(run, events, l, k)
    ensures run[k].volume.status.Provisioning? <==> IsCreated(events, l, k)
    ensures !IsCreated(events, l, k) ==>
      && j <= k && Expires(id, run[j], events[j], run[j + 1]) && !run[k].volume.sandbox
      && forall m :: j < m <= k + 1 ==> IsDeprovisioning(run[m])
  {
    assert Step(id, run[k], events[k], run[k + 1]);
    hide Expired;
    l := SinceLook(id, run, events, k);
    j := 0;
    if !IsCreated(events, l, k) {
      assert run[k].volume == run[l].volume;
      assert IsDeprovisioning(run[k + 1]);
      j := ExpiredBefore(id, run, events, k + 1);
      KindConstant(id, run, events, j);
      KindConstant(id, run, events, k);
    }
  }

  /**
   * A cycle lists the records before a start creates this one, and gets to the runner once its disk is there:
   * it takes the disk for an orphan and removes it, while the workload is starting.
   */
  lemma FreshDiskRemoved(v: Volume, facts: Facts, now: Time) returns (run: seq<State>, events: seq<Event>)
    requires v.status.Deleted?
    ensures IsRun("v", run, events) && |run| == 5 && events[3].Act? && events[3].report.Listed?
    ensures Has(events[3].report.disks, "v") && run[3].disk == Some("d") && run[4].disk == None
    ensures run[4].volume.status.Provisioning? && run[4].starting
  {
    var disks: Disks := map["d" := "v"];
    var s1 := State(v, None, false, Some(v));
    var s2 := s1.(volume := v.(status := Provisioning, runner := "r"), starting := true);
    run := [State(v, None, false, None), s1, s2, s2.(disk := Some("d")), s2.(seen := None)];
    events := [Look, Create("r"), DiskChanges, Act(Listed(disks), facts, now, false)];
    assert "d" in disks && disks["d"] == "v";
  }

  /** How far along its life a record is. */
  function Rank(status: VolumeStatus): nat {
    match status
    case Provisioning => 0
    case Active => 1
    case Deprovisioning => 2
    case Deleted => 3
    case VolumeFailed => 3
  }

  /** A cycle that gets to the runner in state k has been overtaken: the record was closed since it was listed. */
  ghost predicate IsOvertaken(run: seq<State>, events: seq<Event>, k: nat)
    requires k < |events| < |run|
  {
    events[k].Act? && exists l :: 0 <= l < k && IsLook(run, events, l, k) && IsClosed(events, l, k)
  }

  /** A cycle that has not been overtaken does not touch a record that is closed. */
  lemma ClosedStays(id: Id, run: seq<State>, events: seq<Event>, k: nat)
    requires IsRun(id, run, events) && k < |events| && events[k].Act? && !IsOvertaken(run, events, k)
    requires !IsOpen(run[k].volume.status)
    ensures run[k + 1].volume == run[k].volume
  {
    assert Step(id, run[k], events[k], run[k + 1]);
    var l := SinceLook(id, run, events, k);
  }

  /** A record that a cycle finds open has not moved beyond what the cycle has seen, unless created anew. */
  lemma OpenSince(id: Id, run: seq<State>, events: seq<Event>, k: nat)
    requires IsRun(id, run, events) && k < |run| && run[k].seen.Some? && IsOpen(run[k].volume.status)
    ensures run[k].volume == run[k].seen.value || run[k].volume.status.Provisioning?
  {
    var l := SinceLook(id, run, events, k);
  }

  /** The cycle finds the disk. */
  ghost predicate Finds(id: Id, e: Event) {
    e.Act? && e.report.Listed? && Has(e.report.disks, id)
  }

  /** The cycle writes a status. */
  ghost predicate Moves(id: Id, s: State, e: Event) {
    && e.Act? && s.seen.Some? && IsOpen(s.seen.value.status)
    && After(id, s.seen.value, e.report, e.facts, e.now).status != s.seen.value.status
  }

  /** What a cycle writes: a status when it moves the record, and then one that is further on than what it has seen. */
  lemma ActWrites(id: Id, s: State, e: Event, t: State)
    requires Step(id, s, e, t) && e.Act?
    ensures t.starting == s.starting && t.seen.None? && s.seen.Some?
    ensures !Moves(id, s, e) ==> t.volume.status == s.volume.status
    ensures Moves(id, s, e) && !e.faulty ==>
      t.volume.status == After(id, s.seen.value, e.report, e.facts, e.now).status
    ensures t.volume.status != s.volume.status ==>
      t.volume.status == After(id, s.seen.value, e.report, e.facts, e.now).status && !t.volume.status.Provisioning?
        && !t.volume.status.VolumeFailed? && Rank(t.volume.status) > Rank(s.seen.value.status)
    ensures s.seen.value.status.Provisioning? ==> (Moves(id, s, e) <==> Finds(id, e))
    ensures Moves(id, s, e) ==> !After(id, s.seen.value, e.report, e.facts, e.now).status.Provisioning?
  {
    hide Expired;
  }

  /** One step forward. */
  lemma ForwardStep(id: Id, run: seq<State>, events: seq<Event>, k: nat)
    requires IsRun(id, run, events) && k < |events| && !events[k].Create? && !IsOvertaken(run, events, k)
    ensures Rank(run[k].volume.status) <= Rank(run[k + 1].volume.status)
    ensures run[k + 1].volume.status.VolumeFailed? <==> run[k].volume.status.VolumeFailed? || events[k].Undo?
    ensures !IsOpen(run[k].volume.status) && !events[k].Undo? ==> run[k + 1].volume == run[k].volume
  {
    assert Step(id, run[k], events[k], run[k + 1]);
    hide ActStep, IsOvertaken, After, Finds;
    if events[k].Act? {
      ActWrites(id, run[k], events[k], run[k + 1]);
      if IsOpen(run[k].volume.status) {
        OpenSince(id, run, events, k);
      } else {
        ClosedStays(id, run, events, k);
      }
    }
  }

  /**
   * Until a start creates it anew, and as long as no cycle is overtaken, a record only moves forward. It
   * has failed exactly when a start has been undone, and stays closed once it is.
   */
  lemma {:induction false} OnlyForward(id: Id, run: seq<State>, events: seq<Event>, i: nat, k: nat)
    requires IsRun(id, run, events) && i <= k < |run| && !IsCreated(events, i, k)
    requires forall m :: i <= m < k ==> !IsOvertaken(run, events, m)
    ensures Rank(run[i].volume.status) <= Rank(run[k].volume.status)
    ensures run[k].volume.status.VolumeFailed? <==> run[i].volume.status.VolumeFailed? || IsUndone(events, i, k)
    ensures !IsOpen(run[i].volume.status) && !IsUndone(events, i, k) ==> run[k].volume == run[i].volume
    decreases k
  {
    if i < k {
      hide Expired, IsOvertaken, Step;
      OnlyForward(id, run, events, i, k - 1);
      assert IsUndone(events, i, k) <==> IsUndone(events, i, k - 1) || events[k - 1].Undo?;
      ForwardStep(id, run, events, k - 1);
    }
  }

  /** A cycle that has seen the record like this means to take it to a later open status. */
  ghost predicate Advances(id: Id, seen: Volume, e: Event) {
    && Finds(id, e)
    && (seen.status.Provisioning? || (seen.status.Active? && !seen.sandbox && Expired(seen, e.facts, e.now)))
  }

  /**
   * In every run, a record falls back, other than by being created anew, exactly when it has been closed
   * and a cycle that listed it before still writes it as active or deprovisioning.
   */
  lemma FallsBackIff(id: Id, run: seq<State>, events: seq<Event>, k: nat)
    requires IsRun(id, run, events) && k < |events| && !events[k].Create? && (events[k].Act? ==> !events[k].faulty)
    ensures Rank(run[k + 1].volume.status) < Rank(run[k].volume.status) <==>
      events[k].Act? && !IsOpen(run[k].volume.status) && Advances(id, run[k].seen.value, events[k])
  {
    hide Expired;
    assert Step(id, run[k], events[k], run[k + 1]);
    if events[k].Act? && IsOpen(run[k].volume.status) {
      OpenSince(id, run, events, k);
    }
  }

  /** A cycle lists the record while its start is under way; the start is undone, and the cycle reopens the record. */
  lemma UndoneReopens(v: Volume, facts: Facts, now: Time) returns (run: seq<State>, events: seq<Event>)
    requires v.status.Deleted? && !v.sandbox
    ensures IsRun("v", run, events) && |run| == 6 && events[3].Undo? && events[4].Act?
    ensures run[4].volume.status.VolumeFailed? && run[5].volume.status.Active? && IsOvertaken(run, events, 4)
  {
    var disks: Disks := map["d" := "v"];
    var s1 := State(v.(status := Provisioning, runner := "r"), None, true, None);
    var s2 := s1.(disk := Some("d"));
    var s3 := s2.(seen := Some(s1.volume));
    var s4 := s3.(volume := s1.volume.(status := VolumeFailed), starting := false);
    var active := s1.volume.(status := Active, instanceId := "d");
    run := [State(v, None, false, None), s1, s2, s3, s4, State(active, Some("d"), false, None)];
    events := [Create("r"), DiskChanges, Look, Undo, Act(Listed(disks), facts, now, false)];
    assert "d" in disks && disks["d"] == "v";
    assert Has(disks, "v") && RawOf(disks, "v") == "d";
    assert Written(s4.volume, s1.volume, active) == active;
    assert Step("v", s4, events[4], run[5]);
    assert IsLook(run, events, 2, 4) && events[3].Undo? && IsClosed(events, 2, 4);
  }

  ghost predicate IsMoved(id: Id, run: seq<State>, events: seq<Event>, i: nat, k: nat)
    requires k <= |events| < |run|
  {
    exists m :: i <= m < k && Moves(id, run[m], events[m])
  }

  ghost predicate IsFound(id: Id, events: seq<Event>, i: nat, k: nat)
    requires k <= |events|
  {
    exists m :: i <= m < k && Finds(id, events[m])
  }

  /** While a start is under way, only cycles touch its record. */
  lemma StartingStep(id: Id, s: State, e: Event, t: State)
    requires Step(id, s, e, t) && t.starting
    ensures if e.Create? then t.volume.status.Provisioning? && t.seen == s.seen else s.starting
    ensures !e.Create? && !e.Act? ==> t.volume == s.volume && t.seen == if e.Look? then Some(s.volume) else s.seen
    ensures e.Act? ==> t.seen.None?
    ensures !e.Act? ==> !Moves(id, s, e) && !Finds(id, e)
  {
    if e.Act? {
      ActWrites(id, s, e, t);
      hide ActStep;
    }
  }

  /** While a start is under way its record is provisioning exactly until a cycle writes a status. */
  lemma {:induction false} ProvisioningUntilMoved(id: Id, run: seq<State>, events: seq<Event>, i: nat, k: nat)
    requires IsRun(id, run, events) && i < k < |run| && events[i].Create? && run[k].starting
    requires !IsCreated(events, i + 1, k)
    ensures !IsMoved(id, run, events, i + 1, k) ==> run[k].volume.status.Provisioning?
    ensures (forall m :: i < m < k && events[m].Act? ==> !events[m].faulty) && IsMoved(id, run, events, i + 1, k) ==>
      !run[k].volume.status.Provisioning?
    decreases k
  {
    hide Moves, Finds, Step;
    StartingStep(id, run[k - 1], events[k - 1], run[k - 1 + 1]);
    if events[k - 1].Act? {
      ActWrites(id, run[k - 1], events[k - 1], run[k - 1 + 1]);
    }
    if k > i + 1 {
      ProvisioningUntilMoved(id, run, events, i, k - 1);
      assert IsMoved(id, run, events, i + 1, k) <==>
        (IsMoved(id, run, events, i + 1, k - 1) || Moves(id, run[k - 1], events[k - 1]));
    }
  }

  /** If no cycle was under way when the record was created, that is when a cycle first finds the disk. */
  lemma {:induction false} MovedIffFound(id: Id, run: seq<State>, events: seq<Event>, i: nat, k: nat)
    requires IsRun(id, run, events) && i < k < |run| && events[i].Create? && run[k].starting
    requires !IsCreated(events, i + 1, k) && run[i].seen.None?
    ensures IsMoved(id, run, events, i + 1, k) <==> IsFound(id, events, i + 1, k)
    ensures !IsMoved(id, run, events, i + 1, k) && run[k].seen.Some? ==> run[k].seen.value.status.Provisioning?
    decreases k
  {
    hide Moves, Finds, Step;
    StartingStep(id, run[k - 1], events[k - 1], run[k - 1 + 1]);
    if events[k - 1].Act? {
      ActWrites(id, run[k - 1], events[k - 1], run[k - 1 + 1]);
    }
    if k > i + 1 {
      MovedIffFound(id, run, events, i, k - 1);
      ProvisioningUntilMoved(id, run, events, i, k - 1);
      assert IsMoved(id, run, events, i + 1, k) <==>
        (IsMoved(id, run, events, i + 1, k - 1) || Moves(id, run[k - 1], events[k - 1]));
      assert IsFound(id, events, i + 1, k) <==> IsFound(id, events, i + 1, k - 1) || Finds(id, events[k - 1]);
    }
  }

  /**
   * The undo of a start fails the record that the start has created, whatever has become of it: with clean
   * cycles, it is still provisioning exactly when none of them has written a status since. For cycles that
   * listed the records after its creation that means: none has found the disk.
   */
  lemma UndoneWhileProvisioningIff(id: Id, run: seq<State>, events: seq<Event>, i: nat, k: nat)
    requires IsRun(id, run, events) && i < k < |events| && events[i].Create? && events[k].Undo?
    requires !IsCreated(events, i + 1, k)
    requires forall m :: i < m < k && events[m].Act? ==> !events[m].faulty
    ensures run[k + 1].volume.status.VolumeFailed?
    ensures run[k].volume.status.Provisioning? <==> !IsMoved(id, run, events, i + 1, k)
    ensures run[i].seen.None? ==> (run[k].volume.status.Provisioning? <==> !IsFound(id, events, i + 1, k))
  {
    assert Step(id, run[k], events[k], run[k + 1]);
    ProvisioningUntilMoved(id, run, events, i, k);
    if run[i].seen.None? {
      MovedIffFound(id, run, events, i, k);
    }
  }

  /** A record that a cycle has made active while its start was under way is failed by the undo, disk and all. */
  lemma ActiveUndone(v: Volume, facts: Facts, now: Time) returns (run: seq<State>, events: seq<Event>)
    requires v.status.Deleted? && !v.sandbox
    ensures IsRun("v", run, events) && |run| == 6 && events[0].Create? && events[4].Undo?
    ensures run[4].volume.status.Active? && run[5].volume.status.VolumeFailed? && run[5].disk == Some("d")
  {
    var disks: Disks := map["d" := "v"];
    var s1 := State(v.(status := Provisioning, runner := "r"), None, true, None);
    var s2 := s1.(disk := Some("d"));
    var s3 := s2.(seen := Some(s1.volume));
    var active := s1.volume.(status := Active, instanceId := "d");
    var s4 := State(active, Some("d"), true, None);
    run :=
      [State(v, None, false, None), s1, s2, s3, s4, State(active.(status := VolumeFailed), Some("d"), false, None)];
    events := [Create("r"), DiskChanges, Look, Act(Listed(disks), facts, now, false), Undo];
    assert "d" in disks && disks["d"] == "v";
    assert Has(disks, "v") && RawOf(disks, "v") == "d";
    assert Written(s3.volume, s1.volume, active) == active;
    assert Step("v", s3, events[3], s4);
  }

  /** What ends an active record, when it goes through. */
  ghost predicate Ends(id: Id, s: State, e: Event) {
    match e
    case Act(report, facts, now, _) =>
      || report.Unenrolled?
      || (report.Listed? && (!Has(report.disks, id) || (!s.volume.sandbox && Expired(s.volume, facts, now))))
    case Undo => true
    case Terminate(_, closed) => closed
    case _ => false
  }

  /**
   * In every run, an active record ends only by expiry, because its runner is unenrolled or answers without its
   * disk, by the undo of the start that has created it, or with its sandbox; and then it does, unless a
   * call fails. It fails by the undo only, which sandboxes do not know.
   */
  lemma ActiveEndsIff(id: Id, run: seq<State>, events: seq<Event>, k: nat)
    requires IsRun(id, run, events) && k < |events| && run[k].volume.status.Active?
    ensures !run[k + 1].volume.status.Active? ==> Ends(id, run[k], events[k])
    ensures Ends(id, run[k], events[k]) && (events[k].Act? ==> !events[k].faulty) ==> !run[k + 1].volume.status.Active?
    ensures run[k + 1].volume.status.VolumeFailed? <==> events[k].Undo?
    ensures run[k + 1].volume.status.Deprovisioning? ==> Expires(id, run[k], events[k], run[k + 1])
    ensures events[k].Undo? ==> run[k].starting && !run[k].volume.sandbox
  {
    hide Expired;
    assert Step(id, run[k], events[k], run[k + 1]);
    if events[k].Act? {
      OpenSince(id, run, events, k);
    }
  }
}
