/**
 * Runs of workload cycles in which no call fails: two cycles bring the active records of a
 * runner and the workloads it runs into agreement, and every later cycle keeps it.
 */
module WorkloadConvergence {
  import opened Records
  import opened WorkloadReconcile

  datatype Snapshot = Snapshot(records: Ledger, pods: map<Id, Pods>)

  /** One cycle: the runners that answer, the pods it finds, and its time. */
  datatype Cycle = Cycle(up: set<Id>, found: map<Id, Pods>, now: Time)

  /** Between cycles containers may do anything, but workloads neither come nor go. */
  ghost predicate Evolved(pods: Pods, later: Pods) {
    later.Keys == pods.Keys && forall raw :: raw in pods ==> later[raw].key == pods[raw].key
  }

  ghost predicate Follows(s: Snapshot, c: Cycle, t: Snapshot, r: Id, inScope: set<Id>) {
    && Evolved(At(s.pods, r), At(c.found, r)) && r in c.up
    && CycleOutcome(Named(s.records) + inScope, c.up, s.records, t.records, c.found, t.pods, c.now, false)
  }

  ghost predicate IsRun(run: seq<Snapshot>, cycles: seq<Cycle>, r: Id, inScope: set<Id>) {
    && |run| == |cycles| + 1
    && forall k :: 0 <= k < |cycles| ==> Follows(run[k], cycles[k], run[k + 1], r, inScope)
  }

  predicate IsUp(status: WorkloadStatus) {
    status.Starting? || status.Running?
  }

  /** Every workload on r has a starting or running record on r. */
  ghost predicate NoOrphans(s: Snapshot, r: Id) {
    forall raw :: raw in At(s.pods, r) ==>
      Tracked(s.records, r, At(s.pods, r)[raw].key) && IsUp(s.records[At(s.pods, r)[raw].key].status)
  }

  /** The active records of r are exactly the workloads that r runs, and none is stopping. */
  ghost predicate Agreement(s: Snapshot, r: Id) {
    && NoOrphans(s, r)
    && forall id :: id in s.records && Tracked(s.records, r, id) ==> Runs(At(s.pods, r), id)
  }

  /** Halfway there: a record without a workload is at least stopping. */
  ghost predicate NearAgreement(s: Snapshot, r: Id) {
    && NoOrphans(s, r)
    && forall id :: id in s.records && Tracked(s.records, r, id) && IsUp(s.records[id].status) ==>
      Runs(At(s.pods, r), id)
  }

  lemma EvolvedWellFormed(pods: Pods, later: Pods)
    requires WellFormed(pods) && Evolved(pods, later)
    ensures WellFormed(later)
  {
  }

  lemma Visited(s: Snapshot, c: Cycle, t: Snapshot, r: Id, inScope: set<Id>)
    requires r in Named(s.records) + inScope && Follows(s, c, t, r, inScope)
    ensures RunnerOutcome(r, c.up, s.records, t.records, c.found, t.pods, c.now, false)
    ensures WellFormed(At(c.found, r)) ==> WellFormed(At(t.pods, r))
  {
  }

  /** A workload that is left has a record that is up. */
  lemma SurvivorTracked(s: Snapshot, c: Cycle, t: Snapshot, r: Id, raw: Id)
    requires WellFormed(At(c.found, r)) && r in c.up && raw in At(t.pods, r)
    requires RunnerOutcome(r, c.up, s.records, t.records, c.found, t.pods, c.now, false)
    ensures Tracked(t.records, r, At(t.pods, r)[raw].key) && IsUp(t.records[At(t.pods, r)[raw].key].status)
  {
    hide IsCondemned, Promoted, Unclassified;
    ReportedFate(s.records, r, At(t.pods, r)[raw].key, raw, At(c.found, r), c.now);
  }

  /** A record that is up is left with its workload. */
  lemma UpRuns(s: Snapshot, c: Cycle, t: Snapshot, r: Id, id: Id)
    requires WellFormed(At(c.found, r)) && r in c.up
    requires RunnerOutcome(r, c.up, s.records, t.records, c.found, t.pods, c.now, false)
    requires id in s.records && Tracked(s.records, r, id) && id in t.records && IsUp(t.records[id].status)
    ensures Runs(At(t.pods, r), id)
  {
    hide IsCondemned, Promoted, Unclassified;
    assert Runs(At(c.found, r), id);
    var raw := RawOf(At(c.found, r), id);
    ReportedFate(s.records, r, id, raw, At(c.found, r), c.now);
    assert raw in At(t.pods, r);
  }

  /** A cycle that visits r brings it near agreement from anywhere. */
  lemma FirstCycle(s: Snapshot, c: Cycle, t: Snapshot, r: Id, inScope: set<Id>)
    requires r != "" && r in Named(s.records) + inScope
    requires WellFormed(At(s.pods, r)) && Follows(s, c, t, r, inScope)
    ensures WellFormed(At(t.pods, r)) && NearAgreement(t, r)
  {
    EvolvedWellFormed(At(s.pods, r), At(c.found, r));
    Visited(s, c, t, r, inScope);
    forall id | id in t.records && Tracked(t.records, r, id)
      ensures t.records.Keys == s.records.Keys && Tracked(s.records, r, id)
    {
      StillTracked(s, c, t, r, inScope, id);
    }
    hide RunnerOutcome, Follows, WellFormed, Runs;
    forall raw | raw in At(t.pods, r)
      ensures Tracked(t.records, r, At(t.pods, r)[raw].key) && IsUp(t.records[At(t.pods, r)[raw].key].status)
    {
      SurvivorTracked(s, c, t, r, raw);
    }
    forall id | id in t.records && Tracked(t.records, r, id) && IsUp(t.records[id].status)
      ensures Runs(At(t.pods, r), id)
    {
      UpRuns(s, c, t, r, id);
    }
  }

  /** From near agreement, an active record that a cycle leaves still has its workload. */
  lemma StillRuns(s: Snapshot, c: Cycle, t: Snapshot, r: Id, inScope: set<Id>, id: Id)
    requires r in Named(s.records) + inScope && Follows(s, c, t, r, inScope)
    requires WellFormed(At(c.found, r)) && NoOrphans(s, r)
    requires id in s.records && id in t.records && Tracked(s.records, r, id) && Tracked(t.records, r, id)
    ensures Runs(At(t.pods, r), id)
  {
    hide IsCondemned, Promoted, Unclassified, CycleOutcome;
    var found, after := At(c.found, r), At(t.pods, r);
    assert RunnerOutcome(r, c.up, s.records, t.records, c.found, t.pods, c.now, false)
    by {
      Visited(s, c, t, r, inScope);
    }
    assert Runs(found, id);
    var raw := RawOf(found, id);
    assert raw in At(s.pods, r) && At(s.pods, r)[raw].key == id;
    ReportedFate(s.records, r, id, raw, found, c.now);
    assert raw in after;
  }

  lemma TrackedNames(records: Ledger, r: Id, id: Id)
    ensures r != "" && id in records && Tracked(records, r, id) ==> r in Named(records)
  {
  }

  /** A runner near agreement that a cycle does not visit has neither workloads nor active records. */
  lemma NotVisited(s: Snapshot, c: Cycle, t: Snapshot, r: Id, inScope: set<Id>)
    requires r != "" && NearAgreement(s, r) && Follows(s, c, t, r, inScope)
    requires r !in Named(s.records) + inScope
    ensures Agreement(t, r)
  {
    hide RunnerOutcome;
    assert At(t.pods, r) == At(c.found, r);
    forall id | id in s.records ensures !Tracked(s.records, r, id) {
      TrackedNames(s.records, r, id);
    }
    assert forall raw :: raw !in At(s.pods, r);
    assert forall id :: id in t.records && t.records[id].runner == r ==> t.records[id] == s.records[id];
  }

  /** The next one reaches it, whether or not it still has a reason to visit r. */
  lemma NextCycle(s: Snapshot, c: Cycle, t: Snapshot, r: Id, inScope: set<Id>)
    requires r != "" && WellFormed(At(s.pods, r)) && NearAgreement(s, r) && Follows(s, c, t, r, inScope)
    ensures WellFormed(At(t.pods, r)) && Agreement(t, r)
  {
    EvolvedWellFormed(At(s.pods, r), At(c.found, r));
    if r in Named(s.records) + inScope {
      FirstCycle(s, c, t, r, inScope);
      forall id | id in t.records && Tracked(t.records, r, id) ensures Runs(At(t.pods, r), id) {
        assert t.records.Keys == s.records.Keys && Tracked(s.records, r, id)
        by {
          StillTracked(s, c, t, r, inScope, id);
        }
        hide Follows, NearAgreement, Runs;
        StillRuns(s, c, t, r, inScope, id);
      }
    } else {
      NotVisited(s, c, t, r, inScope);
      assert WellFormed(At(t.pods, r));
    }
  }

  lemma StillTracked(s: Snapshot, c: Cycle, t: Snapshot, r: Id, inScope: set<Id>, id: Id)
    requires WellFormed(At(c.found, r)) && Follows(s, c, t, r, inScope)
    requires id in t.records && Tracked(t.records, r, id)
    ensures t.records.Keys == s.records.Keys && Tracked(s.records, r, id)
  {
    if !(s.records[id].runner in Named(s.records) + inScope && Tracked(s.records, s.records[id].runner, id)) {
      assert t.records[id] == s.records[id];
    }
  }

  /** Two cycles reach agreement from any state, and no later cycle loses it. */
  lemma {:induction false} Convergence(run: seq<Snapshot>, cycles: seq<Cycle>, r: Id, inScope: set<Id>, k: nat)
    requires IsRun(run, cycles, r, inScope) && WellFormed(At(run[0].pods, r))
    requires r != "" && r in Named(run[0].records) + inScope
    requires 1 <= k < |run|
    ensures WellFormed(At(run[k].pods, r)) && NearAgreement(run[k], r)
    ensures k >= 2 ==> Agreement(run[k], r)
    decreases k
  {
    assert Follows(run[k - 1], cycles[k - 1], run[k - 1 + 1], r, inScope);
    if k == 1 {
      FirstCycle(run[0], cycles[0], run[1], r, inScope);
    } else {
      Convergence(run, cycles, r, inScope, k - 1);
      NextCycle(run[k - 1], cycles[k - 1], run[k], r, inScope);
    }
  }

  /**
   * At a cycle in which no call fails but lookups may: a healthy running record, whose runner is enrolled,
   * reachable and runs its workload, is failed exactly when the lookup of the runner failed. It then loses
   * its identity too, and the workload is left running.
   */
  lemma HealthyRecordLost(
    s: Snapshot, t: Snapshot, found: map<Id, Pods>, enrolled: set<Id>, listed: set<Id>, inScope: set<Id>, cut: set<Id>,
    known: set<Id>, silent: set<Id>, id: Id, r: Id, now: Time)
    requires silent <= Named(s.records) - listed
    requires forall other :: other in known <==> IsKnown(other, enrolled, listed, Named(s.records), silent)
    requires CycleOutcome(Named(s.records) + (enrolled * listed * inScope), known - cut, s.records, t.records, found,
      t.pods, now, false)
    requires Tracked(s.records, r, id) && s.records[id].status.Running? && r != "" && r in enrolled && r !in cut
    requires WellFormed(At(found, r)) && Runs(At(found, r), id)
    requires !IsCondemned(s.records[id], At(found, r)[RawOf(At(found, r), id)], now)
    ensures id in t.records && (t.records[id].status.Failed? <==> r in silent)
    ensures r !in silent ==> t.records[id].status.Running? && RawOf(At(found, r), id) in At(t.pods, r)
    ensures r in silent ==> At(t.pods, r) == At(found, r)
    ensures r in silent && s.records[id].ziti != "" ==>
      s.records[id].ziti in
        CycleForfeits(Named(s.records) + (enrolled * listed * inScope), known - cut, s.records, found, now)
  {
    TrackedNames(s.records, r, id);
    var scope, up := Named(s.records) + (enrolled * listed * inScope), known - cut;
    assert RunnerOutcome(r, up, s.records, t.records, found, t.pods, now, false);
    if r in silent {
      LostIdentity(s.records, found, scope, up, id, r, now);
    } else {
      ReportedFate(s.records, r, id, RawOf(At(found, r), id), At(found, r), now);
    }
  }

  /** A running record on a runner that does not count as up gives up its identity. */
  lemma LostIdentity(records: Ledger, pods: map<Id, Pods>, scope: set<Id>, up: set<Id>, id: Id, r: Id, now: Time)
    requires Tracked(records, r, id) && records[id].status.Running? && r in scope && r !in up
    ensures WellFormed(Effective(pods, r, up)) && After(id, records[id], Effective(pods, r, up), now).status.Failed?
    ensures records[id].ziti != "" ==> records[id].ziti in CycleForfeits(scope, up, records, pods, now)
  {
    assert !Runs(Effective(pods, r, up), id);
    if records[id].ziti != "" {
      assert id in TrackedIds(records, r) && TrackedIds(records, r) <= records.Keys;
      assert records[id].ziti in Forfeit(records[id], After(id, records[id], Effective(pods, r, up), now));
      assert records[id].ziti in Forfeits(records, TrackedIds(records, r), Effective(pods, r, up), now);
    }
  }

  /**
   * An enrolled, reachable runner that no organization with agents lists runs its one workload, whose
   * running record names it. The lookup of the runner fails, and no call does: the record is failed and
   * the identity goes, while the workload runs on.
   */
  lemma SilentLookupFails() returns (s: Snapshot, t: Snapshot)
    ensures s.records == map["w" := Workload("r", WorkloadStatus.Running, "x", Some(0), "z")]
    ensures s.pods == t.pods == map["r" := map["x" := Pod("w", true, true, None)]]
    ensures !IsKnown("r", {"r"}, {}, Named(s.records), {"r"}) && Named(s.records) == {"r"}
    ensures CycleOutcome({"r"}, {}, s.records, t.records, s.pods, t.pods, 1, false)
    ensures t.records["w"].status.Failed? && "z" in CycleForfeits({"r"}, {}, s.records, s.pods, 1)
  {
    var w := Workload("r", WorkloadStatus.Running, "x", Some(0), "z");
    s := Snapshot(map["w" := w], map["r" := map["x" := Pod("w", true, true, None)]]);
    t := Snapshot(map["w" := Missing(w)], s.pods);
    TrackedNames(s.records, "r", "w");
    assert !Runs(Effective(s.pods, "r", {}), "w");
    assert RunnerOutcome("r", {}, s.records, t.records, s.pods, t.pods, 1, false);
    LostIdentity(s.records, s.pods, {"r"}, {}, "w", "r", 1);
  }
}
