/** The start/stop diff of the agent loop (internal/reconciler/diff.go). */
module Diff {
  import opened Records

  /** A desired agent instance; its identifiers are already parsed. */
  datatype Target = Target(instance: Id, agent: Id)

  /**
   * An active workload record. A None identifier is one that does not parse. Two records are told
   * apart by their position in the list, as the source tells them apart by identity.
   */
  datatype Workload = Workload(
    instance: Option<Id>,
    agentClass: Option<Id>,
    hasMeta: bool,
    createdAt: Option<Time>,
    lastActivityAt: Option<Time>,
    status: WorkloadStatus)

  /** toStop holds positions in the list of actual workloads. */
  datatype Actions = Actions(toStart: seq<Target>, toStop: seq<nat>)

  /** When the workload last did something, or None when the record does not say. */
  function ActivityAt(w: Workload): Option<Time> {
    if !w.hasMeta then None
    else if w.lastActivityAt.Some? then w.lastActivityAt
    else w.createdAt
  }

  predicate Readable(w: Workload) {
    w.instance.Some? && ActivityAt(w).Some?
  }

  ghost predicate AllReadable(actual: seq<Workload>) {
    forall i :: 0 <= i < |actual| ==> Readable(actual[i])
  }

  /** i was active before j, or at the same time and comes first in the list. */
  ghost predicate Precedes(actual: seq<Workload>, i: nat, j: nat)
    requires i < |actual| && j < |actual|
  {
    && ActivityAt(actual[i]).Some? && ActivityAt(actual[j]).Some?
    && var own, other := ActivityAt(actual[i]).value, ActivityAt(actual[j]).value;
       own < other || (own == other && i < j)
  }

  /** Among the first n workloads, i is the first one of minimal activity time for its instance. */
  ghost predicate SurvivorAmong(actual: seq<Workload>, n: nat, i: nat)
    requires n <= |actual|
  {
    && i < n
    && forall j: nat :: j < n && j != i && actual[j].instance == actual[i].instance ==> Precedes(actual, i, j)
  }

  ghost predicate Survivor(actual: seq<Workload>, i: nat) {
    SurvivorAmong(actual, |actual|, i)
  }

  ghost predicate Desired(desired: seq<Target>, instance: Id) {
    exists t :: t in desired && t.instance == instance
  }

  /** An undesired survivor is stopped when it is already stopping or has been idle for too long. */
  ghost predicate StopsSurvivor(w: Workload, desired: seq<Target>, idleTimeouts: map<Id, Time>, fallback: Time,
    now: Time)
    requires Readable(w)
  {
    && !Desired(desired, w.instance.value)
    && (w.status.Stopping? ||
        (w.agentClass.Some? &&
         now - ActivityAt(w).value >
         if w.agentClass.value in idleTimeouts then idleTimeouts[w.agentClass.value] else fallback))
  }

  ghost predicate MustStop(
    i: nat, desired: seq<Target>, actual: seq<Workload>, idleTimeouts: map<Id, Time>, fallback: Time, now: Time)
    requires AllReadable(actual) && i < |actual|
  {
    || !Survivor(actual, i)
    || StopsSurvivor(actual[i], desired, idleTimeouts, fallback, now)
  }

  ghost predicate Runs(actual: seq<Workload>, instance: Id) {
    exists w :: w in actual && w.instance == Some(instance)
  }

  /** The desired targets with no workload, in the order they were given. */
  ghost function Unstarted(desired: seq<Target>, actual: seq<Workload>): seq<Target> {
    if desired == [] then []
    else
      var last := |desired| - 1;
      Unstarted(desired[..last], actual) + if Runs(actual, desired[last].instance) then [] else [desired[last]]
  }

  ghost predicate Distinct<T>(s: seq<T>) {
    forall i, j :: 0 <= i < j < |s| ==> s[i] != s[j]
  }

  lemma DistinctAppend<T>(s: seq<T>, x: T)
    requires Distinct(s) && x !in s
    ensures Distinct(s + [x])
  {
    forall i, j | 0 <= i < j < |s| + 1 ensures (s + [x])[i] != (s + [x])[j] {
      assert (s + [x])[i] == s[i];
    }
  }

  lemma NonEmptyHasElement<T>(s: seq<T>)
    ensures s != [] ==> exists x :: x in s
  {
    if s != [] { assert s[0] in s; }
  }

  ghost predicate DistinctInstances(desired: seq<Target>) {
    forall i, j :: 0 <= i < j < |desired| ==> desired[i].instance != desired[j].instance
  }

  /** Exactly the right starts, and every workload that must stop exactly once. */
  ghost predicate IsPlan(
    plan: Actions, desired: seq<Target>, actual: seq<Workload>, idleTimeouts: map<Id, Time>, fallback: Time, now: Time)
    requires AllReadable(actual)
  {
    && plan.toStart == Unstarted(desired, actual)
    && Distinct(plan.toStop)
    && (forall i :: i in plan.toStop ==> i < |actual|)
    && (forall i: nat :: i < |actual| ==> (i in plan.toStop <==> MustStop(i, desired, actual, idleTimeouts, fallback,
        now)))
  }

  /** The whole diff is refused because some record it has to read is malformed. */
  ghost predicate Refused(desired: seq<Target>, actual: seq<Workload>) {
    || !AllReadable(actual)
    || (exists i: nat :: i < |actual| && Survivor(actual, i) && !Desired(desired, actual[i].instance.value)
                         && !actual[i].status.Stopping? && actual[i].agentClass.None?)
  }

  /** kept[instance] is the survivor among the first n workloads, and dropped holds the others. */
  ghost predicate Deduplicated(actual: seq<Workload>, n: nat, kept: map<Id, nat>, dropped: seq<nat>)
    requires n <= |actual|
  {
    && (forall i :: 0 <= i < n ==> Readable(actual[i]))
    && (forall id :: id in kept ==>
          kept[id] < n && actual[kept[id]].instance == Some(id) && SurvivorAmong(actual, n, kept[id]))
    && (forall i :: 0 <= i < n ==> actual[i].instance.value in kept)
    && Distinct(dropped)
    && (forall i :: i in dropped ==> i < n)
    && (forall i: nat :: i < n ==> (i in dropped <==> i != kept[actual[i].instance.value]))
  }

  lemma SurvivorUnique(actual: seq<Workload>, i: nat, j: nat)
    requires Survivor(actual, i) && Survivor(actual, j)
    requires actual[i].instance == actual[j].instance
    ensures i == j
  {
  }

  /** One round of the loop below: workload n is the first of its instance, takes over, or is dropped. */
  lemma DeduplicateStep(actual: seq<Workload>, n: nat, kept: map<Id, nat>, dropped: seq<nat>)
    requires n < |actual| && Readable(actual[n]) && Deduplicated(actual, n, kept, dropped)
    ensures
      var id := actual[n].instance.value;
      if id !in kept then Deduplicated(actual, n + 1, kept[id := n], dropped)
      else if Precedes(actual, n, kept[id]) then Deduplicated(actual, n + 1, kept[id := n], dropped + [kept[id]])
      else Deduplicated(actual, n + 1, kept, dropped + [n])
  {
    var id := actual[n].instance.value;
    if id in kept {
      DistinctAppend(dropped, kept[id]);
      DistinctAppend(dropped, n);
    }
  }

  /** The second loop of the diff: one survivor per instance, everything else dropped. */
  method Deduplicate(actual: seq<Workload>) returns (ok: bool, kept: map<Id, nat>, dropped: seq<nat>)
    ensures ok <==> AllReadable(actual)
    ensures ok ==> Deduplicated(actual, |actual|, kept, dropped)
  {
    kept, dropped := map[], [];
    for k := 0 to |actual|
      invariant Deduplicated(actual, k, kept, dropped)
    {
      var workload := actual[k];
      var activityAt := ActivityAt(workload);
      if workload.instance.None? || activityAt.None? {
        return false, kept, dropped;
      }
      var id := workload.instance.value;
      DeduplicateStep(actual, k, kept, dropped);
      if id in kept {
        if activityAt.value < ActivityAt(actual[kept[id]]).value {
          dropped := dropped + [kept[id]];
          kept := kept[id := k];
        } else {
          dropped := dropped + [k];
        }
      } else {
        kept := kept[id := k];
      }
    }
    ok := true;
  }

  /** The last loop of the diff: the undesired survivors that are stopping or idle. */
  method StopUndesired(
    desired: seq<Target>, desiredSet: set<Id>, actual: seq<Workload>, kept: map<Id, nat>, dropped: seq<nat>,
    idleTimeouts: map<Id, Time>, fallback: Time, now: Time)
    returns (ok: bool, toStop: seq<nat>)
    requires AllReadable(actual) && Deduplicated(actual, |actual|, kept, dropped)
    requires forall id :: id in desiredSet <==> Desired(desired, id)
    ensures !ok <==> Refused(desired, actual)
    ensures ok ==> Distinct(toStop) && forall i :: i in toStop ==> i < |actual|
    ensures ok ==> forall i: nat :: i < |actual| ==>
      (i in toStop <==> MustStop(i, desired, actual, idleTimeouts, fallback, now))
  {
    toStop := dropped;
    var rest := kept.Keys; // which entry comes next is up to the map's iteration order
    while rest != {}
      invariant rest <= kept.Keys
      invariant Distinct(toStop)
      invariant forall i :: i in toStop ==> i < |actual|
      invariant forall i: nat :: i < |actual| ==>
        (i in toStop <==>
          kept[actual[i].instance.value] != i ||
          (actual[i].instance.value !in rest && StopsSurvivor(actual[i], desired, idleTimeouts, fallback, now)))
      invariant forall id :: id in kept.Keys - rest ==>
        (Desired(desired, id) || actual[kept[id]].status.Stopping? || actual[kept[id]].agentClass.Some?)
      decreases |rest|
    {
      var id :| id in rest;
      rest := rest - {id};
      if id !in desiredSet {
        var workload := actual[kept[id]];
        if !workload.status.Stopping? {
          if workload.agentClass.None? {
            return false, toStop;
          }
          var idle :=
            if workload.agentClass.value in idleTimeouts then idleTimeouts[workload.agentClass.value] else fallback;
          if now - ActivityAt(workload).value <= idle {
            continue;
          }
        }
        DistinctAppend(toStop, kept[id]);
        toStop := toStop + [kept[id]];
      }
    }
    SurvivorsAreKept(actual, kept, dropped);
    ok := true;
  }

  lemma SurvivorsAreKept(actual: seq<Workload>, kept: map<Id, nat>, dropped: seq<nat>)
    requires AllReadable(actual) && Deduplicated(actual, |actual|, kept, dropped)
    ensures forall i: nat :: i < |actual| ==> (Survivor(actual, i) <==> kept[actual[i].instance.value] == i)
  {
    forall i: nat | i < |actual| && Survivor(actual, i)
      ensures kept[actual[i].instance.value] == i
    {
      SurvivorUnique(actual, i, kept[actual[i].instance.value]);
    }
  }

  method ComputeActions(
    desired: seq<Target>, actual: seq<Workload>, idleTimeouts: map<Id, Time>, fallback: Time, now: Time)
    returns (result: Result<Actions>)
    ensures result.Err? <==> Refused(desired, actual)
    ensures result.Ok? ==> AllReadable(actual) && IsPlan(result.value, desired, actual, idleTimeouts, fallback, now)
  {
    var desiredSet: set<Id> := {};
    for k := 0 to |desired|
      invariant forall id :: id in desiredSet <==> Desired(desired[..k], id)
    {
      assert desired[..k + 1] == desired[..k] + [desired[k]];
      desiredSet := desiredSet + {desired[k].instance};
    }
    assert desired[..|desired|] == desired;
    var readable, kept, dropped := Deduplicate(actual);
    if !readable {
      return Err;
    }
    var toStart: seq<Target> := [];
    for k := 0 to |desired|
      invariant toStart == Unstarted(desired[..k], actual)
    {
      assert desired[..k + 1][..k] == desired[..k];
      assert desired[k].instance in kept <==> Runs(actual, desired[k].instance);
      if desired[k].instance !in kept {
        toStart := toStart + [desired[k]];
      }
    }
    var ok, toStop := StopUndesired(desired, desiredSet, actual, kept, dropped, idleTimeouts, fallback, now);
    if !ok {
      return Err;
    }
    return Ok(Actions(toStart, toStop));
  }

  /** Where a workload of the next cycle comes from: kept from this one, or started for a target. */
  datatype Origin = Kept(i: nat) | Started(k: nat)

  /**
   * next is what the active workloads are once the plan has been carried out: every workload that
   * was not stopped, and one readable workload per started target, in any order.
   */
  ghost predicate Applied(plan: Actions, actual: seq<Workload>, next: seq<Workload>, origin: seq<Origin>) {
    && |origin| == |next|
    && Distinct(origin)
    && (forall i: nat :: i < |actual| && i !in plan.toStop ==> Kept(i) in origin)
    && (forall k: nat :: k < |plan.toStart| ==> Started(k) in origin)
    && (forall j :: 0 <= j < |next| ==>
          match origin[j]
          case Kept(i) => i < |actual| && i !in plan.toStop && next[j] == actual[i]
          case Started(k) =>
            k < |plan.toStart| && Readable(next[j]) && next[j].instance == Some(plan.toStart[k].instance))
  }

  lemma {:induction false} UnstartedExact(desired: seq<Target>, actual: seq<Workload>)
    ensures forall t :: t in Unstarted(desired, actual) <==> t in desired && !Runs(actual, t.instance)
    ensures DistinctInstances(desired) ==> DistinctInstances(Unstarted(desired, actual))
  {
    if desired != [] {
      var init := desired[..|desired| - 1];
      UnstartedExact(init, actual);
      assert desired == init + [desired[|desired| - 1]];
      if DistinctInstances(desired) {
        assert DistinctInstances(init) by {
          forall i, j | 0 <= i < j < |init| ensures init[i].instance != init[j].instance {
            assert init[i] == desired[i] && init[j] == desired[j];
          }
        }
      }
    }
  }

  /** No two workloads of the next cycle serve the same instance. */
  lemma AppliedIsInjective(
    plan: Actions, desired: seq<Target>, actual: seq<Workload>, idleTimeouts: map<Id, Time>, fallback: Time, now: Time,
    next: seq<Workload>, origin: seq<Origin>, a: nat, b: nat)
    requires AllReadable(actual) && DistinctInstances(desired)
    requires IsPlan(plan, desired, actual, idleTimeouts, fallback, now)
    requires Applied(plan, actual, next, origin)
    requires a < |next| && b < |next| && next[a].instance == next[b].instance
    ensures a == b
  {
    UnstartedExact(desired, actual);
    forall k: nat, i: nat | k < |plan.toStart| && i < |actual|
      ensures actual[i].instance != Some(plan.toStart[k].instance)
    {
      assert plan.toStart[k] in plan.toStart;
      assert actual[i] in actual;
    }
    if origin[a].Kept? && origin[b].Kept? {
      SurvivorUnique(actual, origin[a].i, origin[b].i);
    }
    assert origin[a] == origin[b];
  }

  /**
   * Once a plan has been carried out, the diff of the next cycle at the same instant is not
   * refused for a new reason, and the only plan left is to do nothing.
   */
  lemma Fixpoint(
    plan: Actions, desired: seq<Target>, actual: seq<Workload>, idleTimeouts: map<Id, Time>, fallback: Time, now: Time,
    next: seq<Workload>, origin: seq<Origin>, again: Actions)
    requires AllReadable(actual) && DistinctInstances(desired)
    requires IsPlan(plan, desired, actual, idleTimeouts, fallback, now)
    requires Applied(plan, actual, next, origin)
    ensures AllReadable(next) && (Refused(desired, next) ==> Refused(desired, actual))
    ensures IsPlan(again, desired, next, idleTimeouts, fallback, now) <==> again == Actions([], [])
  {
    assert AllReadable(next);
    UnstartedExact(desired, actual);
    forall j: nat | j < |next|
      ensures Survivor(next, j) && !StopsSurvivor(next[j], desired, idleTimeouts, fallback, now)
      ensures !Desired(desired, next[j].instance.value) ==> origin[j].Kept? && Survivor(actual, origin[j].i)
    {
      forall m: nat | m < |next| && next[m].instance == next[j].instance ensures m == j {
        AppliedIsInjective(plan, desired, actual, idleTimeouts, fallback, now, next, origin, m, j);
      }
      if origin[j].Started? {
        assert plan.toStart[origin[j].k] in desired;
      }
    }
    forall t | t in desired ensures Runs(next, t.instance) {
      StillServed(plan, desired, actual, idleTimeouts, fallback, now, next, origin, t);
    }
    UnstartedEmpty(desired, next);
    NonEmptyHasElement(again.toStop);
  }

  /** A desired instance has a workload in the next cycle. */
  lemma StillServed(
    plan: Actions, desired: seq<Target>, actual: seq<Workload>, idleTimeouts: map<Id, Time>, fallback: Time, now: Time,
    next: seq<Workload>, origin: seq<Origin>, t: Target)
    requires AllReadable(actual) && t in desired
    requires IsPlan(plan, desired, actual, idleTimeouts, fallback, now)
    requires Applied(plan, actual, next, origin)
    ensures Runs(next, t.instance)
  {
    UnstartedExact(desired, actual);
    if Runs(actual, t.instance) {
      var i := SurvivorOf(actual, t.instance);
      assert Desired(desired, t.instance);
      assert Kept(i) in origin;
      var j :| 0 <= j < |origin| && origin[j] == Kept(i);
      assert next[j] in next;
    } else {
      assert t in plan.toStart;
      var k: nat :| k < |plan.toStart| && plan.toStart[k] == t;
      assert Started(k) in origin;
      var j :| 0 <= j < |origin| && origin[j] == Started(k);
      assert next[j] in next;
    }
  }

  lemma UnstartedEmpty(desired: seq<Target>, actual: seq<Workload>)
    requires forall t :: t in desired ==> Runs(actual, t.instance)
    ensures Unstarted(desired, actual) == []
  {
    if desired != [] { UnstartedEmpty(desired[..|desired| - 1], actual); }
  }

  /** Every instance that has a workload has a survivor. */
  lemma SurvivorOf(actual: seq<Workload>, instance: Id) returns (i: nat)
    requires AllReadable(actual) && Runs(actual, instance)
    ensures i < |actual| && Survivor(actual, i) && actual[i].instance == Some(instance)
  {
    i :| i < |actual| && actual[i].instance == Some(instance);
    for k := 0 to |actual|
      invariant i < |actual| && actual[i].instance == Some(instance)
      invariant forall j: nat :: j < k && j != i && actual[j].instance == Some(instance) ==> Precedes(actual, i, j)
    {
      if k != i && actual[k].instance == Some(instance) && Precedes(actual, k, i) { i := k; }
    }
  }

  /** The workload says that it was active at an instant: by its last activity or, having none, by its creation. */
  predicate SaysActiveAt(w: Workload, at: Time) {
    w.hasMeta && if w.lastActivityAt.Some? then w.lastActivityAt.value == at else w.createdAt == Some(at)
  }

  /** A workload that does not parse, has no meta or says no instant refuses the whole diff. */
  lemma RefusedUnread(desired: seq<Target>, actual: seq<Workload>, i: nat)
    requires i < |actual|
    ensures actual[i].instance.None? || (forall at :: !SaysActiveAt(actual[i], at)) ==> Refused(desired, actual)
  {
    if AllReadable(actual) {
      assert Readable(actual[i]) && SaysActiveAt(actual[i], ActivityAt(actual[i]).value);
    }
  }

  /** Another workload of the instance was active earlier, or comes first in the list. */
  ghost predicate IsSurpassed(actual: seq<Workload>, i: nat, at: Time)
    requires i < |actual|
  {
    exists j: nat, earlier :: IsEarlier(actual, i, at, j, earlier)
  }

  predicate IsEarlier(actual: seq<Workload>, i: nat, at: Time, j: nat, earlier: Time)
    requires i < |actual|
  {
    && j < |actual| && actual[j].instance == actual[i].instance && SaysActiveAt(actual[j], earlier)
    && (earlier < at || (earlier == at && j < i))
  }

  /**
   * Stops by the instants the workloads say, created ones counting only where there is no last activity. Of two
   * workloads of an instance the one active later goes, or the later in the list; an undesired workload
   * that survives goes when it is stopping, or has been idle beyond its timeout.
   */
  lemma StopsByInstant(
    plan: Actions, desired: seq<Target>, actual: seq<Workload>, idleTimeouts: map<Id, Time>, fallback: Time, now: Time,
    i: nat, at: Time)
    requires AllReadable(actual) && IsPlan(plan, desired, actual, idleTimeouts, fallback, now)
    requires i < |actual| && SaysActiveAt(actual[i], at)
    ensures IsSurpassed(actual, i, at) ==> i in plan.toStop
    ensures !IsSurpassed(actual, i, at) ==>
      var w := actual[i];
      var timeout :=
        if w.agentClass.Some? && w.agentClass.value in idleTimeouts then idleTimeouts[w.agentClass.value] else fallback;
      (i in plan.toStop <==>
        && (forall t :: t in desired ==> t.instance != w.instance.value)
        && (w.status.Stopping? || (w.agentClass.Some? && now > at + timeout)))
  {
    assert ActivityAt(actual[i]) == Some(at);
    if IsSurpassed(actual, i, at) {
      var j: nat, earlier :| IsEarlier(actual, i, at, j, earlier);
      assert !Precedes(actual, i, j);
    } else {
      forall j: nat | j < |actual| && j != i && actual[j].instance == actual[i].instance
        ensures Precedes(actual, i, j)
      {
        assert Readable(actual[j]) && SaysActiveAt(actual[j], ActivityAt(actual[j]).value);
        assert !IsEarlier(actual, i, at, j, ActivityAt(actual[j]).value);
      }
    }
  }
}
