/**
 * The sweep of identities that no active workload refers to (internal/reconciler/orphan.go), and
 * the timing that keeps it away from identities whose workload record is still being written.
 */
module IdentitySweep {
  import opened Records

  const CREATE_GRACE: Time := 60 * SECOND
  const RECONCILE_TIMEOUT: Time := 30 * SECOND

  datatype Identity = Identity(id: Id, createdAt: Option<Time>)

  /** An identity of unknown age is never within the grace period. */
  predicate IsWithinGrace(identity: Identity, now: Time) {
    identity.createdAt.Some? && now - identity.createdAt.value < CREATE_GRACE
  }

  predicate IsOrphan(identity: Identity, active: set<Id>, now: Time) {
    identity.id !in active && !IsWithinGrace(identity, now)
  }

  /** A page of the listing, as the service answers; None is a failed call, or within a page a nil identity. */
  type Page = Option<seq<Option<Identity>>>

  predicate IsReadable(entry: Option<Identity>) {
    entry.Some? && entry.value.id != ""
  }

  /** The entries of a page up to the first that cannot be read. */
  function ReadablePart(entries: seq<Option<Identity>>): seq<Identity> {
    if entries == [] || !IsReadable(entries[0]) then [] else [entries[0].value] + ReadablePart(entries[1..])
  }

  predicate AllReadable(entries: seq<Option<Identity>>) {
    forall i :: 0 <= i < |entries| ==> IsReadable(entries[i])
  }

  /** What the sweep gets to read from page k on: everything before the first failure. */
  function ReachedFrom(pages: seq<Page>, k: nat): seq<Identity>
    decreases |pages| - k
  {
    if k >= |pages| || pages[k].None? then []
    else ReadablePart(pages[k].value) + if AllReadable(pages[k].value) then ReachedFrom(pages, k + 1) else []
  }

  function Reached(pages: seq<Page>): seq<Identity> {
    ReachedFrom(pages, 0)
  }

  predicate IsRead(page: Page) {
    page.Some? && AllReadable(page.value)
  }

  predicate AllRead(pages: seq<Page>) {
    forall k :: 0 <= k < |pages| ==> IsRead(pages[k])
  }

  /** The orphans among the identities, in order. */
  function Orphans(identities: seq<Identity>, active: set<Id>, now: Time): seq<Id> {
    if identities == [] then []
    else
      var first := if IsOrphan(identities[0], active, now) then [identities[0].id] else [];
      first + Orphans(identities[1..], active, now)
  }

  class IdentityStore {
    var live: set<Id>
    ghost var attempts: seq<Id>   // deletions asked for
    ghost var failures: nat       // deletions that failed

    method DeleteIdentity(id: Id) returns (ok: bool)
      modifies this
      ensures attempts == old(attempts) + [id]
      ensures live == if ok then old(live) - {id} else old(live)
      ensures failures == old(failures) + if ok then 0 else 1
    {
      attempts := attempts + [id];
      ok := *;
      if ok {
        live := live - {id};
      } else {
        failures := failures + 1;
      }
    }

    method SweepPage(entries: seq<Option<Identity>>, active: set<Id>, now: Time) returns (read: bool, failed: bool)
      modifies this
      ensures read <==> AllReadable(entries)
      ensures attempts == old(attempts) + Orphans(ReadablePart(entries), active, now)
      ensures failures >= old(failures) && (failed <==> failures > old(failures))
      ensures Swept(old(live), live, Orphans(ReadablePart(entries), active, now), failures > old(failures))
    {
      ghost var before, base := live, failures;
      ghost var done: seq<Id> := [];
      failed := false;
      hide Swept;
      SweptNone(live);
      for k := 0 to |entries|
        invariant forall j :: 0 <= j < k ==> IsReadable(entries[j])
        invariant Orphans(ReadablePart(entries), active, now) == done + Orphans(ReadablePart(entries[k..]), active, now)
        invariant failures >= base && (failed <==> failures > base)
        invariant attempts == old(attempts) + done && Swept(before, live, done, failures > base)
      {
        assert entries[k..][0] == entries[k] && entries[k..][1..] == entries[k + 1..];
        if entries[k].None? || entries[k].value.id == "" {
          assert done + [] == done;
          return false, failed;
        }
        var identity := entries[k].value;
        ghost var rest := ReadablePart(entries[k + 1..]);
        assert ([identity] + rest)[1..] == rest;
        if identity.id in active || IsWithinGrace(identity, now) {
          continue;
        }
        ghost var mid, earlier := live, failures;
        var ok := DeleteIdentity(identity.id);
        failed := failed || !ok;
        SweptOne(mid, live, identity.id, ok);
        SweptMore(before, mid, live, done, [identity.id], earlier > base, !ok);
        done := done + [identity.id];
      }
      assert done + [] == done;
      read := true;
    }

    /** One more page, after those whose orphans are done. */
    method SweepNext(entries: seq<Option<Identity>>, active: set<Id>, now: Time, ghost before: set<Id>,
        ghost done: seq<Id>, ghost base: nat)
      returns (read: bool, failed: bool)
      requires base <= failures && Swept(before, live, done, failures > base)
      modifies this
      ensures read <==> AllReadable(entries)
      ensures attempts == old(attempts) + Orphans(ReadablePart(entries), active, now)
      ensures failures >= old(failures) && (failed <==> failures > old(failures))
      ensures Swept(before, live, done + Orphans(ReadablePart(entries), active, now), failures > base)
    {
      ghost var mid, more, earlier := live, Orphans(ReadablePart(entries), active, now), failures;
      read, failed := SweepPage(entries, active, now);
      SweptMore(before, mid, live, done, more, earlier > base, failures > earlier);
    }

    /**
     * Every identity that the sweep reads, that is not active and is older than the grace period is asked
     * to be deleted, once for each time it is listed and whether or not earlier deletions fail. The sweep
     * succeeds exactly when everything could be read and every deletion succeeded.
     */
    method SweepOrphanIdentities(pages: seq<Page>, active: set<Id>, now: Time) returns (ok: bool)
      modifies this
      ensures attempts == old(attempts) + Orphans(Reached(pages), active, now)
      ensures ok <==> AllRead(pages) && failures == old(failures)
      ensures Swept(old(live), live, Orphans(Reached(pages), active, now), failures > old(failures))
    {
      ghost var before, base := live, failures;
      ghost var done: seq<Id> := [];
      var deleteFailed := false;
      SweptNone(live);
      hide Swept, Orphans;
      for k := 0 to |pages|
        invariant forall j :: 0 <= j < k ==> IsRead(pages[j])
        invariant failures >= base && (deleteFailed <==> failures > base)
        invariant IsRest(done, pages, k, active, now)
        invariant attempts == old(attempts) + done && Swept(before, live, done, failures > base)
      {
        NextPage(done, pages, k, active, now);
        if pages[k].None? {
          assert !IsRead(pages[k]);
          return false;
        }
        var entries := pages[k].value;
        var read, failed := SweepNext(entries, active, now, before, done, base);
        deleteFailed := deleteFailed || failed;
        done := done + Orphans(ReadablePart(entries), active, now);
        if !read {
          assert !IsRead(pages[k]);
          return false;
        }
        assert IsRead(pages[k]);
      }
      NoPageLeft(done, pages, active, now);
      ok := !deleteFailed;
    }
  }

  /** What is done and what the pages from k on still hold make up the whole. */
  ghost predicate IsRest(done: seq<Id>, pages: seq<Page>, k: nat, active: set<Id>, now: Time) {
    Orphans(Reached(pages), active, now) == done + Orphans(ReachedFrom(pages, k), active, now)
  }

  lemma NoPageLeft(done: seq<Id>, pages: seq<Page>, active: set<Id>, now: Time)
    requires IsRest(done, pages, |pages|, active, now)
    ensures Orphans(Reached(pages), active, now) == done
  {
    assert done + [] == done;
  }

  lemma NextPage(done: seq<Id>, pages: seq<Page>, k: nat, active: set<Id>, now: Time)
    requires k < |pages| && IsRest(done, pages, k, active, now)
    ensures pages[k].None? ==> Orphans(Reached(pages), active, now) == done
    ensures pages[k].Some? ==>
      var more := done + Orphans(ReadablePart(pages[k].value), active, now);
      if AllReadable(pages[k].value) then IsRest(more, pages, k + 1, active, now)
      else Orphans(Reached(pages), active, now) == more
  {
    if pages[k].Some? {
      var rest := if AllReadable(pages[k].value) then ReachedFrom(pages, k + 1) else [];
      OrphansConcat(ReadablePart(pages[k].value), rest, active, now);
    }
  }

  /** Only what was asked to be deleted is gone, and all of it unless a deletion failed. */
  ghost predicate Swept(before: set<Id>, after: set<Id>, asked: seq<Id>, faulty: bool) {
    && after <= before && (forall id :: id in before && id !in asked ==> id in after)
    && (!faulty ==> forall id :: id in asked ==> id !in after)
  }

  lemma SweptNone(live: set<Id>)
    ensures Swept(live, live, [], false)
  {
  }

  lemma SweptOne(before: set<Id>, after: set<Id>, id: Id, ok: bool)
    requires after == if ok then before - {id} else before
    ensures Swept(before, after, [id], !ok)
  {
  }

  lemma SweptMore(before: set<Id>, mid: set<Id>, after: set<Id>, asked: seq<Id>, more: seq<Id>, earlier: bool,
      later: bool)
    requires Swept(before, mid, asked, earlier) && Swept(mid, after, more, later)
    ensures Swept(before, after, asked + more, earlier || later)
  {
  }

  lemma {:induction false} OrphansConcat(a: seq<Identity>, b: seq<Identity>, active: set<Id>, now: Time)
    ensures Orphans(a + b, active, now) == Orphans(a, active, now) + Orphans(b, active, now)
    decreases |a|
  {
    if a == [] {
      assert a + b == b;
    } else {
      assert (a + b)[1..] == a[1..] + b;
      OrphansConcat(a[1..], b, active, now);
    }
  }

  /** No active workload has it, and it was created a minute ago or longer, or nobody knows when. */
  predicate IsUnprotected(identity: Identity, active: set<Id>, now: Time) {
    identity.id !in active
    && match identity.createdAt
       case None => true
       case Some(createdAt) => now >= createdAt + 60 * SECOND
  }

  /** Exactly the identities that nothing protects are swept. */
  lemma {:induction false} OrphansExact(identities: seq<Identity>, active: set<Id>, now: Time, id: Id)
    ensures id in Orphans(identities, active, now) <==>
      exists i :: 0 <= i < |identities| && identities[i].id == id && IsUnprotected(identities[i], active, now)
    decreases |identities|
  {
    if identities != [] {
      OrphansExact(identities[1..], active, now, id);
      if id in Orphans(identities[1..], active, now) {
        var i :| 0 <= i < |identities| - 1 && identities[1..][i].id == id
          && IsUnprotected(identities[1..][i], active, now);
        assert identities[i + 1].id == id && IsUnprotected(identities[i + 1], active, now);
      }
      assert forall i :: 0 < i < |identities| ==> identities[i] == identities[1..][i - 1];
    }
  }

  /* The timing of the sweep. */

  /** A listing of the active records: when it was made, what it holds, and what is not in its scope. */
  datatype Listing = Listing(at: Time, seen: set<Id>, missed: set<Id>)

  /** A sweep under way: its idea of now, its listing, and the end of its cycle. */
  datatype Sweep = Sweep(now: Option<Time>, listing: Option<Listing>, deadline: Time)

  /**
   * How a sweep is ordered. The identities of agents are minted by the loop that sweeps them: starts are over
   * when it lists the records, but only of organizations with agents, and then it reads the clock. Those of
   * sandboxes are minted by another loop; the clock is read before the records are listed, of whatever
   * organization. AnyOrder promises neither order.
   */
  datatype Kind = Agents | Sandboxes | AnyOrder

  /**
   * Every identity ever minted has a mint time and the deadline of the cycle that minted it. Its workload
   * record is pending until it is written or given up, then active until it ends; revived are the ones
   * that a late write has made active again.
   */
  datatype State = State(
    clock: Time, minted: map<Id, Time>, deadline: map<Id, Time>, live: set<Id>, pending: set<Id>, active: set<Id>,
    ended: set<Id>, revived: set<Id>, sweep: Option<Sweep>)

  function Initial(clock: Time): State {
    State(clock, map[], map[], {}, {}, {}, {}, {}, None)
  }

  /** The bounds: of a cycle that starts workloads, of a cycle that sweeps, and the grace period. */
  datatype Bounds = Bounds(start: Time, sweep: Time, grace: Time)

  datatype Event =
    | Tick(to: Time)
    | Mint(id: Id, cycleStart: Time)
    | Record(id: Id)
    | GiveUp(id: Id)             // the start fails, and its identity may be deleted
    | End(id: Id)                // the record takes a terminal status
    | Revive(id: Id)             // a loop that does not know makes it active again
    | Retire(id: Id)             // the identity of a workload that has ended is deleted
    | Begin(cycleStart: Time)    // a sweep begins
    | List(missed: set<Id>)      // it lists the active records but for those out of scope
    | ReadClock                  // it takes its now
    | Delete(id: Id)             // it deletes an identity
    | Finish                     // it is over

  /** What the order of a sweep asks of an event. */
  predicate IsInOrder(kind: Kind, s: State, e: Event) {
    match kind
    case Agents =>
      && (e.Mint? ==> s.sweep.None? && s.pending == {})
      && (e.Begin? ==> s.pending == {})
      && (e.ReadClock? ==> s.sweep.Some? && s.sweep.value.listing.Some?)
    case Sandboxes =>
      && (e.Mint? ==> s.pending == {})
      && (e.List? ==> s.sweep.Some? && s.sweep.value.now.Some? && e.missed == {})
    case AnyOrder => e.List? ==> e.missed == {}
  }

  ghost predicate Step(kind: Kind, b: Bounds, s: State, e: Event, t: State) {
    && IsInOrder(kind, s, e)
    && match e
       case Tick(to) => s.clock <= to && t == s.(clock := to)
       case Mint(id, cycleStart) =>
         && id !in s.minted && cycleStart <= s.clock < cycleStart + b.start
         && t == s.(minted := s.minted[id := s.clock], deadline := s.deadline[id := cycleStart + b.start],
                    live := s.live + {id}, pending := s.pending + {id})
       case Record(id) =>
         && id in s.pending && id in s.deadline && s.clock < s.deadline[id]
         && t == s.(pending := s.pending - {id}, active := s.active + {id})
       case GiveUp(id) =>
         && id in s.pending && t.live in {s.live, s.live - {id}}
         && t == s.(pending := s.pending - {id}, live := t.live)
       case End(id) =>
         && id in s.active
         && t == s.(active := s.active - {id}, ended := s.ended + {id}, revived := s.revived - {id})
       case Revive(id) =>
         && id in s.ended && id !in s.active
         && t == s.(active := s.active + {id}, revived := s.revived + {id})
       case Retire(id) =>
         id in s.minted && id !in s.pending && (id in s.active ==> id in s.ended) && t == s.(live := s.live - {id})
       case Begin(cycleStart) =>
         && s.sweep.None? && cycleStart <= s.clock < cycleStart + b.sweep
         && t == s.(sweep := Some(Sweep(None, None, cycleStart + b.sweep)))
       case List(missed) =>
         && s.sweep.Some? && s.sweep.value.listing.None?
         && t == s.(sweep := Some(s.sweep.value.(listing := Some(Listing(s.clock, s.active - missed, missed)))))
       case ReadClock =>
         && s.sweep.Some? && s.sweep.value.now.None?
         && t == s.(sweep := Some(s.sweep.value.(now := Some(s.clock))))
       case Delete(id) =>
         && id in s.minted && MayDelete(b, s, s.minted[id], id) && t == s.(live := s.live - {id})
       case Finish => t == s.(sweep := None)
  }

  /** The sweep takes an identity minted then for an orphan. */
  predicate MayDelete(b: Bounds, s: State, minted: Time, id: Id) {
    && s.sweep.Some? && s.clock < s.sweep.value.deadline
    && s.sweep.value.listing.Some? && s.sweep.value.now.Some?
    && id !in s.sweep.value.listing.value.seen && s.sweep.value.now.value - minted >= b.grace
  }

  ghost predicate IsRun(kind: Kind, b: Bounds, run: seq<State>, events: seq<Event>) {
    && |run| == |events| + 1 && run[0] == Initial(run[0].clock)
    && forall k :: 0 <= k < |events| ==> Step(kind, b, run[k], events[k], run[k + 1])
  }

  /** The identity of every active workload is there. */
  predicate IsSafe(s: State) {
    s.active <= s.live
  }

  /** The grace period is long enough for a sweep of this kind. */
  predicate Covers(kind: Kind, b: Bounds) {
    match kind
    case Agents => true
    case Sandboxes => b.start - 1 < b.grace
    case AnyOrder => b.start >= 1 && b.sweep >= 1 && b.start + b.sweep - 2 < b.grace
  }

  /** The record has been active ever since it was written. */
  predicate IsSteady(s: State, id: Id) {
    id in s.active && id !in s.revived
  }

  /** What holds of identities and records. */
  ghost predicate IsConsistent(b: Bounds, s: State) {
    && s.minted.Keys == s.deadline.Keys && s.pending <= s.minted.Keys && s.active + s.ended <= s.minted.Keys
    && s.pending !! s.active + s.ended && s.revived <= s.active
    && (forall id :: IsSteady(s, id) ==> id !in s.ended && id in s.live)
    && (forall id :: id in s.minted ==> s.minted[id] <= s.clock && s.deadline[id] <= s.minted[id] + b.start)
    && (forall id :: id in s.pending && s.clock < s.deadline[id] ==> id in s.live)
  }

  ghost predicate Invariant(kind: Kind, b: Bounds, s: State) {
    IsConsistent(b, s) && (s.sweep.Some? ==> SweepInvariant(kind, b, s, s.sweep.value))
  }

  /** An active record in scope that the sweep has not seen was written after its listing, before its own deadline. */
  ghost predicate SweepInvariant(kind: Kind, b: Bounds, s: State, sweep: Sweep)
    requires s.minted.Keys == s.deadline.Keys && s.active <= s.minted.Keys
  {
    && (sweep.now.Some? ==> sweep.now.value <= s.clock) && sweep.deadline <= s.clock + b.sweep
    && (sweep.listing.Some? ==>
          var listing := sweep.listing.value;
          && listing.at <= s.clock && sweep.deadline <= listing.at + b.sweep
          && (forall id :: IsSteady(s, id) && id !in listing.seen + listing.missed ==> listing.at < s.deadline[id])
          && (kind.Agents? ==> forall id :: IsSteady(s, id) ==> id in listing.seen + listing.missed))
    && (kind.Agents? ==> s.pending == {})
    && (kind.Sandboxes? && sweep.listing.Some? ==> sweep.now.Some? && sweep.now.value <= sweep.listing.value.at)
  }

  /** A sweep leaves alone what is in scope and has been active all along, or is still to be written in time. */
  lemma DeletesOrphans(kind: Kind, b: Bounds, s: State, id: Id)
    requires Covers(kind, b) && Invariant(kind, b, s) && id in s.minted && MayDelete(b, s, s.minted[id], id)
    ensures IsSteady(s, id) ==> IsMissed(s, id)
    ensures !(id in s.pending && s.clock < s.deadline[id])
  {
  }

  /** The sweep under way has left the record out of its listing, as out of scope. */
  predicate IsMissed(s: State, id: Id) {
    s.sweep.Some? && s.sweep.value.listing.Some? && id in s.sweep.value.listing.value.missed
  }

  /**
   * The event does harm: a late write revives a record that has no identity, the identity of a revived one
   * is deleted, or the sweep deletes that of an active one out of its scope.
   */
  predicate IsHarm(s: State, e: Event) {
    || (e.Revive? && e.id !in s.live)
    || ((e.Retire? || e.Delete?) && e.id in s.revived)
    || (e.Delete? && e.id in s.active && IsMissed(s, e.id))
  }

  lemma StepKeepsConsistent(kind: Kind, b: Bounds, s: State, e: Event, t: State)
    requires Covers(kind, b) && Invariant(kind, b, s) && Step(kind, b, s, e, t) && !IsHarm(s, e)
    ensures IsConsistent(b, t)
  {
    if e.Delete? {
      DeletesOrphans(kind, b, s, e.id);
    }
    hide SweepInvariant;
    hide Covers;
    hide MayDelete;
    hide IsInOrder;
  }

  lemma StepKeepsInvariant(kind: Kind, b: Bounds, s: State, e: Event, t: State)
    requires Covers(kind, b) && Invariant(kind, b, s) && Step(kind, b, s, e, t) && !IsHarm(s, e)
    ensures Invariant(kind, b, t) && (IsSafe(s) ==> IsSafe(t))
  {
    if e.Delete? {
      DeletesOrphans(kind, b, s, e.id);
    }
    StepKeepsConsistent(kind, b, s, e, t);
    hide Covers;
    hide MayDelete;
  }

  lemma HarmIsUnsafe(kind: Kind, b: Bounds, s: State, e: Event, t: State)
    requires Invariant(kind, b, s) && Step(kind, b, s, e, t) && IsHarm(s, e)
    ensures !IsSafe(t)
  {
    assert e.id in t.active && e.id !in t.live;
  }

  lemma {:induction false} SafeUpTo(kind: Kind, b: Bounds, run: seq<State>, events: seq<Event>, k: nat)
    requires Covers(kind, b) && IsRun(kind, b, run, events) && k < |run|
    requires forall j :: 0 <= j < k ==> !IsHarm(run[j], events[j])
    ensures Invariant(kind, b, run[k]) && IsSafe(run[k])
    decreases k
  {
    if k > 0 {
      SafeUpTo(kind, b, run, events, k - 1);
      StepKeepsInvariant(kind, b, run[k - 1], events[k - 1], run[k - 1 + 1]);
    }
  }

  lemma {:induction false} HarmlessUpTo(kind: Kind, b: Bounds, run: seq<State>, events: seq<Event>, k: nat)
    requires Covers(kind, b) && IsRun(kind, b, run, events) && k <= |events|
    requires forall j :: 0 <= j < |run| ==> IsSafe(run[j])
    ensures forall j :: 0 <= j < k ==> !IsHarm(run[j], events[j])
    decreases k
  {
    if k > 0 {
      HarmlessUpTo(kind, b, run, events, k - 1);
      SafeUpTo(kind, b, run, events, k - 1);
      assert Step(kind, b, run[k - 1], events[k - 1], run[k - 1 + 1]);
      if IsHarm(run[k - 1], events[k - 1]) {
        HarmIsUnsafe(kind, b, run[k - 1], events[k - 1], run[k]);
      }
    }
  }

  /**
   * With a grace period that covers the sweep, in a run every active workload has its identity at any time
   * exactly when no late write makes a record active that has lost its identity, or loses it after that,
   * and no sweep deletes that of an active workload out of its scope.
   */
  lemma SafeIffHarmless(kind: Kind, b: Bounds, run: seq<State>, events: seq<Event>)
    requires Covers(kind, b) && IsRun(kind, b, run, events)
    ensures (forall k :: 0 <= k < |run| ==> IsSafe(run[k]))
       <==> (forall k :: 0 <= k < |events| ==> !IsHarm(run[k], events[k]))
  {
    if forall k :: 0 <= k < |events| ==> !IsHarm(run[k], events[k]) {
      forall k | 0 <= k < |run| ensures IsSafe(run[k]) {
        SafeUpTo(kind, b, run, events, k);
      }
    }
    if forall k :: 0 <= k < |run| ==> IsSafe(run[k]) {
      HarmlessUpTo(kind, b, run, events, |events|);
    }
  }

  /** No late writes, and nothing out of scope. */
  ghost predicate IsPlain(events: seq<Event>) {
    forall k :: 0 <= k < |events| ==> !events[k].Revive? && (events[k].List? ==> events[k].missed == {})
  }

  /** In every interleaving without late writes and with all records in scope, an active workload has its identity. */
  ghost predicate AlwaysSafe(kind: Kind, b: Bounds) {
    forall run, events :: IsRun(kind, b, run, events) && IsPlain(events) ==> IsSafe(run[|run| - 1])
  }

  lemma {:induction false} PlainIsHarmless(kind: Kind, b: Bounds, run: seq<State>, events: seq<Event>, k: nat)
    requires IsRun(kind, b, run, events) && IsPlain(events) && k < |run|
    ensures run[k].revived == {}
    ensures run[k].sweep.Some? && run[k].sweep.value.listing.Some? ==> run[k].sweep.value.listing.value.missed == {}
    decreases k
  {
    if k > 0 {
      PlainIsHarmless(kind, b, run, events, k - 1);
      assert Step(kind, b, run[k - 1], events[k - 1], run[k - 1 + 1]);
    }
  }

  lemma SafeIfCovered(kind: Kind, b: Bounds)
    requires Covers(kind, b)
    ensures AlwaysSafe(kind, b)
  {
    forall run, events | IsRun(kind, b, run, events) && IsPlain(events) ensures IsSafe(run[|run| - 1]) {
      forall k | 0 <= k < |events| ensures !IsHarm(run[k], events[k]) {
        PlainIsHarmless(kind, b, run, events, k);
      }
      SafeUpTo(kind, b, run, events, |run| - 1);
    }
  }

  /**
   * The sweep of agents' identities needs no grace period: whatever the bounds, it never deletes the identity
   * of an active workload in scope, because no start is under way from its listing until it is over.
   */
  lemma AgentSweepIsSafe(b: Bounds)
    ensures AlwaysSafe(Agents, b)
  {
    SafeIfCovered(Agents, b);
  }

  /** Seven steps make a run. */
  lemma IsShortRun(kind: Kind, b: Bounds, run: seq<State>, events: seq<Event>)
    requires |run| == 8 && |events| == 7 && run[0] == Initial(0)
    requires Step(kind, b, run[0], events[0], run[1]) && Step(kind, b, run[1], events[1], run[2])
    requires Step(kind, b, run[2], events[2], run[3]) && Step(kind, b, run[3], events[3], run[4])
    requires Step(kind, b, run[4], events[4], run[5]) && Step(kind, b, run[5], events[5], run[6])
    requires Step(kind, b, run[6], events[6], run[7])
    ensures IsRun(kind, b, run, events)
  {
    hide Step;
  }

  /**
   * The last agent of an organization is deleted while a workload of it runs: with any bounds, the sweep
   * deletes the identity of the workload once it is past the grace period.
   */
  lemma OutOfScopeSwept(b: Bounds) returns (run: seq<State>, events: seq<Event>)
    requires b.start >= 1 && b.sweep >= 1
    ensures IsRun(Agents, b, run, events) && !IsSafe(run[|run| - 1])
    ensures forall k :: 0 <= k < |events| ==> !events[k].Revive?
  {
    var late := if b.grace < 0 then 0 else b.grace;
    var s0 := Initial(0);
    var s1 := s0.(minted := map["z" := 0], deadline := map["z" := b.start], live := {"z"}, pending := {"z"});
    var s2 := s1.(pending := {}, active := {"z"});
    var s3 := s2.(clock := late);
    var s4 := s3.(sweep := Some(Sweep(None, None, late + b.sweep)));
    var s5 := s4.(sweep := Some(Sweep(None, Some(Listing(late, {}, {"z"})), late + b.sweep)));
    var s6 := s5.(sweep := Some(Sweep(Some(late), Some(Listing(late, {}, {"z"})), late + b.sweep)));
    var s7 := s6.(live := {});
    events := [Mint("z", 0), Record("z"), Tick(late), Begin(late), List({"z"}), ReadClock, Delete("z")];
    run := [s0, s1, s2, s3, s4, s5, s6, s7];
    assert Step(Agents, b, s0, events[0], s1) && Step(Agents, b, s1, events[1], s2);
    assert Step(Agents, b, s2, events[2], s3) && Step(Agents, b, s3, events[3], s4);
    assert Step(Agents, b, s4, events[4], s5) && Step(Agents, b, s5, events[5], s6);
    assert Step(Agents, b, s6, events[6], s7);
    hide Step;
    IsShortRun(Agents, b, run, events);
    assert "z" in s7.active;
  }

  /** In no order at all the sweep is safe if the two cycle bounds, less two, fall short of the grace. */
  lemma SafeInAnyOrder(kind: Kind, b: Bounds)
    requires b.start >= 1 && b.sweep >= 1 && b.start + b.sweep - 2 < b.grace
    ensures AlwaysSafe(kind, b)
  {
    SafeIfCovered(kind, b);
  }

  /**
   * A sandbox's identity is minted at the beginning of a cycle, and its record written at the end of it; in
   * between, a sweep reads the clock and lists the records.
   */
  lemma SweptTooEarly(b: Bounds) returns (run: seq<State>, events: seq<Event>)
    requires b.start >= 1 && b.sweep >= 1 && b.start - 1 >= b.grace
    ensures IsRun(Sandboxes, b, run, events) && IsPlain(events) && !IsSafe(run[|run| - 1])
  {
    var late := b.start - 1;
    var s0 := Initial(0);
    var s1 := s0.(minted := map["z" := 0], deadline := map["z" := b.start], live := {"z"}, pending := {"z"});
    var s2 := s1.(clock := late);
    var s3 := s2.(sweep := Some(Sweep(None, None, late + b.sweep)));
    var s4 := s3.(sweep := Some(Sweep(Some(late), None, late + b.sweep)));
    var s5 := s4.(sweep := Some(Sweep(Some(late), Some(Listing(late, {} - {}, {})), late + b.sweep)));
    var s6 := s5.(pending := {}, active := {"z"});
    var s7 := s6.(live := {});
    events := [Mint("z", 0), Tick(late), Begin(late), ReadClock, List({}), Record("z"), Delete("z")];
    run := [s0, s1, s2, s3, s4, s5, s6, s7];
    assert Step(Sandboxes, b, s0, events[0], s1) && Step(Sandboxes, b, s1, events[1], s2);
    assert Step(Sandboxes, b, s2, events[2], s3) && Step(Sandboxes, b, s3, events[3], s4);
    assert Step(Sandboxes, b, s4, events[4], s5) && Step(Sandboxes, b, s5, events[5], s6);
    assert Step(Sandboxes, b, s6, events[6], s7);
    hide Step;
    IsShortRun(Sandboxes, b, run, events);
    assert "z" in s7.active;
  }

  /**
   * With whole nanoseconds and deadlines that are not reached, the sweep never deletes the identity of a
   * sandbox's active workload exactly when the bound of the cycle that starts it, less one, falls short of
   * the grace. How long the sweep takes makes no difference.
   */
  lemma SafeIffGraceCovers(b: Bounds)
    requires b.start >= 1 && b.sweep >= 1
    ensures AlwaysSafe(Sandboxes, b) <==> b.start - 1 < b.grace
  {
    if b.start - 1 < b.grace {
      SafeIfCovered(Sandboxes, b);
    } else {
      var run, events := SweptTooEarly(b);
      assert IsRun(Sandboxes, b, run, events) && IsPlain(events) && !IsSafe(run[|run| - 1]);
    }
  }

  /** The constants in use are safe, and so is any grace down to the bound of a cycle; one nanosecond less is not. */
  lemma SweepIsSafe(grace: Time)
    ensures RECONCILE_TIMEOUT == 30 * SECOND && CREATE_GRACE == 60 * SECOND
    ensures AlwaysSafe(Agents, Bounds(RECONCILE_TIMEOUT, RECONCILE_TIMEOUT, CREATE_GRACE))
    ensures AlwaysSafe(Sandboxes, Bounds(RECONCILE_TIMEOUT, RECONCILE_TIMEOUT, CREATE_GRACE))
    ensures AlwaysSafe(Sandboxes, Bounds(RECONCILE_TIMEOUT, RECONCILE_TIMEOUT, grace)) <==> grace >= 30 * SECOND
  {
    AgentSweepIsSafe(Bounds(RECONCILE_TIMEOUT, RECONCILE_TIMEOUT, CREATE_GRACE));
    SafeIffGraceCovers(Bounds(RECONCILE_TIMEOUT, RECONCILE_TIMEOUT, CREATE_GRACE));
    SafeIffGraceCovers(Bounds(RECONCILE_TIMEOUT, RECONCILE_TIMEOUT, grace));
  }
}
