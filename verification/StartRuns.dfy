/**
 * Whole runs of one agent instance under a single leader: the gate, starts, status changes, endings,
 * and late writes of loops that act on an outdated listing.
 */
module StartRuns {
  import opened Records
  import opened StartDecision

  /**
   * The gate has found no active record and reads on, late when a record has been written to meanwhile; or it
   * has let a start through, which has not written its record yet.
   */
  datatype Gate = Shut | Reading(late: bool) | Open

  /** The records of the instance, newest first; the newest configuration change; the clock; the gate. */
  datatype State = State(rows: seq<Row>, updatedAt: Time, clock: Time, gate: Gate)

  const INITIAL := State([], 0, 0, Shut)

  datatype Event =
    | Tick(to: Time)
    | Configure                               // the agent class or its environment is reconfigured
    | Read                                    // the gate finds no active record
    | Pass(now: Time, seen: Time)             // and after further reads lets a start through
    | PassLate                                // or does so on reads of which some were before a write, others after
    | Create(id: Id)                          // which writes its record
    | GiveUp                                  // or fails before that, or the gate does not let it through
    | Advance(i: nat, status: WorkloadStatus) // an active record takes another active status
    | End(i: nat, row: Row)                   // an active record ends
    | Overwrite(i: nat, row: Row)             // a record that has ended is written to by a loop that does not know

  function WithRow(s: State, i: nat, row: Row): State
    requires i < |s.rows|
  {
    s.(rows := s.rows[i := row], gate := if s.gate.Reading? then Reading(true) else s.gate)
  }

  /** The same record with another status; when that is terminal, it ended between its creation and now. */
  predicate IsRewrite(s: State, i: nat, row: Row) {
    && i < |s.rows| && row.id == s.rows[i].id && row.createdAt == s.rows[i].createdAt
    && (IsActive(row.status) || IsEnded(row.status))
    && (IsEnded(row.status) ==>
          row.createdAt.Some? && EndedAt(row).Some? && row.createdAt.value <= EndedAt(row).value <= s.clock)
  }

  /**
   * The gate decides at an instant that has already passed, on a configuration time that may be out of
   * date. No write looks at the status that it replaces.
   */
  ghost predicate Step(s: State, e: Event, t: State) {
    match e
    case Tick(to) => s.clock <= to && t == s.(clock := to)
    case Configure => t == s.(updatedAt := s.clock)
    case Read =>
      s.gate.Shut? && (forall i :: 0 <= i < |s.rows| ==> !IsActive(s.rows[i].status)) && t == s.(gate := Reading(false))
    case Pass(now, seen) =>
      && s.gate == Reading(false) && now <= s.clock && seen <= s.updatedAt
      && Decide(s.rows, Some(seen), now) == Start && t == s.(gate := Open)
    case PassLate => s.gate == Reading(true) && t == s.(gate := Open)
    case Create(id) =>
      s.gate.Open? && t == s.(rows := [Row(id, Starting, Some(s.clock), None, Some(s.clock))] + s.rows, gate := Shut)
    case GiveUp => t == s.(gate := Shut)
    case Advance(i, status) =>
      && i < |s.rows| && IsActive(s.rows[i].status) && IsActive(status)
      && t == WithRow(s, i, s.rows[i].(status := status))
    case End(i, row) =>
      IsRewrite(s, i, row) && IsActive(s.rows[i].status) && IsEnded(row.status) && t == WithRow(s, i, row)
    case Overwrite(i, row) => IsRewrite(s, i, row) && IsEnded(s.rows[i].status) && t == WithRow(s, i, row)
  }

  ghost predicate IsRun(run: seq<State>, events: seq<Event>) {
    && |run| == |events| + 1 && run[0] == INITIAL
    && forall k :: 0 <= k < |events| ==> Step(run[k], events[k], run[k + 1])
  }

  /** The later of the newest configuration change and the creation of the newest stopped record. */
  ghost function Floor(s: State): Time {
    match ResetFloor(LatestOf(s.rows, {Stopped}), s.updatedAt)
    case None => s.updatedAt
    case Some(floor) => floor
  }

  ghost predicate FailedAbove(s: State, i: nat) {
    i < |s.rows| && s.rows[i].status.Failed? && s.rows[i].createdAt.Some? && s.rows[i].createdAt.value > Floor(s)
  }

  /** The n newest records are all failures that count. */
  ghost predicate AllFailedAbove(s: State, n: nat) {
    forall i: nat :: i < n ==> FailedAbove(s, i)
  }

  /** How many records were created after an instant; they are the newest ones. */
  ghost function NewerThan(s: State, instant: Time): nat {
    match CountAbove(s.rows, instant) case None => 0 case Some(n) => n
  }

  /** The attempts since the floor. */
  ghost function Streak(s: State): nat {
    NewerThan(s, Floor(s))
  }

  ghost predicate WellFormed(s: State) {
    && AllDated(s.rows) && NewestFirst(s.rows)
    && s.updatedAt <= s.clock
    && (forall i :: 0 <= i < |s.rows| ==> s.rows[i].createdAt.value <= s.clock)
    && (forall i :: 0 <= i < |s.rows| ==> IsEnded(s.rows[i].status) || IsActive(s.rows[i].status))
    && (forall i :: 0 <= i < |s.rows| && IsEnded(s.rows[i].status) ==>
          EndedAt(s.rows[i]).Some? && s.rows[i].createdAt.value <= EndedAt(s.rows[i]).value <= s.clock)
  }

  lemma {:induction false} NewestStopped(rows: seq<Row>)
    requires AllDated(rows) && NewestFirst(rows)
    ensures var latest := LatestOf(rows, {Stopped});
      && (latest.Some? ==> latest.value in rows && latest.value.status.Stopped?)
      && forall i :: 0 <= i < |rows| && rows[i].status.Stopped? ==>
           latest.Some? && latest.value.createdAt.Some? && latest.value.createdAt.value >= rows[i].createdAt.value
  {
    if rows != [] {
      NewestStopped(rows[1..]);
      if !rows[0].status.Stopped? {
        assert Select(rows, {Stopped}) == Select(rows[1..], {Stopped});
        forall i | 0 <= i < |rows| && rows[i].status.Stopped?
          ensures LatestOf(rows, {Stopped}).Some? && LatestOf(rows, {Stopped}).value.createdAt.Some?
          ensures LatestOf(rows, {Stopped}).value.createdAt.value >= rows[i].createdAt.value
        {
          assert rows[1..][i - 1] == rows[i];
        }
      }
    }
  }

  /** The floor is the least instant that is after the configuration change and every stopped record's creation. */
  lemma FloorExact(s: State)
    requires AllDated(s.rows) && NewestFirst(s.rows)
    ensures ResetFloor(LatestOf(s.rows, {Stopped}), s.updatedAt) == Some(Floor(s))
    ensures Floor(s) >= s.updatedAt
    ensures forall i :: 0 <= i < |s.rows| && s.rows[i].status.Stopped? ==> Floor(s) >= s.rows[i].createdAt.value
    ensures Floor(s) == s.updatedAt ||
      exists i :: 0 <= i < |s.rows| && s.rows[i].status.Stopped? && Floor(s) == s.rows[i].createdAt.value
  {
    NewestStopped(s.rows);
  }

  /** The streak is the list of records created after the floor, and none of them was stopped. */
  lemma StreakExact(s: State)
    requires AllDated(s.rows) && NewestFirst(s.rows)
    ensures Streak(s) <= |s.rows|
    ensures forall i: nat :: i < |s.rows| ==> (s.rows[i].createdAt.value > Floor(s) <==> i < Streak(s))
    ensures forall i: nat :: i < Streak(s) ==> !s.rows[i].status.Stopped?
  {
    CountIsExact(s.rows, Floor(s));
    FloorExact(s);
  }

  /** A higher floor leaves a shorter streak. */
  lemma ShorterStreak(s: State, t: State)
    requires AllDated(s.rows) && NewestFirst(s.rows) && AllDated(t.rows) && NewestFirst(t.rows)
    requires |s.rows| == |t.rows| && Floor(s) <= Floor(t)
    requires forall i :: 0 <= i < |s.rows| ==> s.rows[i].createdAt == t.rows[i].createdAt
    ensures Streak(t) <= Streak(s)
  {
    StreakExact(s);
    StreakExact(t);
    if Streak(t) > 0 {
      assert t.rows[Streak(t) - 1].createdAt.value > Floor(t);
    }
  }

  /** While the newest records are failures, counting failures and counting records is the same. */
  lemma {:induction false} FailuresCount(rows: seq<Row>, floor: Time)
    requires AllDated(rows) && NewestFirst(rows)
    requires forall i :: 0 <= i < |rows| && rows[i].createdAt.value > floor ==> rows[i].status.Failed?
    ensures CountAbove(Select(rows, {Failed}), floor) == CountAbove(rows, floor)
  {
    if rows != [] {
      forall i | 0 <= i < |rows[1..]| ensures rows[1..][i] == rows[i + 1] {}
      FailuresCount(rows[1..], floor);
      if rows[0].status.Failed? {
        assert Select(rows, {Failed})[1..] == Select(rows[1..], {Failed});
      } else {
        assert Select(rows, {Failed}) == Select(rows[1..], {Failed});
        forall i | 0 <= i < |rows| ensures rows[i].createdAt.value <= floor {}
        if |rows| > 1 { assert rows[1..][0] == rows[1]; }
      }
    }
  }

  /** With no active record, the newest terminal record is the newest record. */
  lemma NewestEnded(rows: seq<Row>)
    requires |rows| > 0 && IsEnded(rows[0].status)
    ensures LatestOf(rows, {Stopped, Failed}) == Some(rows[0])
  {
    assert Select(rows, {Stopped, Failed})[0] == rows[0];
  }

  lemma NothingActive(rows: seq<Row>)
    requires LatestOf(rows, ACTIVE).None?
    ensures forall i :: 0 <= i < |rows| ==> !IsActive(rows[i].status)
  {
    SelectSound(rows, ACTIVE);
    forall i | 0 <= i < |rows| ensures !IsActive(rows[i].status) {
      assert rows[i] !in Select(rows, ACTIVE);
    }
  }

  /** The count behind a decision is at least the streak: the decision's floor is not above the real one. */
  lemma DecisionCount(s: State, seen: Time) returns (floor: Time)
    requires WellFormed(s) && seen <= s.updatedAt
    requires forall i :: 0 <= i < |s.rows| ==> IsEnded(s.rows[i].status)
    ensures ResetFloor(LatestOf(s.rows, {Stopped}), seen) == Some(floor)
    ensures CountAbove(Select(s.rows, {Failed}), floor).Some?
    ensures CountAbove(Select(s.rows, {Failed}), floor).value >= Streak(s)
  {
    var t := s.(updatedAt := seen);
    FloorExact(s);
    FloorExact(t);
    floor := Floor(t);
    StreakExact(s);
    FailuresCount(s.rows, floor);
    CountDefined(s.rows, floor);
    ShorterStreak(t, s);
  }

  lemma BackoffGrows(m: nat, n: nat)
    requires 0 < m <= n
    ensures Backoff(m) <= Backoff(n)
  {
  }

  /** What a positive decision means for the records already there, whatever has been written over them. */
  lemma StartImplies(s: State, now: Time, seen: Time)
    requires WellFormed(s) && seen <= s.updatedAt && now <= s.clock
    requires Decide(s.rows, Some(seen), now) == Start
    ensures forall i :: 0 <= i < |s.rows| ==> IsEnded(s.rows[i].status)
    ensures Streak(s) < MAX_START_ATTEMPTS && Streak(s) <= |s.rows|
    ensures Streak(s) > 0 ==> s.clock >= EndedAt(s.rows[0]).value + Backoff(Streak(s))
  {
    NothingActive(s.rows);
    StreakExact(s);
    FloorExact(s);
    if Streak(s) > 0 {
      NewestEnded(s.rows);
      var floor := DecisionCount(s, seen);
      BackoffGrows(Streak(s), CountAbove(Select(s.rows, {Failed}), floor).value);
    }
  }

  lemma StepKeepsWellFormed(s: State, e: Event, t: State)
    requires WellFormed(s) && Step(s, e, t)
    ensures WellFormed(t)
  {
    hide Decide;
    match e {
      case Create(id) => CreateKeepsWellFormed(s, id, t);
      case Advance(i, status) => RewriteKeepsWellFormed(s, i, t.rows[i]);
      case End(i, row) => RewriteKeepsWellFormed(s, i, row);
      case Overwrite(i, row) => RewriteKeepsWellFormed(s, i, row);
      case _ =>
    }
  }

  lemma CreateKeepsWellFormed(s: State, id: Id, t: State)
    requires WellFormed(s) && Step(s, Create(id), t)
    ensures WellFormed(t)
  {
    forall i | 0 < i < |t.rows| ensures t.rows[i] == s.rows[i - 1] {}
  }

  lemma RewriteKeepsWellFormed(s: State, i: nat, row: Row)
    requires WellFormed(s) && IsRewrite(s, i, row)
    ensures WellFormed(WithRow(s, i, row))
  {
    var rows := s.rows[i := row];
    forall k | 0 <= k < |rows| ensures rows[k].createdAt == s.rows[k].createdAt {}
    forall k | 0 <= k < |rows| ensures k != i ==> rows[k] == s.rows[k] {}
  }

  lemma {:induction false} RunIsWellFormed(run: seq<State>, events: seq<Event>, k: nat)
    requires IsRun(run, events) && k < |run|
    ensures WellFormed(run[k])
    decreases k
  {
    if k > 0 {
      RunIsWellFormed(run, events, k - 1);
      StepKeepsWellFormed(run[k - 1], events[k - 1], run[k - 1 + 1]);
    }
  }

  /* At most one workload at a time. */

  ghost predicate NoneActive(s: State) {
    forall i :: 0 <= i < |s.rows| ==> !IsActive(s.rows[i].status)
  }

  ghost predicate AtMostOneActive(s: State) {
    forall i, j :: 0 <= i < j < |s.rows| ==> !(IsActive(s.rows[i].status) && IsActive(s.rows[j].status))
  }

  /** At most one record is active, and none while a start is under way. */
  ghost predicate OneInPlay(s: State) {
    AtMostOneActive(s) && (!s.gate.Shut? ==> NoneActive(s))
  }

  /** A record that has ended becomes active again. */
  predicate Revives(e: Event) {
    e.Overwrite? && IsActive(e.row.status)
  }

  /** Every revival finds no record active and no start under way. */
  ghost predicate RevivesAlone(run: seq<State>, events: seq<Event>)
    requires IsRun(run, events)
  {
    forall k :: 0 <= k < |events| && Revives(events[k]) ==> NoneActive(run[k]) && run[k].gate.Shut?
  }

  lemma StepKeepsOneInPlay(s: State, e: Event, t: State)
    requires WellFormed(s) && Step(s, e, t) && OneInPlay(s)
    ensures OneInPlay(t) <==> (Revives(e) ==> NoneActive(s) && s.gate.Shut?)
  {
    match e {
      case Create(id) => assert forall i :: 0 < i < |t.rows| ==> t.rows[i] == s.rows[i - 1];
      case Overwrite(i, row) =>
        if IsActive(row.status) && !NoneActive(s) {
          var j :| 0 <= j < |s.rows| && IsActive(s.rows[j].status);
          assert IsActive(t.rows[i].status) && IsActive(t.rows[j].status) && i != j;
        }
        if IsActive(row.status) {
          assert IsActive(t.rows[i].status);
        }
      case _ =>
    }
  }

  lemma {:induction false} OneInPlayUpTo(run: seq<State>, events: seq<Event>, k: nat)
    requires IsRun(run, events) && k < |run|
    requires forall j :: 0 <= j < k && Revives(events[j]) ==> NoneActive(run[j]) && run[j].gate.Shut?
    ensures OneInPlay(run[k])
    decreases k
  {
    if k > 0 {
      OneInPlayUpTo(run, events, k - 1);
      RunIsWellFormed(run, events, k - 1);
      StepKeepsOneInPlay(run[k - 1], events[k - 1], run[k - 1 + 1]);
    }
  }

  /**
   * In a run an instance has at most one STARTING, RUNNING or STOPPING record at any time, and none
   * while a start is under way, exactly when every late write that makes an ended record active again
   * finds no other record active and no start under way.
   */
  lemma AtMostOneActiveRecord(run: seq<State>, events: seq<Event>)
    requires IsRun(run, events)
    ensures (forall k :: 0 <= k < |run| ==> OneInPlay(run[k])) <==> RevivesAlone(run, events)
    ensures RevivesAlone(run, events) ==> forall k :: 0 <= k < |run| ==> AtMostOneActive(run[k])
  {
    if RevivesAlone(run, events) {
      forall k | 0 <= k < |run| ensures OneInPlay(run[k]) {
        OneInPlayUpTo(run, events, k);
      }
    }
    if forall k :: 0 <= k < |run| ==> OneInPlay(run[k]) {
      forall k | 0 <= k < |events| && Revives(events[k]) ensures NoneActive(run[k]) && run[k].gate.Shut? {
        RunIsWellFormed(run, events, k);
        StepKeepsOneInPlay(run[k], events[k], run[k + 1]);
      }
    }
  }

  /* Bounded retries. */

  /** A late write takes a stopped record out of the floor. */
  predicate Uncovers(s: State, e: Event) {
    e.Overwrite? && e.i < |s.rows| && s.rows[e.i].status.Stopped? && !e.row.status.Stopped?
  }

  /** The floor that remains without record i: from the configuration change and the other stopped records. */
  ghost function FloorWithout(s: State, i: nat): Time
    requires i < |s.rows|
  {
    match ResetFloor(LatestOf(s.rows[..i] + s.rows[i + 1..], {Stopped}), s.updatedAt)
    case None => s.updatedAt
    case Some(floor) => floor
  }

  /** The attempts since an instant, with the one that is under way. */
  ghost function Attempts(s: State, instant: Time): nat {
    NewerThan(s, instant) + if s.gate.Open? then 1 else 0
  }

  /** No more attempts than the gate allows. */
  ghost predicate IsCapped(s: State) {
    Attempts(s, Floor(s)) <= MAX_START_ATTEMPTS
  }

  /**
   * A late write that uncovers a stopped record finds at most ten attempts since the floor that remains without
   * it, and a gate whose reads a write has overlapped lets a start through only with fewer than ten.
   */
  ghost predicate KeepsCap(s: State, e: Event) {
    && (Uncovers(s, e) ==> Attempts(s, FloorWithout(s, e.i)) <= MAX_START_ATTEMPTS)
    && (e.PassLate? ==> Streak(s) < MAX_START_ATTEMPTS)
  }

  ghost predicate AllKeepCap(run: seq<State>, events: seq<Event>)
    requires IsRun(run, events)
  {
    forall k :: 0 <= k < |events| ==> KeepsCap(run[k], events[k])
  }

  lemma {:induction false} SelectConcat(a: seq<Row>, b: seq<Row>, statuses: set<WorkloadStatus>)
    ensures Select(a + b, statuses) == Select(a, statuses) + Select(b, statuses)
    decreases |a|
  {
    if a == [] {
      assert a + b == b;
    } else {
      var first := if statuses == {} || a[0].status in statuses then [a[0]] else [];
      assert (a + b)[0] == a[0] && (a + b)[1..] == a[1..] + b;
      calc {
        Select(a + b, statuses);
        first + Select(a[1..] + b, statuses);
        { SelectConcat(a[1..], b, statuses); }
        first + (Select(a[1..], statuses) + Select(b, statuses));
        Select(a, statuses) + Select(b, statuses);
      }
    }
  }

  lemma {:induction false} CountByDates(a: seq<Row>, b: seq<Row>, instant: Time)
    requires |a| == |b| && forall i :: 0 <= i < |a| ==> a[i].createdAt == b[i].createdAt
    ensures CountAbove(a, instant) == CountAbove(b, instant)
    decreases |a|
  {
    if a != [] {
      CountByDates(a[1..], b[1..], instant);
    }
  }

  /** Once the record is no longer stopped, the floor is the one computed without it. */
  lemma UncoveredFloor(s: State, e: Event, t: State)
    requires Step(s, e, t) && Uncovers(s, e)
    ensures Floor(t) == FloorWithout(s, e.i)
    ensures forall instant :: NewerThan(t, instant) == NewerThan(s, instant)
  {
    var before, after := s.rows[..e.i], s.rows[e.i + 1..];
    assert t.rows == before + ([e.row] + after);
    SelectConcat(before, [e.row] + after, {Stopped});
    SelectConcat([e.row], after, {Stopped});
    SelectConcat(before, after, {Stopped});
    assert [e.row][1..] == [];
    forall instant ensures NewerThan(t, instant) == NewerThan(s, instant) {
      CountByDates(s.rows, t.rows, instant);
    }
  }

  /** Changing a record that is not uncovered does not lower the floor. */
  lemma FloorRises(s: State, t: State, i: nat)
    requires WellFormed(s) && WellFormed(t) && i < |s.rows| == |t.rows|
    requires s.rows[i].status.Stopped? ==> t.rows[i].status.Stopped?
    requires t.rows[i].createdAt == s.rows[i].createdAt
    requires t.rows == s.rows[i := t.rows[i]] && t.updatedAt == s.updatedAt
    ensures Floor(s) <= Floor(t) && Streak(t) <= Streak(s)
  {
    FloorExact(s);
    FloorExact(t);
    if Floor(s) != s.updatedAt {
      var k :| 0 <= k < |s.rows| && s.rows[k].status.Stopped? && Floor(s) == s.rows[k].createdAt.value;
      assert t.rows[k].status.Stopped? && t.rows[k].createdAt == s.rows[k].createdAt;
    }
    ShorterStreak(s, t);
  }

  lemma CreateStreak(s: State, id: Id, t: State)
    requires WellFormed(s) && Step(s, Create(id), t)
    ensures WellFormed(t) && t.rows[1..] == s.rows && Floor(t) == Floor(s)
    ensures Streak(t) == if s.clock > Floor(s) then Streak(s) + 1 else 0
  {
    StepKeepsWellFormed(s, Create(id), t);
    assert t.rows[1..] == s.rows;
    assert Select(t.rows, {Stopped}) == Select(s.rows, {Stopped});
    CountDefined(s.rows, Floor(s));
  }

  /** Every step but an uncovering write leaves the attempts as few as they were, or as the gate allows. */
  lemma StepKeepsFloor(s: State, e: Event, t: State)
    requires WellFormed(s) && Step(s, e, t) && !Uncovers(s, e) && !e.Create?
    ensures WellFormed(t) && Streak(t) <= Streak(s)
    ensures t.rows == s.rows || ((e.Advance? || e.End? || e.Overwrite?) && t == WithRow(s, e.i, t.rows[e.i]))
  {
    StepKeepsWellFormed(s, e, t);
    match e {
      case Advance(i, status) => FloorRises(s, t, i);
      case End(i, row) => FloorRises(s, t, i);
      case Overwrite(i, row) => FloorRises(s, t, i);
      case _ =>
        FloorExact(s);
        FloorExact(t);
        ShorterStreak(s, t);
    }
  }

  lemma StepKeepsCap(s: State, e: Event, t: State)
    requires WellFormed(s) && Step(s, e, t) && IsCapped(s)
    ensures IsCapped(t) <==> KeepsCap(s, e)
  {
    if Uncovers(s, e) {
      UncoveredFloor(s, e, t);
    } else if e.Create? {
      CreateStreak(s, e.id, t);
    } else {
      StepKeepsFloor(s, e, t);
      if e.Pass? {
        StartImplies(s, e.now, e.seen);
      }
    }
  }

  lemma {:induction false} CappedUpTo(run: seq<State>, events: seq<Event>, k: nat)
    requires IsRun(run, events) && k < |run|
    requires forall j :: 0 <= j < k ==> KeepsCap(run[j], events[j])
    ensures IsCapped(run[k])
    decreases k
  {
    if k > 0 {
      CappedUpTo(run, events, k - 1);
      RunIsWellFormed(run, events, k - 1);
      StepKeepsCap(run[k - 1], events[k - 1], run[k - 1 + 1]);
    }
  }

  /**
   * In a run there are at most ten attempts since the floor at any time, the one under way included,
   * exactly when every late write that takes a stopped record out of the floor finds at most ten since
   * the floor that remains, and no late write misleads the gate into an eleventh. Then all the failures
   * that count are among the ten newest records.
   */
  lemma CapHoldsIff(run: seq<State>, events: seq<Event>)
    requires IsRun(run, events)
    ensures (forall k :: 0 <= k < |run| ==> IsCapped(run[k])) <==> AllKeepCap(run, events)
    ensures AllKeepCap(run, events) ==>
      forall k, i: nat :: 0 <= k < |run| && FailedAbove(run[k], i) ==> i < MAX_START_ATTEMPTS
  {
    if AllKeepCap(run, events) {
      forall k | 0 <= k < |run| ensures IsCapped(run[k]) {
        CappedUpTo(run, events, k);
      }
      forall k, i: nat | 0 <= k < |run| && FailedAbove(run[k], i) ensures i < MAX_START_ATTEMPTS {
        CappedUpTo(run, events, k);
        RunIsWellFormed(run, events, k);
        StreakExact(run[k]);
      }
    }
    if forall k :: 0 <= k < |run| ==> IsCapped(run[k]) {
      forall k | 0 <= k < |events| ensures KeepsCap(run[k], events[k]) {
        RunIsWellFormed(run, events, k);
        assert IsCapped(run[k]) && IsCapped(run[k + 1]);
        StepKeepsCap(run[k], events[k], run[k + 1]);
      }
    }
  }

  /**
   * Record i, with n - 1 - i of the n newest records before it, began no sooner than the backoff after the
   * last of them ended.
   */
  ghost predicate Gap(s: State, i: nat, n: nat)
    requires WellFormed(s) && i + 1 < n <= |s.rows|
  {
    IsEnded(s.rows[i + 1].status) && s.rows[i].createdAt.value >= EndedAt(s.rows[i + 1]).value + Backoff(n - 1 - i)
  }

  /** Of the n newest records each began only after the backoff, and so does a start that is under way. */
  ghost predicate HaveWaited(s: State, n: nat)
    requires WellFormed(s)
  {
    && n <= |s.rows|
    && (forall i: nat :: i + 1 < n ==> Gap(s, i, n))
    && (n > 0 ==> StartWaits(s, n))
  }

  /** All attempts since the floor have waited. */
  ghost predicate IsSpaced(s: State) {
    WellFormed(s) && HaveWaited(s, Streak(s))
  }

  /** The record, rewritten, still ends a backoff before the next one began. */
  ghost predicate EndFits(s: State, i: nat, row: Row, n: nat)
    requires WellFormed(s) && IsRewrite(s, i, row) && i < n
  {
    || (i == 0 && !s.gate.Open?)
    || (&& IsEnded(row.status)
        && (if i == 0 then s.clock else s.rows[i - 1].createdAt.value) >= EndedAt(row).value + Backoff(n - i))
  }

  /** Once the record counts again, among the n attempts that then do, each of them has waited for the one before. */
  ghost predicate UncoveredFits(s: State, i: nat, row: Row, n: nat)
    requires WellFormed(s) && IsRewrite(s, i, row)
  {
    && n <= |s.rows|
    && (forall j: nat :: j + 1 < n && j + 1 != i ==> Gap(s, j, n))
    && (i < n ==> EndFits(s, i, row, n))
    && (0 < i && 0 < n ==> StartWaits(s, n))
  }

  /** A start that is under way has waited for the newest record, the last of n. */
  ghost predicate StartWaits(s: State, n: nat)
    requires WellFormed(s) && 0 < n <= |s.rows|
  {
    s.gate.Open? ==> IsEnded(s.rows[0].status) && s.clock >= EndedAt(s.rows[0]).value + Backoff(n)
  }

  /**
   * A late write that leaves the waits intact: it stops the record; or it uncovers a stopped record, and the
   * attempts since the floor that remains fit; or it rewrites a failure that no longer counts, or whose
   * new end still fits. And a gate whose reads a write has overlapped has kept to the backoff.
   */
  ghost predicate KeepsWaits(s: State, e: Event)
    requires e.Overwrite? || e.PassLate?
  {
    && WellFormed(s)
    && if e.PassLate? then Streak(s) <= |s.rows| && (Streak(s) > 0 ==> StartWaits(s.(gate := Open), Streak(s)))
       else
         && IsRewrite(s, e.i, e.row)
         && (|| e.row.status.Stopped?
             || (if s.rows[e.i].status.Stopped? then UncoveredFits(s, e.i, e.row, NewerThan(s, FloorWithout(s, e.i)))
                 else e.i >= Streak(s) || EndFits(s, e.i, e.row, Streak(s))))
  }

  ghost predicate LateWritesFit(run: seq<State>, events: seq<Event>)
    requires IsRun(run, events)
  {
    forall k :: 0 <= k < |events| && (events[k].Overwrite? || events[k].PassLate?) ==> KeepsWaits(run[k], events[k])
  }

  /** Shorter streaks ask for shorter waits. */
  lemma FewerWaited(s: State, t: State, m: nat, n: nat)
    requires WellFormed(s) && WellFormed(t) && HaveWaited(s, n) && m <= n && |t.rows| == |s.rows| && s.clock <= t.clock
    requires forall i: nat :: i < m ==> t.rows[i].createdAt == s.rows[i].createdAt
    requires forall i: nat :: 0 < i < m ==> t.rows[i] == s.rows[i]
    requires t.gate.Open? && m > 0 ==> s.gate.Open? && t.rows[0] == s.rows[0]
    ensures HaveWaited(t, m)
  {
    forall i: nat | i + 1 < m ensures Gap(t, i, m) {
      assert Gap(s, i, n);
      BackoffGrows(m - 1 - i, n - 1 - i);
    }
    if m > 0 {
      BackoffGrows(m, n);
    }
  }

  lemma CreateKeepsWaits(s: State, id: Id, t: State)
    requires IsSpaced(s) && Step(s, Create(id), t)
    ensures IsSpaced(t)
  {
    CreateStreak(s, id, t);
    forall i: nat | i + 1 < Streak(t) ensures Gap(t, i, Streak(t)) {
      assert t.rows[i + 1] == s.rows[i];
      if i > 0 {
        assert t.rows[i] == s.rows[i - 1];
        assert Gap(s, i - 1, Streak(s));
      }
    }
  }

  lemma GateKeepsWaits(s: State, e: Event, t: State)
    requires IsSpaced(s) && Step(s, e, t) && e.Pass?
    ensures IsSpaced(t)
  {
    StartImplies(s, e.now, e.seen);
    forall i: nat | i + 1 < Streak(t) ensures Gap(t, i, Streak(t)) {
      assert Gap(s, i, Streak(s));
    }
  }

  /** Of the attempts that count only the newest can be active. */
  lemma CountedHaveEnded(s: State)
    requires IsSpaced(s)
    ensures forall j: nat :: 0 < j < Streak(s) ==> IsEnded(s.rows[j].status)
  {
    forall j: nat | 0 < j < Streak(s) ensures IsEnded(s.rows[j].status) {
      assert Gap(s, j - 1, Streak(s));
    }
  }

  lemma OrdinaryStepKeepsWaits(s: State, e: Event, t: State)
    requires IsSpaced(s) && Step(s, e, t) && !e.Overwrite? && !e.PassLate?
    ensures IsSpaced(t)
  {
    CountedHaveEnded(s);
    match e {
      case Create(id) => CreateKeepsWaits(s, id, t);
      case Pass(now, seen) => GateKeepsWaits(s, e, t);
      case _ =>
        StepKeepsFloor(s, e, t);
        FewerWaited(s, t, Streak(t), Streak(s));
    }
  }

  lemma SameFloor(s: State, t: State, i: nat)
    requires WellFormed(s) && WellFormed(t) && i < |s.rows| == |t.rows|
    requires s.rows[i].status.Stopped? <==> t.rows[i].status.Stopped?
    requires t.rows[i].createdAt == s.rows[i].createdAt && t == WithRow(s, i, t.rows[i])
    ensures Floor(s) == Floor(t) && Streak(t) == Streak(s)
  {
    FloorRises(s, t, i);
    assert s.rows == t.rows[i := s.rows[i]];
    FloorRises(t, s, i);
  }

  /** Rewriting a failure that counts keeps the waits exactly when its new end fits. */
  lemma RewrittenFailure(s: State, i: nat, row: Row, t: State)
    requires IsSpaced(s) && WellFormed(t) && IsRewrite(s, i, row) && t == WithRow(s, i, row)
    requires s.rows[i].status.Failed? && !row.status.Stopped?
    ensures IsSpaced(t) <==> i >= Streak(s) || EndFits(s, i, row, Streak(s))
  {
    SameFloor(s, t, i);
    var n := Streak(s);
    forall j: nat | j + 1 < n && j + 1 != i ensures Gap(t, j, n) {
      assert Gap(s, j, n);
    }
    if 0 < i < n && HaveWaited(t, n) {
      assert Gap(t, i - 1, n);
    }
  }

  /** Stopping the record, or stopping it again, only raises the floor. */
  lemma RewrittenAsStopped(s: State, i: nat, row: Row, t: State)
    requires IsSpaced(s) && WellFormed(t) && IsRewrite(s, i, row) && t == WithRow(s, i, row) && row.status.Stopped?
    ensures IsSpaced(t)
  {
    FloorRises(s, t, i);
    StreakExact(t);
    FewerWaited(s, t, Streak(t), Streak(s));
  }

  /** A stopped record that counts again keeps the waits exactly when they fit. */
  lemma Uncovered(s: State, e: Event, t: State)
    requires IsSpaced(s) && Step(s, e, t) && Uncovers(s, e) && WellFormed(t)
    ensures NewerThan(s, FloorWithout(s, e.i)) <= |s.rows|
    ensures IsSpaced(t) <==> UncoveredFits(s, e.i, e.row, NewerThan(s, FloorWithout(s, e.i)))
  {
    UncoveredFloor(s, e, t);
    var i, n := e.i, Streak(t);
    StreakExact(t);
    forall j: nat | j + 1 < n && j + 1 != i ensures Gap(t, j, n) <==> Gap(s, j, n) {
    }
    if 0 < i < n {
      assert Gap(t, i - 1, n) <==> EndFits(s, i, e.row, n);
    }
  }

  /** A late pass keeps the waits exactly when the start has waited. */
  lemma PassedLate(s: State, t: State)
    requires IsSpaced(s) && Step(s, PassLate, t)
    ensures IsSpaced(t) <==> KeepsWaits(s, PassLate)
  {
    FloorExact(s);
    FloorExact(t);
    StreakExact(s);
    forall i: nat | i + 1 < Streak(s) ensures Gap(t, i, Streak(s)) {
      assert Gap(s, i, Streak(s));
    }
  }

  lemma LateWriteKeepsWaits(s: State, e: Event, t: State)
    requires IsSpaced(s) && Step(s, e, t) && (e.Overwrite? || e.PassLate?)
    ensures IsSpaced(t) <==> KeepsWaits(s, e)
  {
    StepKeepsWellFormed(s, e, t);
    if e.PassLate? {
      PassedLate(s, t);
    } else if e.row.status.Stopped? {
      RewrittenAsStopped(s, e.i, e.row, t);
    } else if Uncovers(s, e) {
      Uncovered(s, e, t);
    } else {
      RewrittenFailure(s, e.i, e.row, t);
    }
  }

  lemma {:induction false} SpacedUpTo(run: seq<State>, events: seq<Event>, k: nat)
    requires IsRun(run, events) && k < |run|
    requires forall j :: 0 <= j < k && (events[j].Overwrite? || events[j].PassLate?) ==> KeepsWaits(run[j], events[j])
    ensures IsSpaced(run[k])
    decreases k
  {
    if k > 0 {
      SpacedUpTo(run, events, k - 1);
      assert Step(run[k - 1], events[k - 1], run[k - 1 + 1]);
      if events[k - 1].Overwrite? || events[k - 1].PassLate? {
        LateWriteKeepsWaits(run[k - 1], events[k - 1], run[k]);
      } else {
        OrdinaryStepKeepsWaits(run[k - 1], events[k - 1], run[k]);
      }
    }
  }

  /**
   * In a run every attempt since the floor has waited for its backoff at any time exactly when every late
   * write fits.
   */
  lemma WaitsHoldIff(run: seq<State>, events: seq<Event>)
    requires IsRun(run, events)
    ensures (forall k :: 0 <= k < |run| ==> IsSpaced(run[k])) <==> LateWritesFit(run, events)
  {
    if LateWritesFit(run, events) {
      forall k | 0 <= k < |run| ensures IsSpaced(run[k]) {
        SpacedUpTo(run, events, k);
      }
    }
    if forall k :: 0 <= k < |run| ==> IsSpaced(run[k]) {
      forall k | 0 <= k < |events| && (events[k].Overwrite? || events[k].PassLate?)
        ensures KeepsWaits(run[k], events[k])
      {
        assert IsSpaced(run[k]) && IsSpaced(run[k + 1]);
        LateWriteKeepsWaits(run[k], events[k], run[k + 1]);
      }
    }
  }

  /** Nine waits, each from the end of one failure to the creation of the next. */
  lemma LadderTotal(s: State, n: nat)
    requires WellFormed(s) && 10 <= n && HaveWaited(s, n)
    ensures IsEnded(s.rows[9].status) && EndedAt(s.rows[9]).Some?
    ensures s.rows[0].createdAt.value - EndedAt(s.rows[9]).value >= 4900 * SECOND
  {
    assert Gap(s, 8, n) && Gap(s, 7, n) && Gap(s, 6, n) && Gap(s, 5, n);
    BackoffGrows(1, n - 9);
    BackoffGrows(2, n - 8);
    BackoffGrows(3, n - 7);
    BackoffGrows(4, n - 6);
    assert Gap(s, 4, n) && EndedAt(s.rows[5]).value >= EndedAt(s.rows[9]).value + 400 * SECOND;
    assert Gap(s, 3, n) && Gap(s, 2, n) && Gap(s, 1, n) && Gap(s, 0, n);
    forall m: nat | 5 <= m <= n ensures Backoff(m) == 900 * SECOND {}
  }

  /**
   * Bounded retries. In every run whose late writes fit, whenever the ten newest records are failures that
   * count, the tenth was started at least 4900 s after the first had ended. With CapHoldsIff there are
   * never more than ten.
   */
  lemma BoundedRetries(run: seq<State>, events: seq<Event>, k: nat)
    requires IsRun(run, events) && LateWritesFit(run, events) && k < |run|
    requires AllFailedAbove(run[k], MAX_START_ATTEMPTS)
    ensures FailedAbove(run[k], 9) && run[k].rows[0].createdAt.Some? && EndedAt(run[k].rows[9]).Some?
    ensures run[k].rows[0].createdAt.value - EndedAt(run[k].rows[9]).value >= 4900 * SECOND
  {
    SpacedUpTo(run, events, k);
    StreakExact(run[k]);
    assert FailedAbove(run[k], 9);
    LadderTotal(run[k], Streak(run[k]));
  }

  /** Without late writes nothing changes while the gate reads, and no pass is late. */
  lemma {:induction false} NeverLate(run: seq<State>, events: seq<Event>, k: nat)
    requires IsRun(run, events) && k < |run|
    requires forall j :: 0 <= j < k ==> !events[j].Overwrite?
    ensures run[k].gate != Reading(true) && OneInPlay(run[k])
    decreases k
  {
    if k > 0 {
      NeverLate(run, events, k - 1);
      assert Step(run[k - 1], events[k - 1], run[k - 1 + 1]);
      RunIsWellFormed(run, events, k - 1);
      StepKeepsOneInPlay(run[k - 1], events[k - 1], run[k - 1 + 1]);
    }
  }

  /** A run without late writes over ended records meets all three conditions. */
  lemma NoLateWrites(run: seq<State>, events: seq<Event>)
    requires IsRun(run, events) && forall k :: 0 <= k < |events| ==> !events[k].Overwrite?
    ensures RevivesAlone(run, events) && AllKeepCap(run, events) && LateWritesFit(run, events)
  {
    forall k | 0 <= k < |events| ensures !events[k].PassLate? {
      NeverLate(run, events, k);
      assert Step(run[k], events[k], run[k + 1]);
    }
  }

  /* Runs in which late writes do harm. */

  lemma Appended(run: seq<State>, events: seq<Event>, e: Event, t: State)
    returns (run': seq<State>, events': seq<Event>)
    requires IsRun(run, events) && Step(run[|run| - 1], e, t)
    ensures IsRun(run', events') && run'[|run'| - 1] == t
  {
    run', events' := run + [t], events + [e];
  }

  /** With nothing active, fewer than ten attempts that count and a long wait, the gate opens. */
  lemma GateOpens(s: State)
    requires WellFormed(s) && NoneActive(s) && Streak(s) < MAX_START_ATTEMPTS
    requires forall i :: 0 <= i < |s.rows| ==> s.clock >= EndedAt(s.rows[i]).value + 900 * SECOND
    ensures Decide(s.rows, Some(s.updatedAt), s.clock) == Start
  {
    NoneSelected(s.rows, ACTIVE);
    if s.rows != [] {
      NewestEnded(s.rows);
      FloorExact(s);
      StreakExact(s);
      FailuresCount(s.rows, Floor(s));
      CountDefined(s.rows, Floor(s));
    }
  }

  /** The states in which the instance has waited, has been looked at, and is let through. */
  lemma WaitsAndPasses(s: State) returns (s1: State, s2: State, s3: State)
    requires WellFormed(s) && NoneActive(s) && s.gate.Shut? && Streak(s) < MAX_START_ATTEMPTS
    ensures s1 == s.(clock := s.clock + 901 * SECOND) && s2 == s1.(gate := Reading(false)) && s3 == s1.(gate := Open)
    ensures Step(s, Tick(s1.clock), s1) && Step(s1, Read, s2) && Step(s2, Pass(s1.clock, s.updatedAt), s3)
    ensures WellFormed(s3) && s3.clock > Floor(s3) && Streak(s3) == Streak(s)
  {
    s1 := s.(clock := s.clock + 901 * SECOND);
    s2 := s1.(gate := Reading(false));
    s3 := s1.(gate := Open);
    FloorExact(s);
    GateOpens(s1);
  }

  /** The states in which a start that has been let through has written its record, and in which that has ended. */
  lemma StartsAndEnds(s: State, status: WorkloadStatus) returns (mid: State, t: State)
    requires WellFormed(s) && NoneActive(s) && s.gate.Open? && s.clock > Floor(s) && IsEnded(status)
    ensures Step(s, Create("w"), mid) && t.rows != [] && Step(mid, End(0, t.rows[0]), t)
    ensures NoneActive(t) && t.gate.Shut? && t.updatedAt == s.updatedAt && t.clock == s.clock
    ensures t.rows[1..] == s.rows && t.rows[0].status == status && t.rows[0].createdAt == Some(t.clock)
    ensures Streak(t) == if status.Failed? then Streak(s) + 1 else 0
  {
    hide WellFormed;
    hide Floor;
    hide Streak;
    var row := Row("w", Starting, Some(s.clock), None, Some(s.clock));
    mid := s.(rows := [row] + s.rows, gate := Shut);
    t := WithRow(mid, 0, row.(status := status, removedAt := Some(s.clock)));
    assert Step(s, Create("w"), mid) && Step(mid, End(0, t.rows[0]), t);
    StepKeepsWellFormed(s, Create("w"), mid);
    StepKeepsWellFormed(mid, End(0, t.rows[0]), t);
    EndedStreak(s, mid, t, status);
  }

  /** The instance starts, after a long wait, and ends at once. */
  lemma RunsOnce(run: seq<State>, events: seq<Event>, status: WorkloadStatus)
    returns (run': seq<State>, events': seq<Event>)
    requires IsRun(run, events) && IsEnded(status)
    requires var s := run[|run| - 1]; NoneActive(s) && s.gate.Shut? && Streak(s) < MAX_START_ATTEMPTS
    ensures IsRun(run', events')
    ensures var s, t := run[|run| - 1], run'[|run'| - 1];
      && NoneActive(t) && t.gate.Shut? && t.updatedAt == s.updatedAt
      && |t.rows| == |s.rows| + 1 && t.rows[1..] == s.rows && t.rows[0].status == status
      && t.rows[0].createdAt == Some(t.clock) && t.clock > s.clock
      && Streak(t) == if status.Failed? then Streak(s) + 1 else 0
  {
    RunIsWellFormed(run, events, |run| - 1);
    var s1, s2, s3 := WaitsAndPasses(run[|run| - 1]);
    var s4, t := StartsAndEnds(s3, status);
    hide Step;
    run', events' := Appended(run, events, Tick(s1.clock), s1);
    run', events' := Appended(run', events', Read, s2);
    run', events' := Appended(run', events', Pass(s1.clock, run[|run| - 1].updatedAt), s3);
    run', events' := Appended(run', events', Create("w"), s4);
    run', events' := Appended(run', events', End(0, t.rows[0]), t);
  }

  lemma EndedStreak(s: State, mid: State, t: State, status: WorkloadStatus)
    requires WellFormed(s) && IsEnded(status) && s.clock > Floor(s) && Step(s, Create("w"), mid) && WellFormed(t)
    requires |t.rows| == |mid.rows| && t == WithRow(mid, 0, t.rows[0])
    requires t.rows[0].status == status && t.rows[0].createdAt == Some(s.clock)
    ensures Streak(t) == if status.Failed? then Streak(s) + 1 else 0
    ensures t.rows[1..] == s.rows
  {
    CreateStreak(s, "w", mid);
    assert mid.rows[0].createdAt == Some(s.clock);
    if status.Failed? {
      SameFloor(mid, t, 0);
    } else {
      StreakExact(t);
    }
  }

  /** And again n times, failing each time. */
  lemma {:induction false} FailsTimes(run: seq<State>, events: seq<Event>, n: nat)
    returns (run': seq<State>, events': seq<Event>)
    requires IsRun(run, events)
    requires var s := run[|run| - 1]; NoneActive(s) && s.gate.Shut? && Streak(s) + n <= MAX_START_ATTEMPTS
    ensures IsRun(run', events')
    ensures var s, t := run[|run| - 1], run'[|run'| - 1];
      && NoneActive(t) && t.gate.Shut? && t.updatedAt == s.updatedAt && t.clock >= s.clock
      && |t.rows| == |s.rows| + n && t.rows[n..] == s.rows && Streak(t) == Streak(s) + n
      && forall i :: 0 <= i < n ==>
        t.rows[i].status.Failed? && t.rows[i].createdAt.Some? && t.rows[i].createdAt.value > s.clock
    decreases n
  {
    run', events' := run, events;
    if n > 0 {
      var run1, events1 := FailsTimes(run, events, n - 1);
      run', events' := RunsOnce(run1, events1, Failed);
      var mid, t := run1[|run1| - 1], run'[|run'| - 1];
      assert forall j :: 0 <= j < |mid.rows| ==> t.rows[1..][j] == t.rows[j + 1];
    }
  }

  /**
   * The workload loop does not find a workload that the agent loop has stopped since, and writes FAILED
   * over its record: the five failures before it and the five after it count together, eleven in all.
   */
  lemma ElevenFailures() returns (run: seq<State>, events: seq<Event>)
    ensures IsRun(run, events) && AllFailedAbove(run[|run| - 1], 11)
  {
    assert IsRun([INITIAL], []);
    var run5, events5 := FailsTimes([INITIAL], [], 5);
    var run6, events6 := RunsOnce(run5, events5, Stopped);
    var run11, events11 := FailsTimes(run6, events6, 5);
    var s5, s6, s := run5[|run5| - 1], run6[|run6| - 1], run11[|run11| - 1];
    RunIsWellFormed(run11, events11, |run11| - 1);
    assert forall j :: 0 <= j < 6 ==> s.rows[5..][j] == s.rows[5 + j];
    assert forall j :: 0 <= j < 5 ==> s6.rows[1..][j] == s6.rows[1 + j];
    var failed := s.rows[5].(status := Failed, removedAt := Some(s.clock));
    var t := WithRow(s, 5, failed);
    run, events := Appended(run11, events11, Overwrite(5, failed), t);
    RunIsWellFormed(run, events, |run| - 1);
    FloorExact(t);
    assert forall i :: 0 <= i < 11 ==> t.rows[i].status.Failed? && t.rows[i].createdAt.value > 0;
  }

  /** FAILED written over the first of ten failures moves its end past the start of the tenth. */
  lemma MovedEnd() returns (run: seq<State>, events: seq<Event>)
    ensures IsRun(run, events) && AllFailedAbove(run[|run| - 1], MAX_START_ATTEMPTS)
    ensures var s := run[|run| - 1]; |s.rows| == 10 && s.rows[0].createdAt.Some? && EndedAt(s.rows[9]).Some?
    ensures var s := run[|run| - 1]; s.rows[0].createdAt.value <= EndedAt(s.rows[9]).value
  {
    assert IsRun([INITIAL], []);
    var run10, events10 := FailsTimes([INITIAL], [], 10);
    var s := run10[|run10| - 1];
    RunIsWellFormed(run10, events10, |run10| - 1);
    var failed := s.rows[9].(removedAt := Some(s.clock));
    var t := WithRow(s, 9, failed);
    run, events := Appended(run10, events10, Overwrite(9, failed), t);
    RunIsWellFormed(run, events, |run| - 1);
    FloorExact(t);
    assert forall i :: 0 <= i < 10 ==> t.rows[i].status.Failed? && t.rows[i].createdAt.value > 0;
  }

  /**
   * The gate finds no active record. Then RUNNING is written over one that has been stopped since the workload
   * loop listed it, with no record active and no start let through; and the gate, late, lets one through.
   */
  lemma TwoActiveRecords() returns (run: seq<State>, events: seq<Event>)
    ensures IsRun(run, events) && !AtMostOneActive(run[|run| - 1])
    ensures |run| > 4 && NoneActive(run[|run| - 4]) && events[|events| - 3].Overwrite? && !run[|run| - 4].gate.Open?
  {
    assert IsRun([INITIAL], []);
    var run1, events1 := RunsOnce([INITIAL], [], Stopped);
    var s := run1[|run1| - 1];
    RunIsWellFormed(run1, events1, |run1| - 1);
    var reading := s.(gate := Reading(false));
    var running := s.rows[0].(status := Running);
    var late := WithRow(reading, 0, running);
    var open := late.(gate := Open);
    var row := Row("v", Starting, Some(s.clock), None, Some(s.clock));
    var t := open.(rows := [row] + open.rows, gate := Shut);
    var more := [Read, Overwrite(0, running), PassLate, Create("v")];
    run, events := run1 + [reading, late, open, t], events1 + more;
    assert Step(s, more[0], reading) && Step(reading, more[1], late);
    assert Step(late, more[2], open) && Step(open, more[3], t);
    assert IsActive(t.rows[0].status) && IsActive(t.rows[1].status);
  }
}
