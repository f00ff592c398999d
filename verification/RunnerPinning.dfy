/**
 * "An agent instance's disks live on one runner" (internal/reconciler/runner_pinning.go): the read
 * that finds the pinned runner, and every interleaving of starts with the volume loop's writes.
 */
module RunnerPinning {
  import opened Records

  /** A volume record of the instance. */
  datatype Volume = Volume(status: VolumeStatus, runner: Id)

  /** A row of a listing; "" is a missing id. */
  datatype Row = Row(id: Id, volume: Volume)

  /** A row that the read accepts when the pin is r. */
  predicate IsPinnedTo(row: Option<Row>, r: Id) {
    row.Some? && row.value.id != "" && (IsOpen(row.value.volume.status) ==> row.value.volume.runner == r && r != "")
  }

  predicate IsOpenRow(row: Option<Row>) {
    row.Some? && IsOpen(row.value.volume.status)
  }

  ghost predicate AllPinnedTo(rows: seq<Option<Row>>, r: Id) {
    forall i :: 0 <= i < |rows| ==> IsPinnedTo(rows[i], r)
  }

  ghost predicate HasOpenRow(rows: seq<Option<Row>>) {
    exists i :: 0 <= i < |rows| && IsOpenRow(rows[i])
  }

  function Flatten(pages: seq<Option<seq<Option<Row>>>>): seq<Option<Row>> {
    if pages == [] then []
    else
      var last := pages[|pages| - 1];
      Flatten(pages[..|pages| - 1]) + if last.Some? then last.value else []
  }

  method PinnedRunnerOnPage(rows: seq<Option<Row>>, pin: Id, ghost seen: seq<Option<Row>>) returns (r: Result<Id>)
    requires AllPinnedTo(seen, pin) && (pin != "" <==> HasOpenRow(seen))
    ensures r.Ok? ==> AllPinnedTo(seen + rows, r.value) && (r.value != "" <==> HasOpenRow(seen + rows))
    ensures r.Err? ==> forall runner :: !AllPinnedTo(seen + rows, runner)
  {
    var runner := pin;
    assert seen + rows[..0] == seen;
    for k := 0 to |rows|
      invariant AllPinnedTo(seen + rows[..k], runner) && (runner != "" <==> HasOpenRow(seen + rows[..k]))
    {
      ghost var before := seen + rows[..k];
      assert seen + rows[..k + 1] == before + [rows[k]];
      assert (seen + rows)[|seen| + k] == rows[k];
      if rows[k].None? || rows[k].value.id == "" {
        return Err;
      }
      var volume := rows[k].value.volume;
      if IsOpen(volume.status) {
        if volume.runner == "" {
          return Err;
        }
        assert HasOpenRow(before + [rows[k]]) by { assert IsOpenRow((before + [rows[k]])[|before|]); }
        if runner == "" {
          assert forall i :: 0 <= i < |before| ==> !IsOpenRow(before[i]);
          runner := volume.runner;
        } else if runner != volume.runner {
          ghost var i :| 0 <= i < |before| && IsOpenRow(before[i]);
          assert (seen + rows)[i] == before[i];
          return Err;
        }
      } else if runner != "" {
        ghost var i :| 0 <= i < |before| && IsOpenRow(before[i]);
        assert IsOpenRow((before + [rows[k]])[i]);
      }
    }
    assert rows[..|rows|] == rows;
    r := Ok(runner);
  }

  /**
   * The pages of the listing, in order; None is a call that fails. The read succeeds exactly when
   * every call does and some runner is the runner of all open volumes, and finds that runner;
   * "" says that no volume is open.
   */
  method PinnedRunner(instance: Id, pages: seq<Option<seq<Option<Row>>>>) returns (r: Result<Id>)
    ensures r.Ok? <==>
      && instance != "" && (forall k :: 0 <= k < |pages| ==> pages[k].Some?)
      && exists runner :: AllPinnedTo(Flatten(pages), runner)
    ensures r.Ok? ==> AllPinnedTo(Flatten(pages), r.value) && (r.value != "" <==> HasOpenRow(Flatten(pages)))
    ensures r.Ok? ==> forall k, i :: 0 <= k < |pages| && 0 <= i < |pages[k].value| ==>
      && pages[k].value[i].Some? && pages[k].value[i].value.id != ""
      && var volume := pages[k].value[i].value.volume;
         volume.status in {Provisioning, Active, Deprovisioning} ==> volume.runner == r.value && r.value != ""
  {
    if instance == "" {
      return Err;
    }
    var runner := "";
    for k := 0 to |pages|
      invariant forall j :: 0 <= j < k ==> pages[j].Some?
      invariant AllPinnedTo(Flatten(pages[..k]), runner) && (runner != "" <==> HasOpenRow(Flatten(pages[..k])))
    {
      if pages[k].None? {
        return Err;
      }
      assert pages[..k + 1][..k] == pages[..k];
      var page := PinnedRunnerOnPage(pages[k].value, runner, Flatten(pages[..k]));
      if page.Err? {
        FlattenPrefix(pages, k + 1);
        return Err;
      }
      runner := page.value;
    }
    assert pages[..|pages|] == pages;
    r := Ok(runner);
    forall k, i | 0 <= k < |pages| && 0 <= i < |pages[k].value| ensures IsPinnedTo(pages[k].value[i], runner) {
      FlattenHas(pages, k, i);
    }
  }

  lemma {:induction false} FlattenPrefix(pages: seq<Option<seq<Option<Row>>>>, k: nat)
    requires k <= |pages|
    ensures Flatten(pages[..k]) <= Flatten(pages)
    ensures forall r :: AllPinnedTo(Flatten(pages), r) ==> AllPinnedTo(Flatten(pages[..k]), r)
    decreases |pages|
  {
    if k < |pages| {
      var front := pages[..|pages| - 1];
      assert front[..k] == pages[..k];
      FlattenPrefix(front, k);
    } else {
      assert pages[..k] == pages;
    }
  }

  /** Every row of every page is in the listing. */
  lemma {:induction false} FlattenHas(pages: seq<Option<seq<Option<Row>>>>, k: nat, i: nat)
    requires k < |pages| && pages[k].Some? && i < |pages[k].value|
    ensures pages[k].value[i] in Flatten(pages)
    decreases |pages|
  {
    if k < |pages| - 1 {
      FlattenHas(pages[..|pages| - 1], k, i);
    }
  }

  /**
   * Where the start of the instance is: reading the volume records, creating its volume records on
   * a runner, or marking failed those it created.
   */
  datatype Phase =
    | Idle
    | Reading(unread: set<Id>, pin: Id)
    | Creating(todo: seq<Id>, runner: Id, created: seq<Id>)
    | Undoing(todo: seq<Id>)

  /** seen holds the records that the volume loop has listed and not yet acted upon. */
  datatype State = State(volumes: map<Id, Volume>, phase: Phase, seen: map<Id, VolumeStatus>)

  ghost predicate OneRunner(volumes: map<Id, Volume>) {
    forall a, b :: a in volumes && b in volumes && IsOpen(volumes[a].status) && IsOpen(volumes[b].status) ==>
      volumes[a].runner == volumes[b].runner
  }

  ghost predicate AllOn(volumes: map<Id, Volume>, runner: Id) {
    forall v :: v in volumes && IsOpen(volumes[v].status) ==> volumes[v].runner == runner
  }

  function Rewritten(volumes: map<Id, Volume>, v: Id, status: VolumeStatus): map<Id, Volume>
    requires v in volumes
  {
    volumes[v := Volume(status, volumes[v].runner)]
  }

  /** The start begins, reads one more record, places the instance, or gives up. */
  ghost predicate ReadStep(s: State, t: State) {
    && t.volumes == s.volumes && t.seen == s.seen
    && match s.phase
       case Idle => t.phase == Reading(s.volumes.Keys, "")
       case Reading(unread, pin) =>
         || t.phase == Idle
         || (unread == {} && t.phase.Creating? && t.phase.created == []
             && t.phase.runner != "" && (pin == "" || t.phase.runner == pin))
         || exists v :: v in unread && v in s.volumes && ReadsVolume(s.volumes[v], v, unread, pin, t.phase)
       case _ => false
  }

  predicate ReadsVolume(volume: Volume, v: Id, unread: set<Id>, pin: Id, after: Phase) {
    if !IsOpen(volume.status) then after == Reading(unread - {v}, pin)
    else if volume.runner == "" || (pin != "" && pin != volume.runner) then after == Idle
    else after == Reading(unread - {v}, volume.runner)
  }

  /** The next record is created or reopened (with or without an error), found to exist, or not written at all. */
  ghost predicate CreateStep(s: State, t: State) {
    && t.seen == s.seen && s.phase.Creating?
    && if s.phase.todo == [] then t.volumes == s.volumes && t.phase in {Idle, Undoing(s.phase.created)}
       else
         var v, rest := s.phase.todo[0], s.phase.todo[1..];
         || (t.volumes == s.volumes && t.phase == Undoing(s.phase.created))
         || (v in s.volumes && s.volumes[v].runner == s.phase.runner && s.volumes[v].status in {Provisioning, Active}
             && t.volumes == s.volumes && t.phase == Creating(rest, s.phase.runner, s.phase.created))
         || ((v in s.volumes ==> !IsOpen(s.volumes[v].status))
             && t.volumes == s.volumes[v := Volume(Provisioning, s.phase.runner)]
             && t.phase in {Creating(rest, s.phase.runner, s.phase.created + [v]), Undoing(s.phase.created)})
  }

  /** The start marks one of the records it created failed; the write may fail. */
  ghost predicate UndoStep(s: State, t: State) {
    && t.seen == s.seen && s.phase.Undoing?
    && if s.phase.todo == [] then t.volumes == s.volumes && t.phase == Idle
       else
         var v := s.phase.todo[0];
         && t.phase == Undoing(s.phase.todo[1..])
         && (t.volumes == s.volumes || (v in s.volumes && t.volumes == Rewritten(s.volumes, v, VolumeFailed)))
  }

  /** The volume loop lists the open records. */
  ghost predicate ListStep(s: State, t: State) {
    && t.volumes == s.volumes && t.phase == s.phase
    && t.seen == map v | v in s.volumes && IsOpen(s.volumes[v].status) :: s.volumes[v].status
  }

  /** What the volume loop may write for a record listed at a status. */
  predicate MayWrite(listed: VolumeStatus, status: VolumeStatus) {
    match listed
    case Provisioning => status.Active?
    case Active => status.Deprovisioning? || status.Deleted?
    case Deprovisioning => status.Deleted?
    case _ => false
  }

  /** The volume loop acts on a record it has listed, whatever has become of it since. */
  ghost predicate WriteStep(s: State, v: Id, status: VolumeStatus, t: State) {
    && v in s.seen && v in s.volumes && MayWrite(s.seen[v], status)
    && t == s.(volumes := Rewritten(s.volumes, v, status))
  }

  datatype Event = Own | List | Write(v: Id, status: VolumeStatus)

  ghost predicate Step(s: State, e: Event, t: State) {
    match e
    case Own => ReadStep(s, t) || CreateStep(s, t) || UndoStep(s, t)
    case List => ListStep(s, t)
    case Write(v, status) => WriteStep(s, v, status, t)
  }

  /** A late write opens a record that has been closed since. */
  predicate Reopens(s: State, e: Event) {
    e.Write? && e.v in s.volumes && IsOpen(e.status) && !IsOpen(s.volumes[e.v].status)
  }

  ghost predicate AreSteps(run: seq<State>, events: seq<Event>) {
    && |run| == |events| + 1
    && forall k :: 0 <= k < |events| ==> Step(run[k], events[k], run[k + 1])
  }

  ghost predicate IsRun(run: seq<State>, events: seq<Event>) {
    AreSteps(run, events) && run[0].phase == Idle && run[0].seen == map[] && OneRunner(run[0].volumes)
  }

  /** The next record read is open on another runner than one read before. */
  predicate SpansRunners(s: State) {
    && s.phase.Reading? && s.phase.pin != ""
    && exists v ::
      v in s.phase.unread && v in s.volumes && IsOpen(s.volumes[v].status) && s.volumes[v].runner != s.phase.pin
  }

  /** All open volumes are on one runner, and the read does not find otherwise. */
  ghost predicate Holds(s: State) {
    OneRunner(s.volumes) && !SpansRunners(s)
  }

  /** Steps from s without any reopening. */
  ghost predicate IsQuiet(s: State, run: seq<State>, events: seq<Event>) {
    AreSteps(run, events) && run[0] == s && forall k :: 0 <= k < |events| ==> !Reopens(run[k], events[k])
  }

  /** Nothing but another reopening can go wrong from here. */
  ghost predicate IsSafe(s: State) {
    forall run, events :: IsQuiet(s, run, events) ==> Holds(run[|run| - 1])
  }

  ghost predicate OnlyOpen(volumes: map<Id, Volume>, v: Id) {
    forall w :: w in volumes && IsOpen(volumes[w].status) ==> w == v
  }

  /**
   * All open volumes are on one runner. While reading, it is the pin, or nothing read so far is open; while
   * creating, it is the runner chosen, unless nothing is left to create or only the next record is open.
   */
  ghost predicate Invariant(s: State) {
    && OneRunner(s.volumes)
    && match s.phase
       case Reading(unread, pin) =>
         && (pin != "" ==> AllOn(s.volumes, pin))
         && (pin == "" ==> forall v :: v in s.volumes && v !in unread ==> !IsOpen(s.volumes[v].status))
       case Creating(todo, runner, _) => AllOn(s.volumes, runner) || todo == [] || OnlyOpen(s.volumes, todo[0])
       case _ => true
  }

  ghost predicate IsShaped(s: State) {
    match s.phase
    case Reading(unread, pin) => unread <= s.volumes.Keys
    case Creating(_, runner, _) => runner != ""
    case _ => true
  }

  /** What a reopening of v must find: the open volumes, and where the start is, agree with v's runner. */
  ghost predicate MayReopen(s: State, v: Id)
    requires v in s.volumes
  {
    var r := s.volumes[v].runner;
    && AllOn(s.volumes, r)
    && match s.phase
       case Reading(unread, pin) => if pin == "" then v in unread else pin == r
       case Creating(todo, runner, _) => runner == r || todo == [] || (todo[0] == v && OnlyOpen(s.volumes, v))
       case _ => true
  }

  lemma StepKeepsShape(s: State, e: Event, t: State)
    requires IsShaped(s) && Step(s, e, t)
    ensures IsShaped(t)
  {
  }

  lemma QuietStepKeepsInvariant(s: State, e: Event, t: State)
    requires Invariant(s) && Step(s, e, t) && !Reopens(s, e)
    ensures Invariant(t)
  {
  }

  /** A reopening keeps the invariant exactly when it finds what it must. */
  lemma ReopeningKeepsInvariant(s: State, e: Event, t: State)
    requires Invariant(s) && Step(s, e, t) && Reopens(s, e)
    ensures Invariant(t) <==> MayReopen(s, e.v)
  {
    var r := s.volumes[e.v].runner;
    assert t.volumes[e.v] == Volume(e.status, r);
    if OneRunner(t.volumes) {
      forall w | w in s.volumes && IsOpen(s.volumes[w].status) ensures s.volumes[w].runner == r {
        assert t.volumes[w] == s.volumes[w];
      }
    }
    if AllOn(s.volumes, r) {
      assert AllOn(t.volumes, r);
    }
    assert OneRunner(t.volumes) <==> AllOn(s.volumes, r);
  }

  lemma {:induction false} QuietKeepsInvariant(s: State, run: seq<State>, events: seq<Event>, k: nat)
    requires Invariant(s) && IsQuiet(s, run, events) && k < |run|
    ensures Invariant(run[k]) && Holds(run[k])
    decreases k
  {
    if k > 0 {
      QuietKeepsInvariant(s, run, events, k - 1);
      QuietStepKeepsInvariant(run[k - 1], events[k - 1], run[k - 1 + 1]);
    }
  }

  /* Without the invariant, a quiet continuation goes wrong. */

  lemma OneStep(s: State, e: Event, t: State) returns (run: seq<State>, events: seq<Event>)
    requires Step(s, e, t) && !Reopens(s, e)
    ensures IsQuiet(s, run, events) && run[|run| - 1] == t
  {
    run, events := [s, t], [e];
  }

  lemma Joined(s: State, run: seq<State>, events: seq<Event>, run': seq<State>, events': seq<Event>)
    returns (all: seq<State>, allEvents: seq<Event>)
    requires IsQuiet(s, run, events) && IsQuiet(run[|run| - 1], run', events')
    ensures IsQuiet(s, all, allEvents) && all[|all| - 1] == run'[|run'| - 1]
  {
    all, allEvents := run + run'[1..], events + events';
    forall k | 0 <= k < |allEvents|
      ensures Step(all[k], allEvents[k], all[k + 1]) && !Reopens(all[k], allEvents[k])
    {
      if k < |events| {
        assert Step(run[k], events[k], run[k + 1]);
      } else {
        assert Step(run'[k - |events|], events'[k - |events|], run'[k - |events| + 1]);
      }
    }
  }

  function Listed(s: State): State {
    s.(seen := map v | v in s.volumes && IsOpen(s.volumes[v].status) :: s.volumes[v].status)
  }

  /** The volume loop lists the records and moves one of them on. */
  lemma MovesOn(s: State, v: Id, status: VolumeStatus) returns (run: seq<State>, events: seq<Event>)
    requires v in s.volumes && IsOpen(s.volumes[v].status) && MayWrite(s.volumes[v].status, status)
    ensures IsQuiet(s, run, events)
    ensures run[|run| - 1] == Listed(s).(volumes := Rewritten(s.volumes, v, status))
  {
    var mid, t := Listed(s), Listed(s).(volumes := Rewritten(s.volumes, v, status));
    var first, e1 := OneStep(s, List, mid);
    var second, e2 := OneStep(mid, Write(v, status), t);
    run, events := Joined(s, first, e1, second, e2);
  }

  /** It can close any record. */
  lemma Closes(s: State, v: Id) returns (run: seq<State>, events: seq<Event>)
    requires v in s.volumes
    ensures IsQuiet(s, run, events)
    ensures var t := run[|run| - 1];
      && t.phase == s.phase && t.volumes.Keys == s.volumes.Keys && !IsOpen(t.volumes[v].status)
      && forall w :: w in s.volumes && w != v ==> t.volumes[w] == s.volumes[w]
  {
    if !IsOpen(s.volumes[v].status) {
      run, events := [s], [];
    } else if s.volumes[v].status.Provisioning? {
      run, events := MovesOn(s, v, Active);
      var run', events' := MovesOn(run[|run| - 1], v, Deleted);
      run, events := Joined(s, run, events, run', events');
    } else {
      run, events := MovesOn(s, v, Deleted);
    }
  }

  /** The read can be made to find everything closed that it has not read yet. */
  lemma {:induction false} FinishesReading(s: State) returns (run: seq<State>, events: seq<Event>)
    requires s.phase.Reading? && IsShaped(s)
    ensures IsQuiet(s, run, events)
    ensures var t := run[|run| - 1];
      && t.phase == Reading({}, s.phase.pin) && t.volumes.Keys == s.volumes.Keys
      && forall w :: w in s.volumes && w !in s.phase.unread ==> t.volumes[w] == s.volumes[w]
    decreases |s.phase.unread|
  {
    if s.phase.unread == {} {
      run, events := [s], [];
    } else {
      var v :| v in s.phase.unread;
      run, events := Closes(s, v);
      var mid := run[|run| - 1];
      var next := mid.(phase := Reading(s.phase.unread - {v}, s.phase.pin));
      assert ReadsVolume(mid.volumes[v], v, s.phase.unread, s.phase.pin, next.phase);
      var run1, events1 := OneStep(mid, Own, next);
      var run2, events2 := FinishesReading(next);
      run, events := Joined(s, run, events, run1, events1);
      run, events := Joined(s, run, events, run2, events2);
    }
  }

  /** There is always a name that is not taken. */
  lemma {:induction false} LongerThanAll(keys: set<Id>) returns (name: Id)
    ensures forall k :: k in keys ==> |k| < |name|
    decreases |keys|
  {
    name := "";
    if keys != {} {
      var k :| k in keys;
      name := LongerThanAll(keys - {k});
      name := if |k| < |name| then name else k + "x";
    }
  }

  /** With a record open elsewhere, the start creates one on its runner. */
  lemma CreatesApart(s: State, v: Id, w: Id) returns (run: seq<State>, events: seq<Event>)
    requires s.phase.Creating? && s.phase.todo != [] && s.phase.todo[0] == v
    requires w in s.volumes && w != v && IsOpen(s.volumes[w].status) && s.volumes[w].runner != s.phase.runner
    ensures IsQuiet(s, run, events) && !OneRunner(run[|run| - 1].volumes)
  {
    run, events := [s], [];
    if v in s.volumes {
      run, events := Closes(s, v);
    }
    var mid := run[|run| - 1];
    var t := mid.(volumes := mid.volumes[v := Volume(Provisioning, s.phase.runner)],
                  phase := Creating(s.phase.todo[1..], s.phase.runner, s.phase.created + [v]));
    assert CreateStep(mid, t);
    var run1, events1 := OneStep(mid, Own, t);
    run, events := Joined(s, run, events, run1, events1);
    assert t.volumes[w] == s.volumes[w] && t.volumes[v].runner != t.volumes[w].runner;
  }

  /** With a record open that has been read as closed, or off the pin, the start is placed on another runner. */
  lemma PlacedApart(s: State, w: Id) returns (run: seq<State>, events: seq<Event>)
    requires s.phase.Reading? && IsShaped(s) && w in s.volumes && w !in s.phase.unread && IsOpen(s.volumes[w].status)
    requires s.phase.pin == "" || s.phase.pin != s.volumes[w].runner
    ensures IsQuiet(s, run, events) && !OneRunner(run[|run| - 1].volumes)
  {
    run, events := FinishesReading(s);
    var mid := run[|run| - 1];
    var v := LongerThanAll(s.volumes.Keys);
    var runner := if s.phase.pin != "" then s.phase.pin else s.volumes[w].runner + "x";
    var t := mid.(phase := Creating([v], runner, []));
    assert ReadStep(mid, t);
    var run1, events1 := OneStep(mid, Own, t);
    run, events := Joined(s, run, events, run1, events1);
    var run2, events2 := CreatesApart(t, v, w);
    run, events := Joined(s, run, events, run2, events2);
  }

  /** Whatever the start is doing, if the invariant does not hold then a quiet continuation goes wrong. */
  lemma GoesWrong(s: State) returns (run: seq<State>, events: seq<Event>)
    requires IsShaped(s) && !Invariant(s)
    ensures IsQuiet(s, run, events) && !Holds(run[|run| - 1])
  {
    run, events := [s], [];
    if Holds(s) && s.phase.Reading? {
      if s.phase.pin != "" {
        var w :| w in s.volumes && IsOpen(s.volumes[w].status) && s.volumes[w].runner != s.phase.pin;
        run, events := PlacedApart(s, w);
      } else {
        var w :| w in s.volumes && w !in s.phase.unread && IsOpen(s.volumes[w].status);
        run, events := PlacedApart(s, w);
      }
    } else if Holds(s) && s.phase.Creating? {
      var w :| w in s.volumes && IsOpen(s.volumes[w].status) && w != s.phase.todo[0];
      var x :| x in s.volumes && IsOpen(s.volumes[x].status) && s.volumes[x].runner != s.phase.runner;
      assert s.volumes[w].runner == s.volumes[x].runner;
      run, events := CreatesApart(s, s.phase.todo[0], w);
    }
  }

  /** The invariant is exactly what it takes to be safe from anything but another reopening. */
  lemma SafeIffInvariant(s: State)
    requires IsShaped(s)
    ensures IsSafe(s) <==> Invariant(s)
  {
    if Invariant(s) {
      forall run, events | IsQuiet(s, run, events) ensures Holds(run[|run| - 1]) {
        QuietKeepsInvariant(s, run, events, |run| - 1);
      }
    } else {
      var run, events := GoesWrong(s);
      assert IsQuiet(s, run, events) && !Holds(run[|run| - 1]);
    }
  }

  lemma {:induction false} RunIsShaped(run: seq<State>, events: seq<Event>, k: nat)
    requires IsRun(run, events) && k < |run|
    ensures IsShaped(run[k])
    decreases k
  {
    if k > 0 {
      RunIsShaped(run, events, k - 1);
      StepKeepsShape(run[k - 1], events[k - 1], run[k - 1 + 1]);
    }
  }

  /** Every reopening in the run finds what it must. */
  ghost predicate ReopensWell(run: seq<State>, events: seq<Event>, k: nat)
    requires IsRun(run, events) && k <= |events|
  {
    forall j :: 0 <= j < k && Reopens(run[j], events[j]) ==> MayReopen(run[j], events[j].v)
  }

  lemma {:induction false} InvariantUpTo(run: seq<State>, events: seq<Event>, k: nat)
    requires IsRun(run, events) && k < |run| && ReopensWell(run, events, k)
    ensures Invariant(run[k]) && Holds(run[k])
    decreases k
  {
    if k > 0 {
      InvariantUpTo(run, events, k - 1);
      assert Step(run[k - 1], events[k - 1], run[k - 1 + 1]);
      if Reopens(run[k - 1], events[k - 1]) {
        ReopeningKeepsInvariant(run[k - 1], events[k - 1], run[k]);
      } else {
        QuietStepKeepsInvariant(run[k - 1], events[k - 1], run[k]);
      }
    }
  }

  /**
   * In a run the open volumes of the instance are on one runner, no read finds them to span runners, and no
   * continuation without another reopening can change that, at any time, exactly when every late write
   * that reopens a closed record finds the open volumes and the start under way in agreement with it.
   */
  lemma OneRunnerPerInstance(run: seq<State>, events: seq<Event>)
    requires IsRun(run, events)
    ensures (forall k :: 0 <= k < |run| ==> IsSafe(run[k])) <==> ReopensWell(run, events, |events|)
    ensures ReopensWell(run, events, |events|) ==> forall k :: 0 <= k < |run| ==> Holds(run[k])
  {
    if ReopensWell(run, events, |events|) {
      forall k | 0 <= k < |run| ensures IsSafe(run[k]) && Holds(run[k]) {
        InvariantUpTo(run, events, k);
        RunIsShaped(run, events, k);
        SafeIffInvariant(run[k]);
      }
    }
    if forall k :: 0 <= k < |run| ==> IsSafe(run[k]) {
      forall j | 0 <= j < |events| && Reopens(run[j], events[j]) ensures MayReopen(run[j], events[j].v) {
        RunIsShaped(run, events, j);
        RunIsShaped(run, events, j + 1);
        assert IsSafe(run[j]) && IsSafe(run[j + 1]);
        SafeIffInvariant(run[j]);
        SafeIffInvariant(run[j + 1]);
        ReopeningKeepsInvariant(run[j], events[j], run[j + 1]);
      }
    }
  }

  /* Such a reopening can be reached. */

  lemma Appended(run: seq<State>, events: seq<Event>, e: Event, t: State)
    returns (run': seq<State>, events': seq<Event>)
    requires IsRun(run, events) && Step(run[|run| - 1], e, t)
    ensures IsRun(run', events') && run'[|run'| - 1] == t
  {
    run', events' := run + [t], events + [e];
  }

  /** A start on the given runner creates its only record. */
  lemma Creates(run: seq<State>, events: seq<Event>, v: Id, runner: Id) returns (run': seq<State>, events': seq<Event>)
    requires IsRun(run, events) && run[|run| - 1].phase == Reading({}, "") && runner != ""
    requires var s := run[|run| - 1]; v in s.volumes ==> !IsOpen(s.volumes[v].status)
    ensures var s := run[|run| - 1];
      && IsRun(run', events')
      && run'[|run'| - 1] == State(s.volumes[v := Volume(Provisioning, runner)], Creating([], runner, [v]), s.seen)
  {
    var s := run[|run| - 1];
    var mid := s.(phase := Creating([v], runner, []));
    var t := State(s.volumes[v := Volume(Provisioning, runner)], Creating([], runner, [v]), s.seen);
    assert [v][1..] == [] && [] + [v] == [v];
    assert ReadStep(s, mid) && CreateStep(mid, t);
    run', events' := Appended(run, events, Own, mid);
    run', events' := Appended(run', events', Own, t);
  }

  /** A start on runner A creates v, which the volume loop lists, and fails; the next start finds v closed. */
  lemma FailsOnA() returns (run: seq<State>, events: seq<Event>)
    ensures IsRun(run, events)
    ensures run[|run| - 1] == State(map["v" := Volume(VolumeFailed, "A")], Reading({}, ""), map["v" := Provisioning])
  {
    var s0 := State(map[], Idle, map[]);
    var s1 := s0.(phase := Reading({}, ""));
    run, events := [s0, s1], [Own];
    assert ReadStep(s0, s1);
    run, events := Creates(run, events, "v", "A");
    var s3 := run[|run| - 1];
    var s4 := s3.(seen := map["v" := Provisioning]);
    var s5 := s4.(phase := Undoing(["v"]));
    var s6 := s5.(volumes := map["v" := Volume(VolumeFailed, "A")], phase := Undoing([]));
    var s7 := s6.(phase := Idle);
    var s8 := s6.(phase := Reading({"v"}, ""));
    var s9 := s6.(phase := Reading({}, ""));
    assert {"v"} - {"v"} == {};
    assert ReadsVolume(s8.volumes["v"], "v", {"v"}, "", s9.phase);
    run, events := Appended(run, events, List, s4);
    run, events := Appended(run, events, Own, s5);
    run, events := Appended(run, events, Own, s6);
    run, events := Appended(run, events, Own, s7);
    run, events := Appended(run, events, Own, s8);
    run, events := Appended(run, events, Own, s9);
  }

  /**
   * That start goes to runner B. Then the volume loop, which had listed v while it was provisioning, finds
   * its disk and writes it active again: the open volumes are on two runners.
   */
  lemma SpanningRun() returns (run: seq<State>, events: seq<Event>)
    ensures IsRun(run, events) && !OneRunner(run[|run| - 1].volumes)
    ensures |events| > 0 && Reopens(run[|run| - 2], events[|events| - 1])
  {
    run, events := FailsOnA();
    run, events := Creates(run, events, "w", "B");
    var s := run[|run| - 1];
    var t := s.(volumes := Rewritten(s.volumes, "v", Active));
    assert MayWrite(s.seen["v"], Active);
    assert t.volumes["v"] == Volume(Active, "A") && t.volumes["w"] == Volume(Provisioning, "B");
    run, events := run + [t], events + [Write("v", Active)];
  }
}
