/** What whole runs of sampling cycles bill for one workload, with crashes between the sink and the cursor. */
module MeteringRuns {
  import opened Records
  import opened Metering

  /** windows were billed by complete cycles, repeats by cycles that lost the cursor write. */
  datatype State = State(w: Workload, windows: seq<Window>, repeats: seq<Window>, sink: seq<Usage>)

  datatype Event = Sampled(now: Time, outcome: Outcome) | Removed(at: Time)

  function Bill(window: Window): seq<Window> {
    if window.start < window.end then [window] else []
  }

  ghost predicate Step(s: State, e: Event, t: State) {
    match e
    case Removed(at) => s.w.removedAt.None? && t == s.(w := s.w.(removedAt := Some(at)))
    case Sampled(now, outcome) =>
      if outcome.Aborted? then t == s
      else
        && SampleWorkload(s.w, now).Ok?
        && t.sink == s.sink + RecordOf(SampleWorkload(s.w, now).value)
        && var window := SampleWindow(s.w, now).value;
           if outcome.SinkOnly? then t == s.(repeats := s.repeats + Bill(window), sink := t.sink)
           else t == s.(w := Advanced(s.w, now), windows := s.windows + Bill(window), sink := t.sink)
  }

  ghost predicate IsFor(usage: Usage, id: Id) {
    exists end :: usage.key == WorkloadKey(id, end)
  }

  /** What the sink holds for one workload. */
  ghost function ShareOf(sink: seq<Usage>, id: Id): seq<Usage> {
    if sink == [] then []
    else
      var last := sink[|sink| - 1];
      ShareOf(sink[..|sink| - 1], id) + if IsFor(last, id) then [last] else []
  }

  lemma {:induction false} ShareOfConcat(a: seq<Usage>, b: seq<Usage>, id: Id)
    ensures ShareOf(a + b, id) == ShareOf(a, id) + ShareOf(b, id)
    decreases |b|
  {
    if b == [] {
      assert a + b == a;
    } else {
      assert (a + b)[..|a + b| - 1] == a + b[..|b| - 1];
      ShareOfConcat(a, b[..|b| - 1], id);
    }
  }

  predicate HasDistinctIds(workloads: seq<Workload>) {
    forall i, j :: 0 <= i < j < |workloads| ==> workloads[i].id != workloads[j].id
  }

  /** A workload's sample is billed to that workload and to no other. */
  lemma ShareOfOne(w: Workload, now: Time, id: Id)
    requires SampleWorkload(w, now).Ok?
    ensures ShareOf(RecordOf(SampleWorkload(w, now).value), id)
         == if w.id == id then RecordOf(SampleWorkload(w, now).value) else []
  {
    var sample := SampleWorkload(w, now).value;
    if sample.record.Some? {
      var record := sample.record.value;
      assert RecordOf(sample)[..0] == [] && ShareOf([], id) == [];
      forall end | record.key == WorkloadKey(id, end) ensures w.id == id {
        KeysIdentify(w.id, SampleWindow(w, now).value.end, id, end);
      }
    }
  }

  lemma ShareOfLast(workloads: seq<Workload>, now: Time, id: Id)
    requires workloads != [] && AllSampled(workloads, now)
    ensures AllSampled(workloads[..|workloads| - 1], now)
    ensures var last := workloads[|workloads| - 1];
      ShareOf(RecordsOf(workloads, now), id) == ShareOf(RecordsOf(workloads[..|workloads| - 1], now), id)
        + if last.id == id then RecordOf(SampleWorkload(last, now).value) else []
  {
    hide SampleWorkload;
    var rest, last := workloads[..|workloads| - 1], workloads[|workloads| - 1];
    ShareOfOne(last, now, id);
    ShareOfConcat(RecordsOf(rest, now), RecordOf(SampleWorkload(last, now).value), id);
  }

  lemma {:induction false} ShareOfNone(workloads: seq<Workload>, now: Time, id: Id)
    requires AllSampled(workloads, now) && forall i :: 0 <= i < |workloads| ==> workloads[i].id != id
    ensures ShareOf(RecordsOf(workloads, now), id) == []
    decreases |workloads|
  {
    if workloads != [] {
      hide SampleWorkload;
      ShareOfLast(workloads, now, id);
      ShareOfNone(workloads[..|workloads| - 1], now, id);
    }
  }

  /** The records of a cycle for one of the workloads. */
  lemma {:induction false} ShareOfRecords(workloads: seq<Workload>, now: Time, i: nat)
    requires AllSampled(workloads, now) && HasDistinctIds(workloads) && i < |workloads|
    ensures ShareOf(RecordsOf(workloads, now), workloads[i].id) == RecordOf(SampleWorkload(workloads[i], now).value)
    decreases |workloads|
  {
    hide SampleWorkload;
    var rest := workloads[..|workloads| - 1];
    ShareOfLast(workloads, now, workloads[i].id);
    if i == |workloads| - 1 {
      ShareOfNone(rest, now, workloads[i].id);
    } else {
      assert rest[i] == workloads[i];
      ShareOfRecords(rest, now, i);
    }
  }

  /** What a cycle over all workloads does to one of them, and to its share of the sink, is a step of its run. */
  lemma CycleIsStep(
    before: seq<Workload>, after: seq<Workload>, sinkBefore: seq<Usage>, sinkAfter: seq<Usage>, now: Time,
    outcome: Outcome, i: nat, windows: seq<Window>, repeats: seq<Window>) returns (t: State)
    requires CycleOutcome(before, after, sinkBefore, sinkAfter, now, outcome) && HasDistinctIds(before)
    requires i < |before|
    ensures t.w == after[i] && t.sink == ShareOf(sinkAfter, before[i].id)
    ensures Step(State(before[i], windows, repeats, ShareOf(sinkBefore, before[i].id)), Sampled(now, outcome), t)
  {
    var id := before[i].id;
    t := State(after[i], windows, repeats, ShareOf(sinkAfter, id));
    if !outcome.Aborted? {
      ShareOfRecords(before, now, i);
      ShareOfConcat(sinkBefore, RecordsOf(before, now), id);
      var bill := Bill(SampleWindow(before[i], now).value);
      t := if outcome.SinkOnly? then t.(repeats := repeats + bill) else t.(windows := windows + bill);
    }
  }

  /** A run begins with a workload that has been created, and neither sampled nor removed. */
  ghost predicate IsRun(run: seq<State>, events: seq<Event>) {
    && |run| == |events| + 1
    && run[0].w.createdAt.Some? && run[0].w.sampledAt.None? && run[0].w.removedAt.None?
    && run[0].windows == [] && run[0].repeats == [] && run[0].sink == []
    && forall k :: 0 <= k < |events| ==> Step(run[k], events[k], run[k + 1])
  }

  function Cursor(w: Workload): Time
    requires w.createdAt.Some?
  {
    if w.sampledAt.Some? then w.sampledAt.value else w.createdAt.value
  }

  /** The windows follow each other without gap or overlap, from one instant to the other. */
  predicate Tiles(windows: seq<Window>, from: Time, to: Time) {
    if windows == [] then from == to
    else
      var last := windows[|windows| - 1];
      last.start < last.end == to && Tiles(windows[..|windows| - 1], from, last.start)
  }

  function EndOf(windows: seq<Window>, from: Time): Time {
    if windows == [] then from else windows[|windows| - 1].end
  }

  /** The windows' values, in whole units each. */
  function Total(windows: seq<Window>): int {
    if windows == [] then 0
    else Total(windows[..|windows| - 1]) + (windows[|windows| - 1].end - windows[|windows| - 1].start) / UNIT
  }

  function TotalOf(sink: seq<Usage>): int {
    if sink == [] then 0 else TotalOf(sink[..|sink| - 1]) + sink[|sink| - 1].value
  }

  /** The cycle does not move the cursor backward. */
  predicate Forward(w: Workload, now: Time)
    requires w.createdAt.Some?
  {
    Cursor(w) <= if w.removedAt.Some? then w.removedAt.value else now
  }

  /** All complete cycles among the first k have moved forward. */
  ghost predicate AllForward(run: seq<State>, events: seq<Event>, k: nat)
    requires |run| == |events| + 1 && k <= |events|
  {
    forall j :: 0 <= j < k && events[j].Sampled? && events[j].outcome.Complete? ==>
      run[j].w.createdAt.Some? && Forward(run[j].w, events[j].now)
  }

  /** What a run leaves fixed. */
  lemma {:induction false} Fixed(run: seq<State>, events: seq<Event>, k: nat)
    requires IsRun(run, events) && k < |run|
    ensures run[k].w == run[0].w.(sampledAt := run[k].w.sampledAt, removedAt := run[k].w.removedAt)
    decreases k
  {
    if k > 0 {
      assert Step(run[k - 1], events[k - 1], run[k - 1 + 1]);
      Fixed(run, events, k - 1);
    }
  }

  lemma AppendTile(windows: seq<Window>, window: Window, from: Time, to: Time)
    ensures Tiles(windows + [window], from, to) <==>
      window.start < window.end == to && Tiles(windows, from, window.start)
    ensures Total(windows + [window]) == Total(windows) + (window.end - window.start) / UNIT
  {
    assert (windows + [window])[..|windows|] == windows;
  }

  /** Once a cycle has moved backward, the windows overlap, or reach beyond the cursor. */
  ghost predicate IsBroken(windows: seq<Window>, from: Time, cursor: Time) {
    !Tiles(windows, from, EndOf(windows, from)) || EndOf(windows, from) > cursor
  }

  lemma ForwardTiles(windows: seq<Window>, window: Window, from: Time)
    requires Tiles(windows, from, window.start) && window.start <= window.end
    ensures Tiles(windows + Bill(window), from, window.end)
  {
    AppendTile(windows, window, from, window.end);
    assert windows + [] == windows;
  }

  lemma BackwardBreaks(windows: seq<Window>, window: Window, from: Time)
    requires Tiles(windows, from, window.start) && window.end < window.start
    ensures IsBroken(windows + Bill(window), from, window.end)
  {
    TilesEndsOnce(windows, from, window.start);
    assert windows + [] == windows;
  }

  lemma StaysBroken(windows: seq<Window>, window: Window, from: Time)
    requires IsBroken(windows, from, window.start)
    ensures IsBroken(windows + Bill(window), from, window.end)
  {
    AppendTile(windows, window, from, window.end);
    TilesEndsOnce(windows, from, window.start);
    assert windows + [] == windows;
  }

  ghost predicate TiledOr(tiled: bool, windows: seq<Window>, from: Time, cursor: Time) {
    if tiled then Tiles(windows, from, cursor) else IsBroken(windows, from, cursor)
  }

  predicate MovesBackward(s: State, e: Event)
    requires s.w.createdAt.Some?
  {
    e.Sampled? && e.outcome.Complete? && !Forward(s.w, e.now)
  }

  lemma TiledStep(s: State, e: Event, t: State, from: Time, tiled: bool)
    requires Step(s, e, t) && s.w.createdAt.Some? && TiledOr(tiled, s.windows, from, Cursor(s.w))
    ensures t.w.createdAt == s.w.createdAt
    ensures TiledOr(tiled && !MovesBackward(s, e), t.windows, from, Cursor(t.w))
  {
    if e.Sampled? && e.outcome.Complete? {
      CompleteStep(s.windows, SampleWindow(s.w, e.now).value, from, tiled);
    }
  }

  lemma {:induction false} TiledOrBroken(run: seq<State>, events: seq<Event>, k: nat)
    requires IsRun(run, events) && k < |run|
    ensures run[k].w.createdAt == run[0].w.createdAt
    ensures TiledOr(AllForward(run, events, k), run[k].windows, run[0].w.createdAt.value, Cursor(run[k].w))
    decreases k
  {
    if k > 0 {
      assert Step(run[k - 1], events[k - 1], run[k - 1 + 1]);
      TiledOrBroken(run, events, k - 1);
      assert AllForward(run, events, k) <==>
        AllForward(run, events, k - 1) && !MovesBackward(run[k - 1], events[k - 1]);
      hide Step;
      TiledStep(run[k - 1], events[k - 1], run[k], run[0].w.createdAt.value, AllForward(run, events, k - 1));
    }
  }

  lemma CompleteStep(windows: seq<Window>, window: Window, from: Time, tiled: bool)
    requires if tiled then Tiles(windows, from, window.start) else IsBroken(windows, from, window.start)
    ensures
      if tiled && window.start <= window.end then Tiles(windows + Bill(window), from, window.end)
      else IsBroken(windows + Bill(window), from, window.end)
  {
    if !tiled {
      StaysBroken(windows, window, from);
    } else if window.start <= window.end {
      ForwardTiles(windows, window, from);
    } else {
      BackwardBreaks(windows, window, from);
    }
  }

  lemma TilesEndsOnce(windows: seq<Window>, from: Time, to: Time)
    ensures Tiles(windows, from, to) ==> to == EndOf(windows, from)
  {
  }

  /**
   * However many cycles abort or lose their cursor write, the windows of the complete ones cover the
   * workload's life from creation to its cursor, without gap or overlap, exactly when no complete cycle
   * has moved the cursor backward: when the cursor it read was not after the removal, or after now.
   */
  lemma WindowsTileIff(run: seq<State>, events: seq<Event>, k: nat)
    requires IsRun(run, events) && k < |run|
    ensures run[k].w.createdAt.Some?
    ensures Tiles(run[k].windows, run[0].w.createdAt.value, Cursor(run[k].w)) <==> AllForward(run, events, k)
  {
    TiledOrBroken(run, events, k);
    TilesEndsOnce(run[k].windows, run[0].w.createdAt.value, Cursor(run[k].w));
  }

  /**
   * The clock does not go back, the workload was created before it was sampled, and no removal is before the
   * cursor.
   */
  ghost predicate IsOrderly(run: seq<State>, events: seq<Event>)
    requires IsRun(run, events)
  {
    && (forall i, j :: 0 <= i < j < |events| && events[i].Sampled? && events[j].Sampled? ==>
      events[i].now <= events[j].now)
    && (forall i :: 0 <= i < |events| && events[i].Sampled? ==> run[0].w.createdAt.value <= events[i].now)
    && (forall i :: 0 <= i < |events| && events[i].Removed? ==>
      run[i].w.createdAt.Some? && Cursor(run[i].w) <= events[i].at)
  }

  lemma {:induction false} OrderlyCursor(run: seq<State>, events: seq<Event>, k: nat)
    requires IsRun(run, events) && IsOrderly(run, events) && k < |run|
    ensures run[k].w.createdAt == run[0].w.createdAt
    ensures run[k].w.removedAt.Some? ==> Cursor(run[k].w) <= run[k].w.removedAt.value
    ensures run[k].w.removedAt.None? ==>
      forall j :: k <= j < |events| && events[j].Sampled? ==> Cursor(run[k].w) <= events[j].now
    decreases k
  {
    if k > 0 {
      assert Step(run[k - 1], events[k - 1], run[k - 1 + 1]);
      OrderlyCursor(run, events, k - 1);
    }
  }

  /**
   * In an orderly run the windows tile, and their values fall short of the time they cover by less than a
   * unit each.
   */
  lemma OrderlyRunsTile(run: seq<State>, events: seq<Event>, k: nat)
    requires IsRun(run, events) && IsOrderly(run, events) && k < |run|
    ensures run[k].w.createdAt.Some?
    ensures var from, cursor := run[0].w.createdAt.value, Cursor(run[k].w);
      && Tiles(run[k].windows, from, cursor)
      && Total(run[k].windows) * UNIT <= cursor - from <= Total(run[k].windows) * UNIT + |run[k].windows| * (UNIT - 1)
  {
    forall j | 0 <= j < k && events[j].Sampled? && events[j].outcome.Complete?
      ensures run[j].w.createdAt.Some? && Forward(run[j].w, events[j].now)
    {
      OrderlyCursor(run, events, j);
    }
    WindowsTileIff(run, events, k);
    TotalOfTiles(run[k].windows, run[0].w.createdAt.value, Cursor(run[k].w));
  }

  lemma {:induction false} TotalOfTiles(windows: seq<Window>, from: Time, to: Time)
    requires Tiles(windows, from, to)
    ensures Total(windows) * UNIT <= to - from <= Total(windows) * UNIT + |windows| * (UNIT - 1)
    decreases |windows|
  {
    if windows != [] {
      TotalOfTiles(windows[..|windows| - 1], from, windows[|windows| - 1].start);
    }
  }

  /** Whatever is sampled is billed as the value of its window. */
  lemma RecordValue(w: Workload, now: Time)
    requires SampleWorkload(w, now).Ok? && w.flavor != ""
    ensures TotalOf(RecordOf(SampleWorkload(w, now).value)) == Total(Bill(SampleWindow(w, now).value))
  {
    var window := SampleWindow(w, now).value;
    AppendTile([], window, 0, 0);
    assert [] + [window] == [window];
    var record := RecordOf(SampleWorkload(w, now).value);
    assert record != [] ==> record[..0] == [];
  }

  lemma AppendUsage(sink: seq<Usage>, more: seq<Usage>)
    requires |more| <= 1
    ensures TotalOf(sink + more) == TotalOf(sink) + TotalOf(more)
  {
    if more == [] {
      assert sink + more == sink;
    } else {
      assert (sink + more)[..|sink|] == sink && more[..0] == [];
    }
  }

  lemma AppendBill(windows: seq<Window>, window: Window)
    ensures Total(windows + Bill(window)) == Total(windows) + Total(Bill(window))
  {
    AppendTile(windows, window, 0, 0);
    AppendTile([], window, 0, 0);
    assert [] + [window] == [window] && windows + [] == windows;
  }

  /** The sink holds what the complete cycles bill and, on top, exactly what the repeated windows bill. */
  lemma {:induction false} OverCountIsRepeats(run: seq<State>, events: seq<Event>, k: nat)
    requires IsRun(run, events) && k < |run| && run[0].w.flavor != ""
    ensures TotalOf(run[k].sink) == Total(run[k].windows) + Total(run[k].repeats)
    decreases k
  {
    if k > 0 {
      var s, e := run[k - 1], events[k - 1];
      assert Step(s, e, run[k - 1 + 1]);
      Fixed(run, events, k - 1);
      OverCountIsRepeats(run, events, k - 1);
      if e.Sampled? && !e.outcome.Aborted? {
        var window := SampleWindow(s.w, e.now).value;
        RecordValue(s.w, e.now);
        AppendUsage(s.sink, RecordOf(SampleWorkload(s.w, e.now).value));
        AppendBill(s.windows, window);
        AppendBill(s.repeats, window);
      }
    }
  }

  /**
   * A workload that has been removed is billed the same record, with the same key, by every cycle until
   * one completes: a sink that ignores repeated keys bills it once.
   */
  lemma {:induction false} RetriesRepeat(run: seq<State>, events: seq<Event>, i: nat, k: nat)
    requires IsRun(run, events) && i <= k < |run| && run[i].w.removedAt.Some?
    requires forall j :: i <= j < k && events[j].Sampled? && events[j].outcome.Complete? ==> j == k - 1
    ensures run[i].sink <= run[k].sink
    ensures forall u, v :: |run[i].sink| <= u < |run[k].sink| && |run[i].sink| <= v < |run[k].sink| ==>
      run[k].sink[u] == run[k].sink[v]
    ensures (forall j :: i <= j < k && events[j].Sampled? ==> !events[j].outcome.Complete?) ==> run[k].w == run[i].w
    ensures |run[i].sink| < |run[k].sink| ==>
      exists now ::
        SampleWorkload(run[i].w, now).Ok?
        && SampleWorkload(run[i].w, now).value.record == Some(run[k].sink[|run[k].sink| - 1])
    decreases k
  {
    if i < k {
      assert Step(run[k - 1], events[k - 1], run[k - 1 + 1]);
      RetriesRepeat(run, events, i, k - 1);
    }
  }

  /** A removal that is recorded late, before the cursor, leaves the workload billed beyond it. */
  lemma LateRemovalOverBills() returns (run: seq<State>, events: seq<Event>)
    ensures IsRun(run, events) && |run| == 4
    ensures run[3].w.createdAt == Some(0) && run[3].w.removedAt == Some(5 * SECOND) && Cursor(run[3].w) == 5 * SECOND
    ensures Total(run[3].windows) * UNIT == 9 * SECOND
  {
    var w := Workload("w", Some(0), None, None, "o", true, "small");
    var usage := Usage(WorkloadKey("w", 9 * SECOND), "o", "small", 9_000_000);
    var s0 := State(w, [], [], []);
    var s1 := State(w.(sampledAt := Some(9 * SECOND)), [Window(0, 9 * SECOND)], [], [usage]);
    var s2 := s1.(w := s1.w.(removedAt := Some(5 * SECOND)));
    var s3 := s2.(w := s2.w.(sampledAt := Some(5 * SECOND)));
    AppendTile([], Window(0, 9 * SECOND), 0, 0);
    assert [] + [Window(0, 9 * SECOND)] == [Window(0, 9 * SECOND)];
    run, events :=
      [s0, s1, s2, s3], [Sampled(9 * SECOND, Complete), Removed(5 * SECOND), Sampled(10 * SECOND, Complete)];
    assert Step(s0, events[0], s1) && Step(s1, events[1], s2) && Step(s2, events[2], s3);
  }
}
