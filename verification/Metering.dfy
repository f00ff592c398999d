/** Usage sampling of workloads (internal/reconciler/metering_sample.go). */
module Metering {
  import opened Records

  const UNIT: Time := 1000  // nanoseconds in a micro-second, the unit of a billed value

  datatype Workload = Workload(
    id: Id, createdAt: Option<Time>, sampledAt: Option<Time>, removedAt: Option<Time>,
    organization: Id, attributable: bool, flavor: string)

  datatype Window = Window(start: Time, end: Time)

  datatype Usage = Usage(key: string, organization: Id, flavor: string, value: int)

  /** What sampling one workload comes to: perhaps a record, and always a new cursor. */
  datatype Sample = Sample(record: Option<Usage>, cursor: Time)

  /** From the cursor, or from creation, to removal, or until now. */
  function SampleWindow(w: Workload, now: Time): Option<Window> {
    var start := if w.sampledAt.Some? then w.sampledAt else w.createdAt;
    if start.None? then None
    else Some(Window(start.value, if w.removedAt.Some? then w.removedAt.value else now))
  }

  /** Whole micro-seconds, rounded down; a negative duration is an error. */
  function MicroFlavorSeconds(duration: Time): (r: Option<int>)
    ensures r.None? <==> duration < 0
    ensures r.Some? ==> r.value * UNIT <= duration < (r.value + 1) * UNIT
  {
    if duration < 0 then None else Some(duration / UNIT)
  }

  function Digits(n: nat): string {
    if n < 10 then [Digit(n)] else Digits(n / 10) + [Digit(n % 10)]
  }

  function Digit(d: nat): char
    requires d < 10
  {
    '0' + d as char
  }

  function Decimal(n: int): string {
    if n < 0 then "-" + Digits(-n) else Digits(n)
  }

  /** The parts of a key, joined by colons; kind may be missing. */
  function MeteringKey(resource: string, id: Id, unit: string, kind: string, end: Time): string {
    resource + ":" + id + ":" + unit + ":" + Decimal(end) + if kind == "" then "" else ":" + kind
  }

  function WorkloadKey(id: Id, end: Time): string {
    MeteringKey("workload", id, "flavor_seconds", "", end)
  }

  /** An error stops the whole sampling cycle. */
  function SampleWorkload(w: Workload, now: Time): Result<Sample> {
    var window := SampleWindow(w, now);
    if w.id == "" || window.None? then Err
    else
      var start, end := window.value.start, window.value.end;
      if end <= start then Ok(Sample(None, end))
      else if w.organization == "" || !w.attributable then Err
      else if w.flavor == "" then Ok(Sample(None, end))
      else
        var value := MicroFlavorSeconds(end - start);
        if value.None? then Err
        else if value.value <= 0 then Ok(Sample(None, end))
        else Ok(Sample(Some(Usage(WorkloadKey(w.id, end), w.organization, w.flavor, value.value)), end))
  }

  predicate AllSampled(workloads: seq<Workload>, now: Time) {
    forall i :: 0 <= i < |workloads| ==> SampleWorkload(workloads[i], now).Ok?
  }

  function RecordOf(sample: Sample): seq<Usage> {
    if sample.record.Some? then [sample.record.value] else []
  }

  /** All the records of a cycle, in order. */
  function RecordsOf(workloads: seq<Workload>, now: Time): seq<Usage>
    requires AllSampled(workloads, now)
  {
    if workloads == [] then []
    else RecordsOf(workloads[..|workloads| - 1], now) + RecordOf(SampleWorkload(workloads[|workloads| - 1], now).value)
  }

  /** How far a cycle gets: nothing is written, only the sink, or the sink and the cursors. */
  datatype Outcome = Aborted | SinkOnly | Complete

  /** What a cycle makes of the workloads and the sink. */
  ghost predicate CycleOutcome(
    before: seq<Workload>, after: seq<Workload>, sinkBefore: seq<Usage>, sinkAfter: seq<Usage>, now: Time,
    outcome: Outcome)
  {
    && |after| == |before|
    && (outcome.Aborted? ==> sinkAfter == sinkBefore)
    && (!outcome.Aborted? ==> AllSampled(before, now) && sinkAfter == sinkBefore + RecordsOf(before, now))
    && if outcome.Complete? then forall i :: 0 <= i < |before| ==> after[i] == Advanced(before[i], now)
       else after == before
  }

  class Meter {
    var workloads: seq<Workload>
    var sink: seq<Usage>
    ghost var faults: nat  // calls that have failed

    /** The sink takes all the records of a cycle or none. */
    method Record(records: seq<Usage>) returns (ok: bool)
      modifies `sink, `faults
      ensures faults == old(faults) + if ok then 0 else 1
      ensures sink == if ok then old(sink) + records else old(sink)
    {
      ok := *;
      if ok {
        sink := sink + records;
      } else {
        faults := faults + 1;
      }
    }

    /** All the cursors are written, or none. */
    method UpdateSampledAt(cursors: seq<Time>) returns (ok: bool)
      requires |cursors| == |workloads|
      modifies `workloads, `faults
      ensures faults == old(faults) + if ok then 0 else 1
      ensures !ok ==> workloads == old(workloads)
      ensures |workloads| == |old(workloads)|
      ensures ok ==>
        forall i :: 0 <= i < |workloads| ==> workloads[i] == old(workloads)[i].(sampledAt := Some(cursors[i]))
    {
      ok := *;
      if !ok {
        faults := faults + 1;
      } else {
        var rows := workloads;
        workloads :=
          seq(|rows|, i requires 0 <= i < |rows| && |cursors| == |rows| => rows[i].(sampledAt := Some(cursors[i])));
      }
    }

    /** A cycle over the workloads: one that cannot be sampled keeps every other one from being billed. */
    method SampleMetering(now: Time) returns (outcome: Outcome)
      modifies this
      ensures faults >= old(faults)
      ensures faults == old(faults) ==> (outcome.Complete? <==> AllSampled(old(workloads), now)) && !outcome.SinkOnly?
      ensures CycleOutcome(old(workloads), workloads, old(sink), sink, now, outcome)
    {
      hide SampleWorkload;
      var records, cursors := Collect(workloads, now);
      if records.None? {
        return Aborted;
      }
      if workloads == [] {
        return Complete;
      }
      if records.value != [] {
        var recorded := Record(records.value);
        if !recorded {
          return Aborted;
        }
      }
      var updated := UpdateSampledAt(cursors);
      return if updated then Complete else SinkOnly;
    }
  }

  /** The workload once its cursor has been written. */
  function Advanced(w: Workload, now: Time): Workload
    requires SampleWorkload(w, now).Ok?
  {
    w.(sampledAt := Some(SampleWorkload(w, now).value.cursor))
  }

  /** None when some workload cannot be sampled. */
  method Collect(workloads: seq<Workload>, now: Time) returns (records: Option<seq<Usage>>, cursors: seq<Time>)
    ensures records.Some? <==> AllSampled(workloads, now)
    ensures records.Some? ==> records.value == RecordsOf(workloads, now) && |cursors| == |workloads|
    ensures records.Some? ==>
      forall i :: 0 <= i < |workloads| ==> cursors[i] == SampleWorkload(workloads[i], now).value.cursor
  {
    hide SampleWorkload;
    var found: seq<Usage> := [];
    cursors := [];
    for k := 0 to |workloads|
      invariant AllSampled(workloads[..k], now) && found == RecordsOf(workloads[..k], now)
      invariant |cursors| == k
      invariant forall i :: 0 <= i < k ==> cursors[i] == SampleWorkload(workloads[..k][i], now).value.cursor
    {
      var sample := SampleWorkload(workloads[k], now);
      assert workloads[..k + 1][..k] == workloads[..k] && workloads[..k + 1][k] == workloads[k];
      if sample.Err? {
        return None, cursors;
      }
      found := found + RecordOf(sample.value);
      cursors := cursors + [sample.value.cursor];
    }
    assert workloads[..|workloads|] == workloads;
    records := Some(found);
  }

  /** Decimal notation has no colon and is never empty. */
  lemma {:induction false} DigitsPlain(n: nat)
    ensures |Digits(n)| > 0 && forall i :: 0 <= i < |Digits(n)| ==> '0' <= Digits(n)[i] <= '9'
    decreases n
  {
    if n >= 10 {
      DigitsPlain(n / 10);
    }
  }

  lemma {:induction false} DigitsInjective(m: nat, n: nat)
    requires Digits(m) == Digits(n)
    ensures m == n
    decreases m
  {
    DigitsPlain(m / 10);
    DigitsPlain(n / 10);
    var s := Digits(m);
    assert s[|s| - 1] == Digit(m % 10) && s[|s| - 1] == Digit(n % 10);
    if m >= 10 && n >= 10 {
      assert s[..|s| - 1] == Digits(m / 10) && s[..|s| - 1] == Digits(n / 10);
      DigitsInjective(m / 10, n / 10);
    }
  }

  lemma DecimalPlain(n: int)
    ensures |Decimal(n)| > 0 && forall i :: 0 <= i < |Decimal(n)| ==> Decimal(n)[i] != ':'
  {
    DigitsPlain(if n < 0 then -n else n);
  }

  lemma DecimalInjective(m: int, n: int)
    requires Decimal(m) == Decimal(n)
    ensures m == n
  {
    DigitsPlain(if m < 0 then -m else m);
    DigitsPlain(if n < 0 then -n else n);
    assert (m < 0 <==> Decimal(m)[0] == '-') && (n < 0 <==> Decimal(n)[0] == '-');
    if m < 0 {
      assert Decimal(m)[1..] == Digits(-m) && Decimal(n)[1..] == Digits(-n);
      DigitsInjective(-m, -n);
    } else {
      DigitsInjective(m, n);
    }
  }

  /** A string has at most one ending that is a colon and then no more colons. */
  lemma {:induction false} LastPart(a: string, x: string, b: string, y: string)
    requires a + ":" + x == b + ":" + y
    requires (forall i :: 0 <= i < |x| ==> x[i] != ':') && (forall i :: 0 <= i < |y| ==> y[i] != ':')
    ensures a == b && x == y
    decreases |x|
  {
    var s := a + ":" + x;
    assert s[|s| - 1] == if x == "" then ':' else x[|x| - 1];
    assert s[|s| - 1] == if y == "" then ':' else y[|y| - 1];
    if x == "" {
      assert s[..|s| - 1] == a && s[..|s| - 1] == b;
    } else {
      assert s[..|s| - 1] == a + ":" + x[..|x| - 1] && s[..|s| - 1] == b + ":" + y[..|y| - 1];
      LastPart(a, x[..|x| - 1], b, y[..|y| - 1]);
      assert x == x[..|x| - 1] + [s[|s| - 1]] && y == y[..|y| - 1] + [s[|s| - 1]];
    }
  }

  /** Two records have the same key exactly when they are for the same workload and the same end. */
  lemma KeysIdentify(id1: Id, end1: Time, id2: Id, end2: Time)
    ensures WorkloadKey(id1, end1) == WorkloadKey(id2, end2) <==> id1 == id2 && end1 == end2
  {
    if WorkloadKey(id1, end1) == WorkloadKey(id2, end2) {
      DecimalPlain(end1);
      DecimalPlain(end2);
      var a, b := "workload" + ":" + id1 + ":" + "flavor_seconds", "workload" + ":" + id2 + ":" + "flavor_seconds";
      assert a + ":" + Decimal(end1) == WorkloadKey(id1, end1) && b + ":" + Decimal(end2) == WorkloadKey(id2, end2);
      LastPart(a, Decimal(end1), b, Decimal(end2));
      DecimalInjective(end1, end2);
      assert a[9..|a| - 15] == id1 && b[9..|b| - 15] == id2;
    }
  }

  /**
   * What sampling one workload bills, in so many words: nothing for an unnamed or undated workload, which is an
   * error, as is a window of time without organization or owner; otherwise the time from the cursor or,
   * failing that, creation, to removal or, failing that, now, to the organization, for the flavor.
   */
  lemma SampleMeans(w: Workload, now: Time, start: Time, end: Time)
    requires w.sampledAt == Some(start) || (w.sampledAt == None && w.createdAt == Some(start))
    requires w.removedAt == Some(end) || (w.removedAt == None && end == now)
    ensures SampleWorkload(w, now).Err? <==>
      w.id == "" || (start < end && (w.organization == "" || !w.attributable))
    ensures SampleWorkload(w, now).Ok? ==>
      var sample := SampleWorkload(w, now).value;
      && sample.cursor == end
      && (sample.record.Some? <==> end - start >= 1000 && w.flavor != "")
      && (sample.record.Some? ==>
            var usage := sample.record.value;
            && usage.organization == w.organization && usage.flavor == w.flavor
            && usage.value * 1000 <= end - start < usage.value * 1000 + 1000
            && usage.key == "workload:" + w.id + ":flavor_seconds:" + Decimal(end))
  {
    KeyMeans(w.id, end);
    hide WorkloadKey;
  }

  lemma KeyMeans(id: Id, end: Time)
    ensures WorkloadKey(id, end) == "workload:" + id + ":flavor_seconds:" + Decimal(end)
  {
    assert WorkloadKey(id, end) == "workload" + ":" + id + ":" + "flavor_seconds" + ":" + Decimal(end) + "";
  }

  lemma UndatedIsError(w: Workload, now: Time)
    requires w.sampledAt == None && w.createdAt == None
    ensures SampleWorkload(w, now).Err?
  {
  }

  /** The number that digits say. */
  function Read(digits: string): int {
    if digits == "" then 0 else 10 * Read(digits[..|digits| - 1]) + (digits[|digits| - 1] as int - '0' as int)
  }

  /** Decimal notation says the number it is of. */
  lemma {:induction false} DigitsRead(n: nat)
    ensures Read(Digits(n)) == n
    decreases n
  {
    if n >= 10 {
      DigitsRead(n / 10);
      assert Digits(n)[..|Digits(n)| - 1] == Digits(n / 10);
    } else {
      assert [Digit(n)][..0] == "";
    }
  }
}
