/**
 * Whole runs of one sandbox: the writes of the sandbox loop's cycles, one by one, and in between what the
 * other loops and the user do. A cycle goes by what it has read, not by what has become of it.
 */
module SandboxRuns {
  import opened Records
  import opened SandboxWrites

  /** Where the sandbox loop is: it has listed the sandbox, then read the records of its workloads and begun to act. */
  datatype Phase =
    | Idle
    | Listed(status: SandboxStatus, workloadId: Option<Id>)
    | Acting(sight: Sight, ends: bool, trail: seq<Write>)

  datatype State = State(
    status: SandboxStatus, workloadId: Option<Id>, workloads: seq<WorkloadStatus>, deleted: bool, phase: Phase)

  datatype Event =
    | List                                   // the sandbox loop lists the sandboxes
    | Load(expired: bool)                    // and reads the records of this one's workloads
    | Own(w: Write, ok: bool)                // it writes; a call that fails has no effect
    | Finish                                 // it is done with this one, or has given up
    | Written(i: nat, status: WorkloadStatus)  // the workload loop writes a status, perhaps from an outdated listing
    | VolumeLost                             // the volume loop misses a disk and fails the sandbox, whatever its status
    | Asked(to: SandboxStatus)               // the user starts, stops or terminates it

  predicate NoneActive(workloads: seq<WorkloadStatus>) {
    forall k :: 0 <= k < |workloads| ==> !IsActive(workloads[k])
  }

  /** What a write does when it succeeds. */
  function Done(s: State, w: Write): State {
    match w
    case Tell(to, update) => s.(status := to, workloadId := Updated(s.workloadId, update))
    case Put(i, to) => if i < |s.workloads| then s.(workloads := s.workloads[i := to]) else s
    case Create => s.(workloads := s.workloads + [WorkloadStatus.Starting])
    case Delete => s.(deleted := true)
  }

  ghost predicate Step(s: State, e: Event, t: State) {
    match e
    case List => s.phase.Idle? && t == s.(phase := Listed(s.status, s.workloadId))
    case Load(expired) =>
      && s.phase.Listed?
      && var sight := Sight(s.phase.status, s.phase.workloadId, NoneActive(s.workloads));
         t == s.(phase := Acting(sight, expired && !sight.status.Terminated?, []))
    case Own(w, ok) =>
      && s.phase.Acting? && MayWrite(s.phase.sight, s.phase.ends, s.phase.trail, w)
      && t == (if ok then Done(s, w) else s).(phase := s.phase.(trail := s.phase.trail + [w]))
    case Finish => t == s.(phase := Idle)
    case Written(i, to) => i < |s.workloads| && t == s.(workloads := s.workloads[i := to])
    case VolumeLost => t == s.(status := SandboxStatus.Failed, workloadId := None)
    case Asked(to) => t == s.(status := to, workloadId := t.workloadId)
  }

  ghost predicate IsRun(run: seq<State>, events: seq<Event>) {
    && |run| == |events| + 1 && run[0].phase.Idle?
    && forall k :: 0 <= k < |events| ==> Step(run[k], events[k], run[k + 1])
  }

  /** A cycle of the loop writes nothing but what runs allow: its writes, in order, are those of a run. */
  lemma {:induction false} CycleIsRun(s: State, trail: seq<Write>, ok: seq<bool>) returns (run: seq<State>)
    requires s.phase.Acting? && s.phase.trail == [] && |ok| == |trail| && Keeps(s.phase.sight, s.phase.ends, trail)
    ensures |run| == |trail| + 1 && run[0] == s
    ensures forall k :: 0 <= k < |trail| ==> Step(run[k], Own(trail[k], ok[k]), run[k + 1])
    ensures run[|trail|].phase == s.phase.(trail := trail)
    decreases |trail|
  {
    if trail == [] {
      run := [s];
    } else {
      var n := |trail| - 1;
      var start := CycleIsRun(s, trail[..n], ok[..n]);
      var last := start[n];
      var done := if ok[n] then Done(last, trail[n]) else last;
      var t := done.(phase := last.phase.(trail := last.phase.trail + [trail[n]]));
      run := start + [t];
      assert trail[..n] + [trail[n]] == trail;
      forall k | 0 <= k < |trail| ensures Step(run[k], Own(trail[k], ok[k]), run[k + 1]) {
        if k < n {
          assert Step(start[k], Own(trail[..n][k], ok[..n][k]), start[k + 1]);
        }
      }
    }
  }

  /** What the sandbox loop writes in a run keeps to what a cycle may write. */
  lemma {:induction false} RunKeeps(run: seq<State>, events: seq<Event>, k: nat)
    requires IsRun(run, events) && k < |run| && run[k].phase.Acting?
    ensures Keeps(run[k].phase.sight, run[k].phase.ends, run[k].phase.trail)
    decreases k
  {
    var s, e, t := run[k - 1], events[k - 1], run[k - 1 + 1];
    assert Step(s, e, t);
    if s.phase.Acting? {
      RunKeeps(run, events, k - 1);
      if e.Own? {
        OneMoreWrite(s.phase.sight, s.phase.ends, s.phase.trail, e.w);
      }
    }
  }

  /* At most one workload at a time. */

  ghost predicate AtMostOne(workloads: seq<WorkloadStatus>) {
    forall j, k :: 0 <= j < k < |workloads| ==> !(IsActive(workloads[j]) && IsActive(workloads[k]))
  }

  /** The cycle under way has found no active workload and may still start one. */
  predicate IsAboutToStart(phase: Phase) {
    phase.Acting? && MayStart(phase.sight, phase.ends) && Create !in phase.trail
  }

  /** At most one workload is active, and none while the loop is about to start one. */
  ghost predicate OneInPlay(s: State) {
    AtMostOne(s.workloads) && (IsAboutToStart(s.phase) ==> NoneActive(s.workloads))
  }

  predicate MakesActive(s: State, i: nat, to: WorkloadStatus) {
    i < |s.workloads| && IsActive(to) && !IsActive(s.workloads[i])
  }

  /** A record that has ended becomes active by a write of either loop. */
  predicate Revives(s: State, e: Event) {
    || (e.Written? && MakesActive(s, e.i, e.status))
    || (e.Own? && e.ok && e.w.Put? && MakesActive(s, e.w.i, e.w.status))
  }

  /** It finds no other active workload, and the loop not about to start one. */
  predicate RevivesAlone(s: State) {
    NoneActive(s.workloads) && !IsAboutToStart(s.phase)
  }

  /** The effect of one status write on the workloads. */
  lemma PutKeepsOne(workloads: seq<WorkloadStatus>, i: nat, to: WorkloadStatus)
    requires AtMostOne(workloads) && i < |workloads|
    ensures IsActive(to) && !IsActive(workloads[i]) ==>
      (AtMostOne(workloads[i := to]) <==> NoneActive(workloads)) && !NoneActive(workloads[i := to])
    ensures !(IsActive(to) && !IsActive(workloads[i])) ==>
      AtMostOne(workloads[i := to]) && (NoneActive(workloads) ==> NoneActive(workloads[i := to]))
  {
    var after := workloads[i := to];
    assert after[i] == to;
    if IsActive(to) && AtMostOne(after) {
      forall k | 0 <= k < |workloads| && k != i ensures !IsActive(workloads[k]) {
        assert after[k] == workloads[k];
      }
    }
  }

  lemma StepKeepsOneInPlay(s: State, e: Event, t: State)
    requires Step(s, e, t) && OneInPlay(s)
    ensures OneInPlay(t) <==> (Revives(s, e) ==> RevivesAlone(s))
  {
    match e {
      case Written(i, to) => PutKeepsOne(s.workloads, i, to);
      case Own(w, ok) =>
        if w.Put? && w.i < |s.workloads| {
          PutKeepsOne(s.workloads, w.i, w.status);
        }
      case _ =>
    }
  }

  lemma {:induction false} OneInPlayUpTo(run: seq<State>, events: seq<Event>, k: nat)
    requires IsRun(run, events) && AtMostOne(run[0].workloads) && k < |run|
    requires forall j :: 0 <= j < k && Revives(run[j], events[j]) ==> RevivesAlone(run[j])
    ensures OneInPlay(run[k])
    decreases k
  {
    if k > 0 {
      OneInPlayUpTo(run, events, k - 1);
      StepKeepsOneInPlay(run[k - 1], events[k - 1], run[k - 1 + 1]);
    }
  }

  /**
   * Once a sandbox has at most one active workload it has at most one at any time, and none while the loop is
   * about to start one, exactly when every write that revives a workload record finds no other active,
   * and no cycle under way that has found none and is about to start one.
   */
  lemma OneActiveIff(run: seq<State>, events: seq<Event>)
    requires IsRun(run, events) && AtMostOne(run[0].workloads)
    ensures (forall k :: 0 <= k < |run| ==> OneInPlay(run[k]))
       <==> (forall k :: 0 <= k < |events| && Revives(run[k], events[k]) ==> RevivesAlone(run[k]))
  {
    if forall k :: 0 <= k < |events| && Revives(run[k], events[k]) ==> RevivesAlone(run[k]) {
      forall k | 0 <= k < |run| ensures OneInPlay(run[k]) {
        OneInPlayUpTo(run, events, k);
      }
    }
    if forall k :: 0 <= k < |run| ==> OneInPlay(run[k]) {
      forall k | 0 <= k < |events| && Revives(run[k], events[k]) ensures RevivesAlone(run[k]) {
        StepKeepsOneInPlay(run[k], events[k], run[k + 1]);
      }
    }
  }

  /**
   * The loop finds no active workload. The workload loop, which has listed the record before it was stopped,
   * revives it, finding none active either; and the start that is under way adds a second one.
   */
  lemma TwoActiveWorkloads() returns (run: seq<State>, events: seq<Event>)
    ensures IsRun(run, events) && events == [List, Load(false), Written(0, WorkloadStatus.Running), Own(Create, true)]
    ensures NoneActive(run[2].workloads) && !AtMostOne(run[4].workloads)
  {
    var s0 := State(SandboxStatus.Starting, None, [WorkloadStatus.Stopped], false, Idle);
    var s1 := s0.(phase := Listed(SandboxStatus.Starting, None));
    var s2 := s1.(phase := Acting(Sight(SandboxStatus.Starting, None, true), false, []));
    var s3 := s2.(workloads := [WorkloadStatus.Running]);
    var s4 := s3.(workloads := [WorkloadStatus.Running, WorkloadStatus.Starting],
                  phase := Acting(Sight(SandboxStatus.Starting, None, true), false, [] + [Create]));
    run := [s0, s1, s2, s3, s4];
    events := [List, Load(false), Written(0, WorkloadStatus.Running), Own(Create, true)];
    assert Step(s0, events[0], s1) && Step(s1, events[1], s2) && Step(s2, events[2], s3) && Step(s3, events[3], s4);
    assert IsActive(s4.workloads[0]) && IsActive(s4.workloads[1]);
  }
}
