/** What whole runs of one sandbox do to its status. */
module SandboxStatusRuns {
  import opened Records
  import opened SandboxWrites
  import opened SandboxRuns

  /** The event sets the status of the sandbox, and it is not the sandbox loop that does. */
  predicate IsForeign(e: Event) {
    e.VolumeLost? || e.Asked?
  }

  predicate SetsStatus(e: Event) {
    IsForeign(e) || (e.Own? && e.ok && e.w.Tell?)
  }

  function StatusSet(e: Event): SandboxStatus
    requires SetsStatus(e)
  {
    match e
    case VolumeLost => SandboxStatus.Failed
    case Asked(to) => to
    case Own(w, _) => w.to
  }

  /** A write of one of the loops takes the sandbox up. */
  predicate Raises(s: State, e: Event, t: State) {
    !e.Asked? && Rank(t.status) > Rank(s.status)
  }

  /** Event m, of another loop or the user, has set the status last before state k, after the cycle's listing. */
  predicate IsOutdatedBy(events: seq<Event>, m: nat, k: nat) {
    && m < k <= |events| && IsForeign(events[m])
    && forall j :: m < j < k ==> !SetsStatus(events[j]) && !events[j].List?
  }

  /** The cycle tells the sandbox a status above the one that it has been given since the cycle listed it. */
  ghost predicate Overrules(events: seq<Event>, k: nat)
    requires k < |events|
  {
    && events[k].Own? && events[k].ok && events[k].w.Tell?
    && exists m :: 0 <= m < k && IsOutdatedBy(events, m, k) && Rank(StatusSet(events[m])) < Rank(events[k].w.to)
  }

  function LastAskedFor(phase: Phase): SandboxStatus
    requires !phase.Idle?
  {
    if phase.Listed? then phase.status else LastTold(phase.sight, phase.trail)
  }

  /** While a cycle is under way the sandbox is no lower than the cycle has asked for, or someone else has set it. */
  lemma {:induction false} OwnOrForeign(run: seq<State>, events: seq<Event>, k: nat)
    returns (foreign: bool, m: nat)
    requires IsRun(run, events) && k < |run| && !run[k].phase.Idle?
    ensures foreign ==> IsOutdatedBy(events, m, k) && run[k].status == StatusSet(events[m])
    ensures !foreign ==> Rank(run[k].status) >= Rank(LastAskedFor(run[k].phase))
    ensures !foreign ==> forall j :: 0 <= j < k ==> !IsOutdatedBy(events, j, k)
    decreases k
  {
    var s, e, t := run[k - 1], events[k - 1], run[k - 1 + 1];
    assert Step(s, e, t);
    foreign, m := IsForeign(e), k - 1;
    if !foreign && !e.List? {
      foreign, m := OwnOrForeign(run, events, k - 1);
      if e.Own? {
        assert t.phase.trail[..|t.phase.trail| - 1] == s.phase.trail;
        foreign := foreign && !SetsStatus(e);
      }
      forall j | !foreign && 0 <= j < k ensures !IsOutdatedBy(events, j, k) {
        assert IsOutdatedBy(events, j, k) && j < k - 1 ==> IsOutdatedBy(events, j, k - 1);
      }
    }
  }

  /**
   * A write of the loops takes the sandbox up exactly when the volume loop misses a disk of a terminated
   * sandbox, or a cycle overrules a lower status that the sandbox has been given since it was listed.
   */
  lemma RaisesIff(run: seq<State>, events: seq<Event>, k: nat)
    requires IsRun(run, events) && k < |events|
    ensures Raises(run[k], events[k], run[k + 1]) <==>
      (events[k].VolumeLost? && run[k].status.Terminated?) || Overrules(events, k)
  {
    assert Step(run[k], events[k], run[k + 1]);
    if events[k].Own? {
      var foreign, m := OwnOrForeign(run, events, k);
      forall j | 0 <= j < k && IsOutdatedBy(events, j, k) && foreign ensures j == m {
      }
    }
  }

  /**
   * Whatever fails, the loops never take a sandbox up, in any step of a run, exactly when the volume loop
   * misses no disk of it once it is terminated and no cycle overrules a lower status that it has been
   * given since the cycle listed it.
   */
  lemma OnlyDown(run: seq<State>, events: seq<Event>)
    requires IsRun(run, events)
    ensures (forall k :: 0 <= k < |events| ==> !Raises(run[k], events[k], run[k + 1]))
       <==> (forall k :: 0 <= k < |events| ==>
               !(events[k].VolumeLost? && run[k].status.Terminated?) && !Overrules(events, k))
  {
    hide Raises, Overrules;
    forall k | 0 <= k < |events|
      ensures Raises(run[k], events[k], run[k + 1]) <==>
        (events[k].VolumeLost? && run[k].status.Terminated?) || Overrules(events, k)
    {
      RaisesIff(run, events, k);
    }
    if forall k :: 0 <= k < |events| ==> !Raises(run[k], events[k], run[k + 1]) {
      forall k | 0 <= k < |events|
        ensures !(events[k].VolumeLost? && run[k].status.Terminated?) && !Overrules(events, k)
      {
        assert !Raises(run[k], events[k], run[k + 1]);
      }
    }
  }

  /**
   * A sandbox that is terminated while no cycle is under way, and that the loops do not take up nor the user
   * asks anything of, stays so; it is not asked to be deleted again, even if it could not be.
   */
  lemma {:induction false} StaysTerminated(run: seq<State>, events: seq<Event>, i: nat, k: nat)
    requires IsRun(run, events) && i <= k < |run| && run[i].status.Terminated? && run[i].phase.Idle?
    requires forall m :: i <= m < k ==> !events[m].Asked? && !Raises(run[m], events[m], run[m + 1])
    ensures run[k].status.Terminated? && run[k].deleted == run[i].deleted
    ensures run[k].phase.Listed? ==> run[k].phase.status.Terminated?
    ensures run[k].phase.Acting? ==> run[k].phase.sight.status.Terminated? && !run[k].phase.ends
    decreases k
  {
    if i < k {
      StaysTerminated(run, events, i, k - 1);
      assert Step(run[k - 1], events[k - 1], run[k - 1 + 1]);
    }
  }

  /**
   * The loop has listed a sandbox as starting, and found its workload running, when the volume loop misses a
   * disk and fails the sandbox: the cycle then makes it run again.
   */
  lemma FailedSandboxRuns() returns (run: seq<State>, events: seq<Event>)
    ensures IsRun(run, events)
    ensures events == [List, Load(false), VolumeLost, Own(Tell(SandboxStatus.Running, Set("w")), true)]
    ensures run[3].status.Failed? && run[4].status.Running?
  {
    var sight := Sight(SandboxStatus.Starting, None, false);
    var tell := Tell(SandboxStatus.Running, Set("w"));
    var s0 := State(SandboxStatus.Starting, None, [WorkloadStatus.Running], false, Idle);
    var s1 := s0.(phase := Listed(SandboxStatus.Starting, None));
    var s2 := s1.(phase := Acting(sight, false, []));
    var s3 := s2.(status := SandboxStatus.Failed);
    var s4 := s3.(status := SandboxStatus.Running, workloadId := Some("w"), phase := Acting(sight, false, [] + [tell]));
    run, events := [s0, s1, s2, s3, s4], [List, Load(false), VolumeLost, Own(tell, true)];
    assert IsActive(s1.workloads[0]);
    assert MayWrite(sight, false, [], tell);
    assert Step(s0, events[0], s1) && Step(s1, events[1], s2) && Step(s2, events[2], s3) && Step(s3, events[3], s4);
  }

  /**
   * The TTL runs out, and the sandbox is terminated; a disk is removed, but closing its record fails. The
   * volume loop then finds an active record without a disk, and fails the sandbox.
   */
  lemma TerminatedSandboxRises() returns (run: seq<State>, events: seq<Event>)
    ensures IsRun(run, events)
    ensures events == [List, Load(true), Own(Tell(Terminated, Clear), true), Finish, VolumeLost]
    ensures run[4].status.Terminated? && run[5].status.Failed?
  {
    var sight := Sight(SandboxStatus.Stopped, None, true);
    var s0 := State(SandboxStatus.Stopped, None, [], false, Idle);
    var s1 := s0.(phase := Listed(SandboxStatus.Stopped, None));
    var s2 := s1.(phase := Acting(sight, true, []));
    var s3 := s2.(status := Terminated, phase := Acting(sight, true, [] + [Tell(Terminated, Clear)]));
    var s4 := s3.(phase := Idle);
    var s5 := s4.(status := SandboxStatus.Failed);
    run := [s0, s1, s2, s3, s4, s5];
    events := [List, Load(true), Own(Tell(Terminated, Clear), true), Finish, VolumeLost];
    assert MayWrite(sight, true, [], Tell(Terminated, Clear));
    assert Step(s0, events[0], s1) && Step(s1, events[1], s2) && Step(s2, events[2], s3);
    assert Step(s3, events[3], s4) && Step(s4, events[4], s5);
  }
}
