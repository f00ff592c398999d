/**
 * The statuses of a sandbox, and what a cycle of the sandbox loop may write, by what it has read
 * (internal/reconciler/sandbox_reconciler.go).
 */
module SandboxWrites {
  import opened Records

  datatype SandboxStatus = Unspecified | Starting | Running | Stopped | Failed | Terminated

  datatype IdUpdate = Keep | Clear | Set(id: Id)

  /** A call of the sandbox loop that writes a status, a record or the deletion of the sandbox, if it succeeds. */
  datatype Write =
    | Tell(to: SandboxStatus, update: IdUpdate)
    | Put(i: nat, status: WorkloadStatus)
    | Create
    | Delete

  /** STARTING > RUNNING > STOPPED, FAILED > TERMINATED. */
  function Rank(status: SandboxStatus): nat {
    match status
    case Unspecified => 4
    case Starting => 3
    case Running => 2
    case Stopped => 1
    case Failed => 1
    case Terminated => 0
  }

  predicate IsResting(status: SandboxStatus) {
    status.Stopped? || status.Failed? || status.Terminated?
  }

  /** The workload id of a sandbox after an update. */
  function Updated(current: Option<Id>, update: IdUpdate): Option<Id> {
    match update
    case Keep => current
    case Clear => None
    case Set(id) => Some(id)
  }

  /** What a cycle has read of the sandbox, and whether it has found no active workload. */
  datatype Sight = Sight(status: SandboxStatus, workloadId: Option<Id>, foundNone: bool)

  /** The status that a cycle has asked for last. */
  function LastTold(sight: Sight, trail: seq<Write>): SandboxStatus {
    if trail == [] then sight.status
    else
      var last := trail[|trail| - 1];
      if last.Tell? then last.to else LastTold(sight, trail[..|trail| - 1])
  }

  /** The cycle may start a workload; ends says that it terminates the sandbox. */
  predicate MayStart(sight: Sight, ends: bool) {
    && sight.foundNone && !ends
    && (sight.status.Starting? || (sight.status.Running? && sight.workloadId == None))
  }

  predicate MayTell(sight: Sight, ends: bool, to: SandboxStatus, update: IdUpdate) {
    if ends then to.Terminated? && update.Clear?
    else if IsResting(sight.status) then to == sight.status && update.Clear?
    else
      && (sight.status.Starting? || sight.status.Running?)
      && (to.Running? || (to.Failed? && update.Clear?) || (to.Stopped? && sight.status.Running? && update.Clear?))
  }

  /**
   * What a cycle may write next, by what it has read and what it has written since, whatever the state is by
   * now: no status above the last one, and one record at most.
   */
  predicate MayWrite(sight: Sight, ends: bool, trail: seq<Write>, w: Write) {
    match w
    case Tell(to, update) => MayTell(sight, ends, to, update) && Rank(to) <= Rank(LastTold(sight, trail))
    case Put(_, _) => true
    case Create => MayStart(sight, ends) && Create !in trail
    case Delete => ends && LastTold(sight, trail).Terminated?
  }

  /** The writes of a cycle keep to that. */
  predicate Keeps(sight: Sight, ends: bool, trail: seq<Write>) {
    trail == [] || (
      && Keeps(sight, ends, trail[..|trail| - 1])
      && MayWrite(sight, ends, trail[..|trail| - 1], trail[|trail| - 1]))
  }

  /** Nothing but statuses of workload records has been written in between. */
  ghost predicate OnlyPuts(before: seq<Write>, after: seq<Write>) {
    before <= after && forall k :: |before| <= k < |after| ==> after[k].Put?
  }

  lemma {:induction false} PutsKeep(sight: Sight, ends: bool, before: seq<Write>, after: seq<Write>)
    requires OnlyPuts(before, after)
    ensures LastTold(sight, after) == LastTold(sight, before) && (Create in after <==> Create in before)
    ensures Keeps(sight, ends, before) ==> Keeps(sight, ends, after)
    decreases |after|
  {
    if |after| == |before| {
      assert after == before;
    } else {
      PutsKeep(sight, ends, before, after[..|after| - 1]);
      assert after == after[..|after| - 1] + [after[|after| - 1]];
    }
  }

  lemma FirstPuts(sight: Sight, ends: bool, trail: seq<Write>)
    requires OnlyPuts([], trail)
    ensures Keeps(sight, ends, trail) && LastTold(sight, trail) == sight.status && Create !in trail
  {
    PutsKeep(sight, ends, [], trail);
  }

  lemma OneMoreWrite(sight: Sight, ends: bool, trail: seq<Write>, w: Write)
    requires Keeps(sight, ends, trail) && MayWrite(sight, ends, trail, w)
    ensures Keeps(sight, ends, trail + [w])
    ensures LastTold(sight, trail + [w]) == if w.Tell? then w.to else LastTold(sight, trail)
  {
    assert (trail + [w])[..|trail|] == trail;
  }
}
