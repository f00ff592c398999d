/** Runs of membership changes, events and starts, in any order and with any repetition. */
module GroupSyncRuns {
  import opened Records
  import opened GroupSync

  /**
   * An identity is there from the moment a start reads the groups for it; its record is published later.
   * owed holds, for each identity, the groups whose membership has changed since and for which no event
   * has been handled since its record was published.
   */
  datatype State = State(members: Members, identities: map<Id, Live>, owed: set<(Id, Id)>)

  datatype Event =
    | Change(agent: Id, group: Id)            // the agent joins the group or leaves it
    | Handle(agent: Id, group: Id, ok: bool)  // an event is handled, for the first time or again, perhaps in part
    | Repair(ok: bool)                        // the periodic repair, perhaps in part
    | Start(id: Id, agent: Id, others: set<Attribute>)
    | Publish(id: Id)                         // the workload record becomes visible
    | Finish(id: Id)                          // the workload ends, and its identity with it

  function Toggle(groups: set<Id>, group: Id): set<Id> {
    if group in groups then groups - {group} else groups + {group}
  }

  function IdentitiesOf(identities: map<Id, Live>, agent: Id): set<Id> {
    set id | id in identities && identities[id].agent == agent
  }

  function Owing(ids: set<Id>, group: Id): set<(Id, Id)> {
    set id | id in ids :: (id, group)
  }

  /** Reads and patches of one handler are one step. */
  ghost predicate Step(s: State, e: Event, t: State) {
    match e
    case Change(agent, group) =>
      && group != ""
      && t == s.(members := s.members[agent := Toggle(GroupsOf(s.members, agent), group)],
                 owed := s.owed + Owing(IdentitiesOf(s.identities, agent), group))
    case Handle(agent, group, ok) =>
      && t == s.(identities := t.identities,
                 owed := if ok then s.owed - Owing(Published(s.identities, agent), group) else s.owed)
      && IsPatched(s.identities, t.identities, s.members, Published(s.identities, agent), Candidates(group), ok)
    case Repair(ok) =>
      && t == s.(identities := t.identities)
      && IsPatched(s.identities, t.identities, s.members, AllPublished(s.identities), {}, ok)
    case Start(id, agent, others) =>
      && id !in s.identities && (forall a :: a in others ==> !IsGroupAttribute(a))
      && t == s.(identities := s.identities[id := Live(agent, Desired(s.members, agent) + others, false)])
    case Publish(id) =>
      && id in s.identities
      && t == s.(identities := s.identities[id := s.identities[id].(published := true)])
    case Finish(id) => t == s.(identities := s.identities - {id}, owed := set o | o in s.owed && o.0 != id)
  }

  ghost predicate IsRun(run: seq<State>, events: seq<Event>) {
    && |run| == |events| + 1 && run[0].identities == map[] && run[0].owed == {}
    && forall k :: 0 <= k < |events| ==> Step(run[k], events[k], run[k + 1])
  }

  /** The identity holds the group's attribute exactly when its agent is a member. */
  predicate AgreesOn(live: Live, members: Members, group: Id) {
    GroupRoleAttribute(group) in live.attributes <==> group in GroupsOf(members, live.agent)
  }

  /** Every identity agrees on every group for which it is owed nothing. */
  ghost predicate InSync(s: State) {
    forall id, group :: id in s.identities && (id, group) !in s.owed ==> AgreesOn(s.identities[id], s.members, group)
  }

  /** Debts are about groups with an id and identities that are there. */
  ghost predicate AreDebts(s: State) {
    forall id, group :: (id, group) in s.owed ==> group != "" && id in s.identities
  }

  lemma PatchedAgrees(live: Live, members: Members, candidates: set<Attribute>, group: Id)
    requires AgreesOn(live, members, group) || (group != "" && candidates == Candidates(group))
    ensures AgreesOn(PatchedLive(live, members, candidates), members, group)
  {
    if AgreesOn(live, members, group) {
      PatchKeepsRight(live.attributes, members, live.agent, candidates, group);
    } else {
      PatchSettles(live.attributes, members, live.agent, group);
    }
  }

  lemma StartedAgrees(members: Members, agent: Id, others: set<Attribute>, group: Id)
    requires forall a :: a in others ==> !IsGroupAttribute(a)
    ensures AgreesOn(Live(agent, Desired(members, agent) + others, false), members, group)
  {
    forall g | g in GroupsOf(members, agent)
      ensures GroupRoleAttribute(g) == GroupRoleAttribute(group) <==> g == group
    {
      GroupAttributesDiffer(g, group);
    }
    GroupAttributesDiffer(group, group);
  }

  lemma HandledAgrees(s: State, e: Event, t: State, id: Id, group: Id)
    requires Step(s, e, t) && e.Handle? && InSync(s) && AreDebts(s)
    requires id in t.identities && (id, group) !in t.owed
    ensures AgreesOn(t.identities[id], t.members, group)
  {
    PatchedAgrees(s.identities[id], s.members, Candidates(e.group), group);
  }

  lemma StepKeepsSync(s: State, e: Event, t: State)
    requires Step(s, e, t) && InSync(s) && AreDebts(s)
    ensures InSync(t) && AreDebts(t)
  {
    forall id, group | id in t.identities && (id, group) !in t.owed
      ensures AgreesOn(t.identities[id], t.members, group)
    {
      match e {
        case Handle(agent, about, ok) => HandledAgrees(s, e, t, id, group);
        case Repair(ok) => PatchedAgrees(s.identities[id], s.members, {}, group);
        case Start(started, agent, others) => StartedAgrees(s.members, agent, others, group);
        case _ =>
      }
    }
  }

  lemma {:induction false} RunKeepsSync(run: seq<State>, events: seq<Event>, k: nat)
    requires IsRun(run, events) && k < |run|
    ensures InSync(run[k]) && AreDebts(run[k])
    decreases k
  {
    if k > 0 {
      RunKeepsSync(run, events, k - 1);
      StepKeepsSync(run[k - 1], events[k - 1], run[k - 1 + 1]);
    }
  }

  /** Event j changes a membership, and by state k no event about it has been handled with the identity published. */
  ghost predicate IsUnsettled(run: seq<State>, events: seq<Event>, id: Id, agent: Id, group: Id, j: nat, k: nat)
    requires IsRun(run, events) && k < |run|
  {
    && j < k && events[j] == Change(agent, group)
    && forall m :: j < m < k && events[m] == Handle(agent, group, true) ==>
         id !in run[m].identities || !run[m].identities[id].published
  }

  /** A change after event i is still unsettled by state k. */
  ghost predicate IsPending(run: seq<State>, events: seq<Event>, id: Id, agent: Id, group: Id, i: nat, k: nat)
    requires IsRun(run, events) && k < |run|
  {
    exists j :: i < j < k && IsUnsettled(run, events, id, agent, group, j, k)
  }

  /** What one event does to the debt of an identity that is there before and after. */
  lemma DebtStep(s: State, e: Event, t: State, id: Id, group: Id)
    requires Step(s, e, t) && id in s.identities && id in t.identities
    ensures t.identities[id].agent == s.identities[id].agent
    ensures (id, group) in t.owed <==>
      || e == Change(s.identities[id].agent, group)
      || ((id, group) in s.owed && !(e == Handle(s.identities[id].agent, group, true) && s.identities[id].published))
  {
  }

  /** What one more event does to the changes that are unsettled. */
  lemma UnsettledStep(run: seq<State>, events: seq<Event>, i: nat, k: nat, id: Id, agent: Id, group: Id)
    requires IsRun(run, events) && i + 1 < k < |run| && id in run[k - 1].identities
    ensures IsPending(run, events, id, agent, group, i, k) <==>
      || events[k - 1] == Change(agent, group)
      || (IsPending(run, events, id, agent, group, i, k - 1)
          && !(events[k - 1] == Handle(agent, group, true) && run[k - 1].identities[id].published))
  {
    var handled := events[k - 1] == Handle(agent, group, true) && run[k - 1].identities[id].published;
    forall j: nat | i < j < k - 1
      ensures IsUnsettled(run, events, id, agent, group, j, k) <==>
        IsUnsettled(run, events, id, agent, group, j, k - 1) && !handled
    {
    }
    if IsPending(run, events, id, agent, group, i, k) {
      var j: nat :| i < j < k && IsUnsettled(run, events, id, agent, group, j, k);
      assert j == k - 1 || IsUnsettled(run, events, id, agent, group, j, k - 1);
    }
    if events[k - 1] == Change(agent, group) {
      assert IsUnsettled(run, events, id, agent, group, k - 1, k);
    } else if IsPending(run, events, id, agent, group, i, k - 1) && !handled {
      var j: nat :| i < j < k - 1 && IsUnsettled(run, events, id, agent, group, j, k - 1);
      assert IsUnsettled(run, events, id, agent, group, j, k);
    }
  }

  lemma StartOwesNothing(run: seq<State>, events: seq<Event>, i: nat, group: Id)
    requires IsRun(run, events) && i < |events| && events[i].Start?
    ensures events[i].id in run[i + 1].identities && run[i + 1].identities[events[i].id].agent == events[i].agent
    ensures (events[i].id, group) !in run[i + 1].owed
  {
    RunKeepsSync(run, events, i);
    assert Step(run[i], events[i], run[i + 1]);
  }

  /**
   * An identity started by event i is owed a group exactly when its agent's membership has changed since
   * and no event about it has been handled after both that change and the publication of the record.
   */
  lemma {:induction false} OwedIff(run: seq<State>, events: seq<Event>, i: nat, k: nat, id: Id, agent: Id, group: Id)
    requires IsRun(run, events) && i < k < |run| && events[i].Start? && events[i].id == id && events[i].agent == agent
    requires forall m :: i < m <= k ==> id in run[m].identities
    ensures run[k].identities[id].agent == agent
    ensures (id, group) in run[k].owed <==> IsPending(run, events, id, agent, group, i, k)
    decreases k
  {
    hide Step, AreDebts, InSync;
    if k == i + 1 {
      StartOwesNothing(run, events, i, group);
    } else {
      hide IsPending;
      OwedIff(run, events, i, k - 1, id, agent, group);
      assert Step(run[k - 1], events[k - 1], run[k - 1 + 1]);
      DebtStep(run[k - 1], events[k - 1], run[k - 1 + 1], id, group);
      UnsettledStep(run, events, i, k, id, agent, group);
    }
  }

  /**
   * In every run, whatever is repeated or reordered: an identity holds a group's attribute exactly when its
   * agent is a member, unless the membership has changed since the identity was started and no event
   * about it has been handled after both that change and the publication of the workload record.
   */
  lemma GroupRolesConverge(run: seq<State>, events: seq<Event>, i: nat, k: nat, id: Id, group: Id)
    requires IsRun(run, events) && i < k < |run| && events[i].Start? && events[i].id == id
    requires forall m :: i < m <= k ==> id in run[m].identities
    requires !IsPending(run, events, id, events[i].agent, group, i, k)
    ensures AgreesOn(run[k].identities[id], run[k].members, group)
  {
    OwedIff(run, events, i, k, id, events[i].agent, group);
    RunKeepsSync(run, events, k);
  }

  /** No event reaches an identity before its record is published. */
  lemma {:induction false} UnreachedUntilPublished(run: seq<State>, events: seq<Event>, i: nat, k: nat, id: Id)
    requires IsRun(run, events) && i < k < |run| && events[i].Start? && events[i].id == id
    requires forall m :: i < m <= k ==> id in run[m].identities
    requires forall m :: i < m < k ==> !run[m].identities[id].published
    ensures run[k].identities[id].agent == events[i].agent
    ensures run[k].identities[id].attributes == Desired(run[i].members, events[i].agent) + events[i].others
    decreases k
  {
    assert Step(run[k - 1], events[k - 1], run[k - 1 + 1]);
    if k > i + 1 {
      UnreachedUntilPublished(run, events, i, k - 1, id);
    }
  }

  /**
   * Up to the publication of its record, and whatever has been handled until then, an identity agrees on a
   * group exactly when the agent's membership is what it was when the start read it.
   */
  lemma PublishedRightIff(run: seq<State>, events: seq<Event>, i: nat, k: nat, id: Id, group: Id)
    requires IsRun(run, events) && i < k < |run| && events[i].Start? && events[i].id == id
    requires forall m :: i < m <= k ==> id in run[m].identities
    requires forall m :: i < m < k ==> !run[m].identities[id].published
    ensures AgreesOn(run[k].identities[id], run[k].members, group) <==>
      (group in GroupsOf(run[k].members, events[i].agent) <==> group in GroupsOf(run[i].members, events[i].agent))
  {
    UnreachedUntilPublished(run, events, i, k, id);
    assert Step(run[i], events[i], run[i + 1]);
    StartedAgrees(run[i].members, events[i].agent, events[i].others, group);
  }

  /**
   * A group is left after a start has read it and before the record is published. The event is handled at
   * once and misses the identity, which keeps the attribute: every change has been followed by a
   * handled event, but not by one after the publication.
   */
  lemma MissedRemoval() returns (run: seq<State>, events: seq<Event>)
    ensures IsRun(run, events)
    ensures events == [Start("z", "a", {}), Change("a", "g"), Handle("a", "g", true), Publish("z")]
    ensures "z" in run[4].identities && !AgreesOn(run[4].identities["z"], run[4].members, "g")
  {
    var in_, out: Members := map["a" := {"g"}], map["a" := {}];
    var attributes := Desired(in_, "a") + {};
    var s0 := State(in_, map[], {});
    var s1 := State(in_, map["z" := Live("a", attributes, false)], {});
    var s2 := State(out, s1.identities, {("z", "g")});
    var s4 := State(out, map["z" := Live("a", attributes, true)], {("z", "g")});
    events := [Start("z", "a", {}), Change("a", "g"), Handle("a", "g", true), Publish("z")];
    run := [s0, s1, s2, s2, s4];
    assert "g" in GroupsOf(in_, "a") && GroupRoleAttribute("g") in attributes;
    assert {"g"} - {"g"} == {};
    assert IdentitiesOf(s1.identities, "a") == {"z"} && Owing({"z"}, "g") == {("z", "g")};
    assert Published(s2.identities, "a") == {} && Owing({}, "g") == {};
    assert Step(s0, events[0], s1) && Step(s1, events[1], s2);
    assert Step(s2, events[2], s2) && Step(s2, events[3], s4);
  }

  /** The group attributes of an identity that its agent has no membership for. */
  ghost predicate IsStale(live: Live, members: Members, group: Id) {
    GroupRoleAttribute(group) in live.attributes && group !in GroupsOf(members, live.agent)
  }

  /**
   * The periodic repair adds what is missing and removes nothing: it leaves an identity right exactly where
   * nothing was stale.
   */
  lemma RepairOnlyAdds(s: State, t: State, id: Id, group: Id)
    requires Step(s, Repair(true), t) && id in s.identities && s.identities[id].published
    ensures AgreesOn(t.identities[id], t.members, group) <==> !IsStale(s.identities[id], s.members, group)
    ensures IsStale(t.identities[id], t.members, group) <==> IsStale(s.identities[id], s.members, group)
  {
    var live := s.identities[id];
    forall g | g in GroupsOf(s.members, live.agent)
      ensures GroupRoleAttribute(g) == GroupRoleAttribute(group) <==> g == group
    {
      GroupAttributesDiffer(g, group);
    }
  }

  /** What is not a group's attribute stays as it was at the start. */
  lemma {:induction false} OthersNeverChange(run: seq<State>, events: seq<Event>, i: nat, k: nat,
      id: Id, other: Attribute)
    requires IsRun(run, events) && i <= k < |run| && !IsGroupAttribute(other)
    requires forall m :: i <= m <= k ==> id in run[m].identities
    ensures other in run[k].identities[id].attributes <==> other in run[i].identities[id].attributes
    decreases k
  {
    if i < k {
      OthersNeverChange(run, events, i, k - 1, id, other);
      var s, e, t := run[k - 1], events[k - 1], run[k - 1 + 1];
      assert Step(s, e, t);
      if e.Handle? {
        PatchKeepsOthers(s.identities[id].attributes, s.members, s.identities[id].agent, e.group, other);
      } else if e.Repair? {
        PatchKeepsOthers(s.identities[id].attributes, s.members, s.identities[id].agent, "", other);
      }
    }
  }
}
