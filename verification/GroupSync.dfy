/**
 * Group memberships as role attributes on the identities of live workloads
 * (internal/reconciler/group_sync.go).
 */
module GroupSync {
  import opened Records

  const GROUP_PREFIX := "group-"

  type Attribute = string

  function GroupRoleAttribute(group: Id): Attribute {
    GROUP_PREFIX + group
  }

  predicate IsGroupAttribute(attribute: Attribute) {
    GROUP_PREFIX <= attribute
  }

  /** Different groups have different attributes. */
  lemma GroupAttributesDiffer(g: Id, h: Id)
    ensures GroupRoleAttribute(g) == GroupRoleAttribute(h) <==> g == h
    ensures IsGroupAttribute(GroupRoleAttribute(g))
  {
    assert GroupRoleAttribute(g)[|GROUP_PREFIX|..] == g && GroupRoleAttribute(h)[|GROUP_PREFIX|..] == h;
  }

  function Elements<T>(s: seq<T>): set<T> {
    set x | x in s
  }

  predicate AreDistinct<T(==)>(s: seq<T>) {
    forall i, j :: 0 <= i < j < |s| ==> s[i] != s[j]
  }

  function AttributesOf(groups: set<Id>): set<Attribute> {
    set g | g in groups :: GroupRoleAttribute(g)
  }

  /** The attributes of the groups that a member is in, each once; a group without an id is an error. */
  method AgentGroupRoleAttributes(groups: seq<Id>) returns (r: Result<seq<Attribute>>)
    ensures r.Err? <==> "" in groups
    ensures r.Ok? ==> AreDistinct(r.value) && Elements(r.value) == AttributesOf(Elements(groups))
  {
    var attributes: seq<Attribute> := [];
    var seen: set<Attribute> := {};
    for k := 0 to |groups|
      invariant "" !in groups[..k]
      invariant AreDistinct(attributes) && Elements(attributes) == seen == AttributesOf(Elements(groups[..k]))
    {
      ElementsStep(groups, k);
      if groups[k] == "" {
        return Err;
      }
      var attribute := GroupRoleAttribute(groups[k]);
      if attribute in seen {
        assert seen + {attribute} == seen;
        continue;
      }
      seen := seen + {attribute};
      attributes := attributes + [attribute];
    }
    assert groups[..|groups|] == groups;
    r := Ok(attributes);
  }

  lemma ElementsStep(groups: seq<Id>, k: nat)
    requires k < |groups|
    ensures Elements(groups[..k + 1]) == Elements(groups[..k]) + {groups[k]}
    ensures AttributesOf(Elements(groups[..k + 1]))
      == AttributesOf(Elements(groups[..k])) + {GroupRoleAttribute(groups[k])}
    ensures groups[k] in groups && groups[..k + 1] == groups[..k] + [groups[k]]
  {
    assert groups[..k + 1] == groups[..k] + [groups[k]];
  }

  /** Of the candidates, those that are not desired, each once: never one that is about to be added. */
  method StaleCandidateAttributes(desired: seq<Attribute>, candidates: seq<Attribute>) returns (remove: seq<Attribute>)
    ensures AreDistinct(remove) && Elements(remove) == Elements(candidates) - Elements(desired)
    ensures Elements(remove) !! Elements(desired)
  {
    var wanted := Elements(desired);
    var seen: set<Attribute> := {};
    remove := [];
    for k := 0 to |candidates|
      invariant AreDistinct(remove) && Elements(remove) == seen == Elements(candidates[..k]) - wanted
    {
      ElementsStep(candidates, k);
      if candidates[k] in wanted || candidates[k] in seen {
        continue;
      }
      seen := seen + {candidates[k]};
      remove := remove + [candidates[k]];
    }
    assert candidates[..|candidates|] == candidates;
  }

  /** An identity and the agent that its workload is of; published says whether the workload record is visible. */
  datatype Live = Live(agent: Id, attributes: set<Attribute>, published: bool)

  type Members = map<Id, set<Id>>

  function GroupsOf(members: Members, agent: Id): set<Id> {
    if agent in members then members[agent] else {}
  }

  function Desired(members: Members, agent: Id): set<Attribute> {
    AttributesOf(GroupsOf(members, agent))
  }

  /** The attributes after a patch: the desired ones are added, a candidate that is not desired is removed. */
  function Patched(attributes: set<Attribute>, desired: set<Attribute>, candidates: set<Attribute>): set<Attribute> {
    (attributes - (candidates - desired)) + desired
  }

  /** The identity once its workload has been patched. */
  function PatchedLive(live: Live, members: Members, candidates: set<Attribute>): Live {
    live.(attributes := Patched(live.attributes, Desired(members, live.agent), candidates))
  }

  class Directory {
    var members: Members
    var identities: map<Id, Live>
    ghost var faults: nat  // calls that have failed

    method ListGroups(agent: Id) returns (ok: bool, groups: seq<Id>)
      modifies `faults
      ensures faults == old(faults) + if ok then 0 else 1
      ensures ok ==> Elements(groups) == GroupsOf(members, agent)
    {
      ok := *;
      groups := [];
      faults := faults + if ok then 0 else 1;
      var rest := GroupsOf(members, agent);
      while rest != {}
        invariant rest <= GroupsOf(members, agent) && Elements(groups) == GroupsOf(members, agent) - rest
        decreases |rest|
      {
        var g :| g in rest;
        rest := rest - {g};
        assert Elements(groups + [g]) == Elements(groups) + {g};
        groups := groups + [g];
      }
    }

    /** One request adds and removes; the two never overlap. */
    method PatchIdentity(id: Id, add: seq<Attribute>, remove: seq<Attribute>) returns (ok: bool)
      requires id in identities && Elements(add) !! Elements(remove)
      modifies `identities, `faults
      ensures faults == old(faults) + if ok then 0 else 1
      ensures var live := old(identities)[id];
        identities ==
          if ok then old(identities)[id := live.(attributes := (live.attributes - Elements(remove)) + Elements(add))]
                      else old(identities)
    {
      ok := *;
      if ok {
        var live := identities[id];
        identities := identities[id := live.(attributes := (live.attributes - Elements(remove)) + Elements(add))];
      } else {
        faults := faults + 1;
      }
    }

    method PatchWorkload(id: Id, candidates: seq<Attribute>) returns (ok: bool)
      requires id in identities
      modifies `identities, `faults
      ensures faults >= old(faults)
      ensures faults == old(faults) ==> (ok <==> "" !in GroupsOf(members, old(identities)[id].agent))
      ensures identities == if ok then old(identities)[id := PatchedLive(old(identities)[id], members,
          Elements(candidates))] else old(identities)
      ensures ok ==> "" !in GroupsOf(members, old(identities)[id].agent)
    {
      var listed, groups := ListGroups(identities[id].agent);
      if !listed {
        return false;
      }
      assert "" in groups <==> "" in Elements(groups);
      var desired := AgentGroupRoleAttributes(groups);
      if desired.Err? {
        return false;
      }
      var remove := StaleCandidateAttributes(desired.value, candidates);
      ok := PatchIdentity(id, desired.value, remove);
    }

    /** Patches the given workloads one after the other; the first error ends it. */
    method PatchAll(ids: set<Id>, candidates: seq<Attribute>) returns (ok: bool)
      requires ids <= identities.Keys
      modifies `identities, `faults
      ensures faults >= old(faults)
      ensures faults == old(faults) ==>
        (ok <==> forall id :: id in ids ==> "" !in GroupsOf(members, old(identities)[id].agent))
      ensures IsPatched(old(identities), identities, members, ids, Elements(candidates), ok)
    {
      var rest := ids;
      ok := true;
      while rest != {}
        invariant rest <= ids && ids <= identities.Keys
        invariant identities.Keys == old(identities).Keys && faults >= old(faults)
        invariant forall id :: id in ids - rest ==> "" !in GroupsOf(members, old(identities)[id].agent)
        invariant forall id :: id in old(identities) ==>
          identities[id] ==
            if id in ids - rest then PatchedLive(old(identities)[id], members, Elements(candidates))
            else old(identities)[id]
        decreases |rest|
      {
        var id :| id in rest;
        rest := rest - {id};
        ok := PatchWorkload(id, candidates);
        if !ok {
          return;
        }
      }
    }

    /** An event about an agent and a group, added or removed alike. */
    method HandleAgentMembershipChange(agent: Id, group: Id) returns (ok: bool)
      modifies `identities, `faults
      ensures faults >= old(faults)
      ensures faults == old(faults) ==>
        (ok <==> forall id :: id in Published(old(identities), agent) ==>
          "" !in GroupsOf(members, old(identities)[id].agent))
      ensures IsPatched(old(identities), identities, members, Published(old(identities), agent), Candidates(group), ok)
    {
      var candidates: seq<Attribute> := if group == "" then [] else [GroupRoleAttribute(group)];
      assert Elements(candidates) == Candidates(group);
      var listed: bool := *;
      if !listed {
        faults := faults + 1;
        return false;
      }
      ok := PatchAll(Published(identities, agent), candidates);
    }

    /** The periodic repair; it has no candidates for removal. */
    method ReconcileAllAgentGroupRoles() returns (ok: bool)
      modifies `identities, `faults
      ensures faults >= old(faults)
      ensures faults == old(faults) ==>
        (ok <==> forall id :: id in AllPublished(old(identities)) ==>
          "" !in GroupsOf(members, old(identities)[id].agent))
      ensures IsPatched(old(identities), identities, members, AllPublished(old(identities)), {}, ok)
    {
      var listed: bool := *;
      if !listed {
        faults := faults + 1;
        return false;
      }
      ok := PatchAll(AllPublished(identities), []);
    }
  }

  function Candidates(group: Id): set<Attribute> {
    if group == "" then {} else {GroupRoleAttribute(group)}
  }

  function Published(identities: map<Id, Live>, agent: Id): set<Id> {
    set id | id in identities && identities[id].published && identities[id].agent == agent
  }

  function AllPublished(identities: map<Id, Live>): set<Id> {
    set id | id in identities && identities[id].published
  }

  /** The identities of ids have been patched, all of them if complete; no other has changed. */
  ghost predicate IsPatched(
    before: map<Id, Live>, after: map<Id, Live>, members: Members, ids: set<Id>, candidates: set<Attribute>,
    complete: bool)
  {
    && after.Keys == before.Keys
    && forall id :: id in before ==>
         || (after[id] == before[id] && !(complete && id in ids))
         || (id in ids && after[id] == PatchedLive(before[id], members, candidates))
  }

  /** Handling an event twice is handling it once. */
  lemma PatchTwice(attributes: set<Attribute>, desired: set<Attribute>, candidates: set<Attribute>)
    ensures Patched(Patched(attributes, desired, candidates), desired, candidates)
      == Patched(attributes, desired, candidates)
  {
  }

  /** Attributes that are not a group's are none of the patch's business. */
  lemma PatchKeepsOthers(attributes: set<Attribute>, members: Members, agent: Id, group: Id, other: Attribute)
    requires !IsGroupAttribute(other)
    ensures other in Patched(attributes, Desired(members, agent), Candidates(group)) <==> other in attributes
  {
    GroupAttributesDiffer(group, group);
    forall g | g in GroupsOf(members, agent) ensures GroupRoleAttribute(g) != other {
      GroupAttributesDiffer(g, g);
    }
  }

  /** A patch settles the attribute of the group that it is about. */
  lemma PatchSettles(attributes: set<Attribute>, members: Members, agent: Id, group: Id)
    requires group != ""
    ensures GroupRoleAttribute(group) in Patched(attributes, Desired(members, agent), Candidates(group))
         <==> group in GroupsOf(members, agent)
  {
    forall g | g in GroupsOf(members, agent)
      ensures GroupRoleAttribute(g) == GroupRoleAttribute(group) <==> g == group
    {
      GroupAttributesDiffer(g, group);
    }
  }

  /** And leaves every group's attribute right that was right. */
  lemma PatchKeepsRight(attributes: set<Attribute>, members: Members, agent: Id, candidates: set<Attribute>, group: Id)
    requires GroupRoleAttribute(group) in attributes <==> group in GroupsOf(members, agent)
    ensures GroupRoleAttribute(group) in Patched(attributes, Desired(members, agent), candidates)
         <==> group in GroupsOf(members, agent)
  {
    forall g | g in GroupsOf(members, agent)
      ensures GroupRoleAttribute(g) == GroupRoleAttribute(group) <==> g == group
    {
      GroupAttributesDiffer(g, group);
    }
  }
}
