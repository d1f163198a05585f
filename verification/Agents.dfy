/**
 * Agent approval of bootstrap/internal/controller/agent_controller.go: an agent is approved exactly when no
 * agent of another name with the same InfraEnv label is. The list is by label alone, over all namespaces.
 */
module Agents {
  import opened Basics

  datatype Id = Id(namespace: string, name: string)

  /** `fields` stands for role, ignition overrides and installer arguments. */
  datatype Agent = Agent(infraEnv: string, approved: bool, fields: string)

  type Store = map<Id, Agent>

  ghost predicate CanApprove(s: Store, id: Id)
    requires id in s
  {
    forall other | other in s && s[other].infraEnv == s[id].infraEnv && other.name != id.name :: !s[other].approved
  }

  ghost function Group(s: Store, infraEnv: string): set<Id> { set id | id in s && s[id].infraEnv == infraEnv }

  ghost function Approved(s: Store, infraEnv: string): set<Id> {
    set id | id in s && s[id].infraEnv == infraEnv && s[id].approved
  }

  /** One reconcile of one agent; it changes nothing when the agent is unknown or a call fails. */
  datatype Visit = Visit(id: Id, fields: string, succeeds: bool)

  ghost function After(s: Store, v: Visit): Store {
    if v.id in s && v.succeeds
    then s[v.id := s[v.id].(approved := CanApprove(s, v.id), fields := v.fields)]
    else s
  }

  ghost function AfterAll(s: Store, vs: seq<Visit>): (r: Store)
    ensures r.Keys == s.Keys
  {
    if vs == [] then s else After(AfterAll(s, vs[..|vs| - 1]), vs[|vs| - 1])
  }

  /** The agents of a label that were reconciled successfully. */
  ghost function Visited(s: Store, infraEnv: string, vs: seq<Visit>): set<Id> {
    if vs == [] then {}
    else
      var v := vs[|vs| - 1];
      Visited(s, infraEnv, vs[..|vs| - 1]) + if v.succeeds && v.id in Group(s, infraEnv) then {v.id} else {}
  }

  ghost predicate DistinctNames(ids: set<Id>) {
    forall a, b | a in ids && b in ids && a.name == b.name :: a == b
  }

  /** Reconciling never moves an agent to another label. */
  lemma {:induction false} GroupsAreFixed(s: Store, vs: seq<Visit>)
    ensures forall id | id in s :: AfterAll(s, vs)[id].infraEnv == s[id].infraEnv
  {
    if vs != [] { GroupsAreFixed(s, vs[..|vs| - 1]); }
  }

  /** What one visit does to the approved agents of a label. */
  lemma VisitDecides(s: Store, v: Visit, infraEnv: string)
    requires DistinctNames(Group(s, infraEnv))
    ensures Group(After(s, v), infraEnv) == Group(s, infraEnv)
    ensures var a, a' := Approved(s, infraEnv), Approved(After(s, v), infraEnv);
            if v.succeeds && v.id in Group(s, infraEnv)
            then a' == if a - {v.id} == {} then {v.id} else a - {v.id}
            else a' == a
  {
    var a, a' := Approved(s, infraEnv), Approved(After(s, v), infraEnv);
    if v.succeeds && v.id in Group(s, infraEnv) {
      if CanApprove(s, v.id) {
        assert a <= Group(s, infraEnv);
        assert a' == {v.id};
      } else {
        var other :| other in s && s[other].infraEnv == infraEnv && other.name != v.id.name && s[other].approved;
        assert other in a - {v.id};
        assert a' == a - {v.id};
      }
    } else {
      assert a' == a;
    }
  }

  /** The last successful visit to an agent, if there was one. */
  ghost function LastVisit(vs: seq<Visit>, id: Id): Option<Visit> {
    if vs == [] then None
    else
      var v := vs[|vs| - 1];
      if v.id == id && v.succeeds then Some(v) else LastVisit(vs[..|vs| - 1], id)
  }

  /** An agent has the fields of its last successful visit, and before the first one those it had. */
  lemma {:induction false} FieldsAreOfTheLastVisit(s: Store, vs: seq<Visit>, id: Id)
    requires id in s
    ensures AfterAll(s, vs)[id].fields == if LastVisit(vs, id).Some? then LastVisit(vs, id).value.fields else s[id].fields
  {
    if vs != [] { FieldsAreOfTheLastVisit(s, vs[..|vs| - 1], id); }
  }

  /** At most one approved agent stays at most one, whatever is reconciled in whatever order. */
  lemma {:induction false} AtMostOneIsKept(s: Store, vs: seq<Visit>, infraEnv: string)
    requires DistinctNames(Group(s, infraEnv)) && |Approved(s, infraEnv)| <= 1
    ensures |Approved(AfterAll(s, vs), infraEnv)| <= 1
  {
    if vs != [] {
      var t := AfterAll(s, vs[..|vs| - 1]);
      AtMostOneIsKept(s, vs[..|vs| - 1], infraEnv);
      GroupsAreFixed(s, vs[..|vs| - 1]);
      assert Group(t, infraEnv) == Group(s, infraEnv);
      VisitDecides(t, vs[|vs| - 1], infraEnv);
    }
  }

  /** A visited agent that is still approved is the only one, and after one visit somebody is approved. */
  lemma {:induction false} VisitedWinsAlone(s: Store, vs: seq<Visit>, infraEnv: string)
    requires DistinctNames(Group(s, infraEnv))
    ensures var a, r := Approved(AfterAll(s, vs), infraEnv), Visited(s, infraEnv, vs);
            (r != {} ==> a != {}) && (forall id | id in a && id in r :: a == {id})
  {
    if vs != [] {
      var before := vs[..|vs| - 1];
      var t := AfterAll(s, before);
      VisitedWinsAlone(s, before, infraEnv);
      GroupsAreFixed(s, before);
      assert Group(t, infraEnv) == Group(s, infraEnv);
      VisitDecides(t, vs[|vs| - 1], infraEnv);
    }
  }

  /**
   * From any approvals whatever, once every agent of the label was reconciled at least once, in any order
   * and with any repeats, exactly one is approved.
   */
  lemma ExactlyOneInTheEnd(s: Store, vs: seq<Visit>, infraEnv: string) returns (winner: Id)
    requires DistinctNames(Group(s, infraEnv)) && Group(s, infraEnv) != {}
    requires Visited(s, infraEnv, vs) == Group(s, infraEnv)
    ensures Approved(AfterAll(s, vs), infraEnv) == {winner}
  {
    VisitedWinsAlone(s, vs, infraEnv);
    GroupsAreFixed(s, vs);
    winner :| winner in Approved(AfterAll(s, vs), infraEnv);
    assert winner in Group(s, infraEnv);
  }

  /** Visits to every agent of a set. */
  ghost function Tour(ids: set<Id>): seq<Visit> {
    if ids == {} then [] else var id :| id in ids; Tour(ids - {id}) + [Visit(id, "", true)]
  }

  lemma {:induction false} TourVisits(s: Store, infraEnv: string, vs: seq<Visit>, ids: set<Id>)
    requires ids <= Group(s, infraEnv)
    ensures Visited(s, infraEnv, vs + Tour(ids)) == Visited(s, infraEnv, vs) + ids
    ensures forall id | id in s && id !in ids :: AfterAll(s, vs + Tour(ids))[id] == AfterAll(s, vs)[id]
    decreases ids
  {
    GroupsAreFixed(s, vs);
    if ids == {} {
      assert vs + Tour(ids) == vs;
    } else {
      var tour := Tour(ids);
      var id := tour[|tour| - 1].id;
      assert vs + tour == vs + Tour(ids - {id}) + [Visit(id, "", true)];
      assert (vs + tour)[..|vs + tour| - 1] == vs + Tour(ids - {id});
      TourVisits(s, infraEnv, vs, ids - {id});
      GroupsAreFixed(s, vs + Tour(ids - {id}));
    }
  }

  lemma FirstTwo(s: Store, infraEnv: string, a: Id, b: Id)
    requires a in Group(s, infraEnv) && b in Group(s, infraEnv) && a != b && a.name == b.name
    requires Approved(s, infraEnv) == {}
    ensures var two := [Visit(a, "", true), Visit(b, "", true)];
            Visited(s, infraEnv, two) == {a, b} && AfterAll(s, two)[a].approved && AfterAll(s, two)[b].approved
  {
    var va, vb := Visit(a, "", true), Visit(b, "", true);
    forall id | id in s && s[id].infraEnv == infraEnv ensures !s[id].approved { assert id !in Approved(s, infraEnv); }
    assert [va][..0] == [] && [va, vb][..1] == [va];
    var t := After(s, va);
    assert AfterAll(s, [va]) == t;
    assert CanApprove(s, a) && CanApprove(t, b);
    assert AfterAll(s, [va, vb]) == After(t, vb);
    assert Visited(s, infraEnv, [va]) == {a};
  }

  /**
   * The names must be distinct: two agents of one label that share a name in two namespaces ignore each
   * other, and from no approvals at all there is a complete schedule that ends with both approved.
   */
  lemma SharedNameApprovesTwo(s: Store, infraEnv: string, a: Id, b: Id) returns (vs: seq<Visit>)
    requires a in Group(s, infraEnv) && b in Group(s, infraEnv) && a != b && a.name == b.name
    requires Approved(s, infraEnv) == {}
    ensures Visited(s, infraEnv, vs) == Group(s, infraEnv)
    ensures {a, b} <= Approved(AfterAll(s, vs), infraEnv)
  {
    FirstTwo(s, infraEnv, a, b);
    var rest := Group(s, infraEnv) - {a, b};
    var two := [Visit(a, "", true), Visit(b, "", true)];
    TourVisits(s, infraEnv, two, rest);
    vs := two + Tour(rest);
    GroupsAreFixed(s, vs);
  }

  // ---------------------------------------------------------------- the reconciler as code

  /** Which calls of a reconcile get through: computing the fields, listing the agents, storing the update. */
  datatype Luck = Luck(computed: bool, listed: bool, stored: bool)

  /** There is nothing to write. */
  ghost predicate InLine(s: Store, id: Id, fields: string)
    requires id in s
  {
    s[id].fields == fields && (s[id].approved <==> CanApprove(s, id))
  }

  class Reconciler {
    var agents: Store

    /** How many updates were stored. */
    ghost var updates: nat

    constructor (agents: Store)
      ensures this.agents == agents && updates == 0
    {
      this.agents := agents;
      updates := 0;
    }

    /** Searches the agents of the label for an approved one of another name. */
    method CanApproveAgent(id: Id) returns (r: bool)
      requires id in agents
      ensures r <==> CanApprove(agents, id)
    {
      var todo := set other | other in agents && agents[other].infraEnv == agents[id].infraEnv;
      while todo != {}
        invariant todo <= agents.Keys && forall other | other in todo :: agents[other].infraEnv == agents[id].infraEnv
        invariant forall other | other in agents && agents[other].infraEnv == agents[id].infraEnv && other !in todo
                    :: other.name == id.name || !agents[other].approved
        decreases todo
      {
        var other :| other in todo;
        if other.name != id.name && agents[other].approved { return false; }
        todo := todo - {other};
      }
      r := true;
    }

    /** Brings one agent in line, writing only when something differs. */
    method SetAgentFields(id: Id, fields: string, luck: Luck) returns (r: Outcome, ghost v: Visit)
      modifies this`agents, this`updates
      ensures v == Visit(id, fields, id in old(agents) && luck.computed && luck.listed && (InLine(old(agents), id, fields) || luck.stored))
      ensures agents == After(old(agents), v)
      ensures r.Ok? <==> id !in old(agents) || v.succeeds
      ensures updates == old(updates) + if v.succeeds && !InLine(old(agents), id, fields) then 1 else 0
    {
      v := Visit(id, fields, false);
      if id !in agents { return Ok, v; }
      if !luck.computed { return Err, v; }
      if !luck.listed { return Err, v; }
      var approvable := CanApproveAgent(id);
      if agents[id].fields == fields && agents[id].approved == approvable {
        assert agents[id := agents[id].(approved := approvable, fields := fields)] == agents;
        return Ok, Visit(id, fields, true);
      }
      if !luck.stored { return Err, v; }
      agents := agents[id := agents[id].(approved := approvable, fields := fields)];
      updates := updates + 1;
      return Ok, Visit(id, fields, true);
    }
  }
}
