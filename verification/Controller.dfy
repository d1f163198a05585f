/**
 * The controller's passes as code: the stages of one reconcile pass over mutable machines and a live etcd
 * cluster, with every read, patch, create and delete free to fail, or to take effect although its reply is lost.
 * Each pass is one step of Lifecycle. A pass in which every call is answered and nobody else moves does all it
 * wants to, and enough of those settle everything.
 */
module Controller {
  import opened Basics
  import opened Etcd
  import opened Lifecycle

  /** How a stage ends: go on to the next one, requeue, or return an error. */
  datatype Verdict = Proceed | Requeue | Failed

  /**
   * What a pass meets: whether the kubeconfig is said to be available, whether it and the active machines can be
   * read, and whether things are calm, that is, every other call is answered and nobody else moves.
   */
  datatype Weather = Weather(available: bool, kubeconfig: bool, activeListed: bool, calm: bool)

  predicate Readable(w: Weather) { w.available && w.kubeconfig && w.activeListed }

  /** Things are calm, and everything can be read, or there is no node to read about yet. */
  ghost predicate Fine(w: Weather, ms: Machines) { w.calm && (Readable(w) || NodesOf(ms) == {}) }

  /**
   * A created machine has the name and the failure domain that were chosen, no node and no bootstrap data, and the
   * hook unless on KubeVirt; a deleted one was active in that domain, and none there was created earlier.
   */
  ghost predicate Chosen(ms: Machines, act: Act, name: string, zone: string, now: nat, kubevirt: bool) {
    match act
    case Created(n, m) => n == name && m == Machine(None, now, !kubevirt, None, zone, false)
    case Marked(n, at) =>
      && at == now && n in ms && ms[n].deleted.None? && ms[n].zone == zone
      && forall o | o in ms && ms[o].deleted.None? && ms[o].zone == zone :: ms[n].created <= ms[o].created
    case _ => true
  }

  /** The machine whose deletion was handled had the hook, and no other such machine was deleted earlier. */
  ghost predicate HandledInTurn(ms: Machines, act: Act) {
    act.HookCleared? || act.HookKept? ==>
      && act.name in ms && ms[act.name].hook && ms[act.name].deleted.Some?
      && forall o | o in ms && ms[o].hook && ms[o].deleted.Some? :: ms[act.name].deleted.value <= ms[o].deleted.value
  }

  /**
   * Orphans are looked for only when the kubeconfig is said to be available, and removed only when it can be read;
   * where it is said to be but cannot be read although there are nodes, no machine is created or deleted.
   */
  ghost predicate Gated(w: Weather, ms: Machines, act: Act) {
    && (act.OrphanRemoved? ==> w.available && w.kubeconfig)
    && (act.Created? || act.Marked? ==> !w.available || w.kubeconfig || NodesOf(ms) == {})
  }

  /** An orphan that is removed is the first in the list that no machine answers for. */
  ghost predicate FirstOrphanOnly(ms: Machines, act: Act) {
    act.OrphanRemoved? && act.gone.Some? ==>
      var g := act.gone.value;
      exists i :: 0 <= i < |g.before| && g.before[i] == g.member && forall k | 0 <= k < i :: g.before[k].name in NodesOf(ms)
  }

  /** What the caller is told: to come back after a hook or an orphan was dealt with, an error when something failed. */
  ghost predicate Told(r: Verdict, act: Act, clean: bool) {
    match r
    case Requeue => act.HookCleared? || act.OrphanRemoved?
    case Proceed => act.Nothing? || act.Created? || act.Marked?
    case Failed => !clean
  }

  /** The library offers a zone that has a machine to delete, when one is due. */
  ghost predicate ZoneFits(ms: Machines, desired: int, zone: string) {
    |ActiveOf(ms)| > desired ==> exists n :: n in ms && Active(ms[n]) && ms[n].zone == zone
  }

  /** The member that a name denotes may lead, and it is up. */
  ghost predicate InGoodStanding(ms: seq<Member>, pods: seq<Pod>, name: string) {
    Find(ms, name).Some? && Up(Find(ms, name).value, pods) && !Find(ms, name).value.learner
  }

  /** Leadership moves asked for since: none, or one from the node to that of a newest machine that stays. */
  ghost predicate OnlyToNewest(ms: Machines, node: string, before: seq<Move>, after: seq<Move>) {
    after == before ||
      exists to :: Candidate(ms, to) && (forall n | Candidate(ms, n) :: ms[n].created <= ms[to].created)
        && after == before + [Move(node, ms[to].node.value)]
  }

  /** Machines that stay and whose node has a listed member. */
  ghost function KeepersOf(w: World): set<string> {
    set n | n in w.machines && Active(w.machines[n]) && w.machines[n].node.Some? && Find(w.members, w.machines[n].node.value).Some?
  }

  /** However many machines are too many, whichever of them go, one with a member stays. */
  ghost predicate Enough(w: World) {
    |KeepersOf(w)| >= 1 && |KeepersOf(w)| + w.desired > |ActiveOf(w.machines)|
  }

  /** Whichever machine is asked to take over may. */
  ghost predicate AllFit(w: World, pods: seq<Pod>) {
    forall n | Candidate(w.machines, n) :: InGoodStanding(w.members, pods, w.machines[n].node.value)
  }

  /** Nobody will have to take over: the leader is the member of a machine that stays, and no machine must go. */
  ghost predicate LeaderStays(w: World, leader: nat) {
    && leader != 0 && |ActiveOf(w.machines)| <= w.desired
    && exists n :: Candidate(w.machines, n) && IdOf(Find(w.members, w.machines[n].node.value)) == Some(leader)
  }

  /**
   * A cluster with nodes that gives the controller nothing to refuse: enough machines with members stay, some pod can
   * be reached, nothing is corrupt, and leadership need not move or can. Of members of machines that go and of those
   * of no machine nothing is asked, except that a leader is up.
   */
  ghost predicate Sound(w: World, leader: nat, pods: seq<Pod>, alarms: seq<Alarm>) {
    && Corrupt !in alarms && HasPod(pods) && Enough(w)
    && (forall n | n in w.machines && w.machines[n].node.Some? :: w.machines[n].node.value != "")
    && ((AllFit(w, pods) && LeaderUp(w.members, leader, pods)) || LeaderStays(w, leader))
  }

  /** No machine has a node yet, or the cluster is sound. */
  ghost predicate Healthy(w: World, leader: nat, pods: seq<Pod>, alarms: seq<Alarm>) {
    w.desired >= 0 && Inv(w) && (NodesOf(w.machines) == {} || Sound(w, leader, pods, alarms))
  }

  lemma {:induction false} FindWithout(ms: seq<Member>, m: Member, name: string)
    requires UniqueIds(ms) && m in ms && m.name != name
    ensures Find(Without(ms, m.id), name) == Find(ms, name)
  {
    UniqueTail(ms);
    if ms[0].id == m.id {
      SameIdSameMember(ms, ms[0], m);
      NothingToRemove(ms[1..], m.id);
    } else {
      FindWithout(ms[1..], m, name);
      assert Without(ms, m.id)[1..] == Without(ms[1..], m.id);
    }
  }

  lemma AtLeastTwo(ms: seq<Member>, a: Member, b: Member)
    requires a in ms && b in ms && a != b
    ensures |ms| != 1
  {
  }

  lemma Keeper(w: World) returns (n: string, keeper: Member)
    requires Enough(w)
    ensures Candidate(w.machines, n) && keeper in w.members && keeper.name == w.machines[n].node.value
  {
    n :| n in KeepersOf(w);
    keeper := Find(w.members, w.machines[n].node.value).value;
  }

  /** Nothing is asked of members beyond those of the staying machines: any others may be there, reachable or not. */
  lemma HealthyWhoeverElseIsThere(w: World, leader: nat, pods: seq<Pod>, alarms: seq<Alarm>, more: seq<Member>)
    requires Healthy(w, leader, pods, alarms) && UniqueIds(w.members + more)
    ensures Healthy(w.(members := w.members + more), leader, pods, alarms)
  {
    var v := w.(members := w.members + more);
    forall n | n in w.machines && w.machines[n].node.Some? && Find(w.members, w.machines[n].node.value).Some?
      ensures Find(v.members, w.machines[n].node.value) == Find(w.members, w.machines[n].node.value)
    {
      FindInLonger(w.members, more, w.machines[n].node.value);
    }
    if Sound(w, leader, pods, alarms) {
      assert KeepersOf(w) <= KeepersOf(v);
      SubsetSize(KeepersOf(w), KeepersOf(v));
      if leader != 0 && LeaderUp(w.members, leader, pods) {
        var l :| l in w.members && l.id == leader && Up(l, pods);
        assert l in v.members;
      }
    }
  }

  /** A member of none of the staying machines' nodes can be removed, wherever it may be. */
  lemma SoundAllowsRemoval(w: World, leader: nat, pods: seq<Pod>, alarms: seq<Alarm>, m: Member)
    requires Sound(w, leader, pods, alarms) && m in w.members
    requires forall n | Candidate(w.machines, n) :: w.machines[n].node.value != m.name
    ensures RemovableId(w.members, alarms, m.id)
  {
    var n, keeper := Keeper(w);
    AtLeastTwo(w.members, m, keeper);
  }

  /** A leader of a machine that stays is not the member of any other name. */
  lemma StayingLeader(w: World, leader: nat, name: string)
    requires LeaderStays(w, leader) && UniqueIds(w.members)
    requires forall n | Candidate(w.machines, n) :: w.machines[n].node.value != name
    ensures NotLeading(w.members, leader, name)
  {
    var n :| Candidate(w.machines, n) && IdOf(Find(w.members, w.machines[n].node.value)) == Some(leader);
    if Find(w.members, name).Some? && Find(w.members, name).value.id == leader {
      SameIdSameMember(w.members, Find(w.members, name).value, Find(w.members, w.machines[n].node.value).value);
    }
  }

  lemma CandidatesElsewhere(w: World, name: string)
    requires DistinctNodes(w.machines) && name in w.machines && !Active(w.machines[name]) && w.machines[name].node.Some?
    ensures forall n | Candidate(w.machines, n) :: w.machines[n].node.value != w.machines[name].node.value
  {
    forall n | Candidate(w.machines, n) ensures w.machines[n].node.value != w.machines[name].node.value {
      assert w.machines[n].node != w.machines[name].node;
    }
  }

  /** A deleting machine's node can yield leadership to any candidate's: where it does not lead, it need not even be up. */
  lemma SoundYields(w: World, leader: nat, pods: seq<Pod>, alarms: seq<Alarm>, name: string, to: string)
    requires Inv(w) && Sound(w, leader, pods, alarms) && Candidate(w.machines, to)
    requires name in w.machines && !Active(w.machines[name]) && w.machines[name].node.Some?
    ensures CanYield(w.members, leader, pods, w.machines[name].node.value, w.machines[to].node.value)
    ensures LeaderStays(w, leader) || TargetUp(w.members, pods, w.machines[to].node.value)
  {
    var from := w.machines[name].node.value;
    CandidatesElsewhere(w, name);
    if LeaderStays(w, leader) {
      StayingLeader(w, leader, from);
    } else {
      FitYields(w, leader, pods, from, to);
    }
  }

  lemma FitYields(w: World, leader: nat, pods: seq<Pod>, from: string, to: string)
    requires UniqueIds(w.members) && HasPod(pods) && AllFit(w, pods) && LeaderUp(w.members, leader, pods) && from != ""
    requires Candidate(w.machines, to) && w.machines[to].node.value != from
    ensures CanYield(w.members, leader, pods, from, w.machines[to].node.value)
    ensures TargetUp(w.members, pods, w.machines[to].node.value)
  {
    assert InGoodStanding(w.members, pods, w.machines[to].node.value);
    var t := Find(w.members, w.machines[to].node.value).value;
    if Find(w.members, from).Some? {
      var source := Find(w.members, from).value;
      if source.id == t.id { SameIdSameMember(w.members, source, t); }
      if leader != 0 && leader == source.id { LeaderIsThatMember(w.members, leader, pods, source); }
    }
  }

  lemma SoundRetires(w: World, leader: nat, pods: seq<Pod>, alarms: seq<Alarm>, name: string)
    requires Inv(w) && Sound(w, leader, pods, alarms)
    requires name in w.machines && !Active(w.machines[name]) && w.machines[name].node.Some?
    ensures RemovableName(w.members, alarms, w.machines[name].node.value)
  {
    var n, keeper := Keeper(w);
    CandidatesElsewhere(w, name);
    if Find(w.members, w.machines[name].node.value).Some? {
      AtLeastTwo(w.members, Find(w.members, w.machines[name].node.value).value, keeper);
    }
  }

  // ---------------------------------------------------------------- what keeps a cluster healthy

  /** Yielding does: the leader is up as before, and one that is not the node's goes on leading. */
  lemma YieldKeepsHealthy(w: World, leader: nat, leader': nat, pods: seq<Pod>, alarms: seq<Alarm>, name: string)
    requires Healthy(w, leader, pods, alarms)
    requires name in w.machines && !Active(w.machines[name]) && w.machines[name].node.Some?
    requires AllFit(w, pods) && LeaderUp(w.members, leader, pods) ==> LeaderUp(w.members, leader', pods)
    requires leader != 0 && NotLeading(w.members, leader, w.machines[name].node.value) ==> leader' == leader
    ensures Healthy(w, leader', pods, alarms)
  {
    if Sound(w, leader, pods, alarms) && LeaderStays(w, leader) {
      CandidatesElsewhere(w, name);
      StayingLeader(w, leader, w.machines[name].node.value);
    }
  }

  lemma {:induction false} FindLeft(ms: seq<Member>, gone: Option<Removal>, ms': seq<Member>, name: string)
    requires UniqueIds(ms) && Alone(ms, gone, ms')
    requires gone.Some? ==> Departed(gone.value, ms') && gone.value.member.name != name
    ensures Find(ms', name) == Find(ms, name)
  {
    if gone.Some? { FindWithout(ms, gone.value.member, name); }
  }

  /** So does removing a member of no staying machine's node, or none at all. */
  lemma RemovalKeepsHealthy(w: World, leader: nat, gone: Option<Removal>, w': World, leader': nat, pods: seq<Pod>, alarms: seq<Alarm>)
    requires Healthy(w, leader, pods, alarms) && w' == w.(members := w'.members)
    requires Alone(w.members, gone, w'.members) && LeaderFollows(w.members, leader, gone, w'.members, leader', pods)
    requires gone.Some? ==> Departed(gone.value, w'.members)
                            && forall n | Candidate(w.machines, n) :: w.machines[n].node.value != gone.value.member.name
    ensures Healthy(w', leader', pods, alarms)
  {
    if gone.Some? { WithoutKeepsUnique(w.members, gone.value.member.id); }
    forall n | Candidate(w.machines, n)
      ensures Find(w'.members, w.machines[n].node.value) == Find(w.members, w.machines[n].node.value)
    {
      FindLeft(w.members, gone, w'.members, w.machines[n].node.value);
    }
    if Sound(w, leader, pods, alarms) {
      assert KeepersOf(w') == KeepersOf(w) by {
        assert forall n | n in w.machines && Active(w.machines[n]) && w.machines[n].node.Some? :: Candidate(w.machines, n);
      }
      if LeaderStays(w, leader) { StayingLeaderIsKept(w, leader, gone); }
    }
  }

  lemma StayingLeaderIsKept(w: World, leader: nat, gone: Option<Removal>)
    requires LeaderStays(w, leader) && UniqueIds(w.members)
    requires gone.Some? ==> gone.value.member in w.members
                            && forall n | Candidate(w.machines, n) :: w.machines[n].node.value != gone.value.member.name
    ensures gone.Some? ==> gone.value.member.id != leader
  {
    var n :| Candidate(w.machines, n) && IdOf(Find(w.members, w.machines[n].node.value)) == Some(leader);
    if gone.Some? && gone.value.member.id == leader {
      SameIdSameMember(w.members, gone.value.member, Find(w.members, w.machines[n].node.value).value);
    }
  }

  lemma HooksKeepZones(ms: Machines, hooked: set<string>, desired: int, zone: string)
    requires hooked <= UnhookedOf(ms)
    ensures ZoneFits(ms, desired, zone) ==> ZoneFits(AddHooks(ms, hooked), desired, zone)
  {
    var ms' := AddHooks(ms, hooked);
    HooksKeepSets(ms, hooked);
    if ZoneFits(ms, desired, zone) && |ActiveOf(ms)| > desired {
      var n :| n in ms && Active(ms[n]) && ms[n].zone == zone;
      assert n in ms' && Active(ms'[n]) && ms'[n].zone == zone;
    }
  }

  /** And adding hooks, which changes nothing that health depends on. */
  lemma HooksKeepHealthy(w: World, hooked: set<string>, leader: nat, pods: seq<Pod>, alarms: seq<Alarm>)
    requires Healthy(w, leader, pods, alarms) && hooked <= UnhookedOf(w.machines)
    ensures Healthy(w.(machines := AddHooks(w.machines, hooked)), leader, pods, alarms)
  {
    var v := w.(machines := AddHooks(w.machines, hooked));
    HooksKeepNodes(w.machines, hooked);
    assert forall n | n in w.machines :: v.machines[n].node == w.machines[n].node && v.machines[n].deleted == w.machines[n].deleted;
    SameCandidates(w, leader, v, pods, alarms);
  }

  lemma SameCandidates(w: World, leader: nat, v: World, pods: seq<Pod>, alarms: seq<Alarm>)
    requires Healthy(w, leader, pods, alarms) && v == w.(machines := v.machines) && v.machines.Keys == w.machines.Keys
    requires forall n | n in w.machines :: v.machines[n].node == w.machines[n].node && v.machines[n].deleted == w.machines[n].deleted
    requires NodesOf(v.machines) == NodesOf(w.machines)
    ensures Healthy(v, leader, pods, alarms)
  {
    assert forall n :: Candidate(v.machines, n) <==> Candidate(w.machines, n);
    assert KeepersOf(v) == KeepersOf(w);
    assert ActiveOf(v.machines) == ActiveOf(w.machines);
    assert DistinctNodes(v.machines);
  }

  /** Hooks are added to machines that stay, so they change neither whose turn it is nor who is chosen. */
  lemma HooksChangeNoChoice(ms: Machines, hooked: set<string>, act: Act, name: string, zone: string, now: nat, kubevirt: bool)
    requires hooked <= UnhookedOf(ms)
    requires var ms' := AddHooks(ms, hooked); Chosen(ms', act, name, zone, now, kubevirt) && HandledInTurn(ms', act)
    ensures Chosen(ms, act, name, zone, now, kubevirt) && HandledInTurn(ms, act)
  {
    var ms' := AddHooks(ms, hooked);
    assert forall n | n in ms :: ms'[n].(hook := ms[n].hook) == ms[n] && (ms[n].deleted.Some? ==> ms'[n] == ms[n]);
  }

  /** Where the first member stands that carries no expected name, or the length of the list. */
  ghost function FirstUnexpected(list: seq<Member>, expected: set<string>): (r: nat)
    ensures r <= |list| && (r < |list| ==> list[r].name !in expected) && forall k | 0 <= k < r :: list[k].name in expected
  {
    if list == [] || list[0].name !in expected then 0 else 1 + FirstUnexpected(list[1..], expected)
  }

  ghost function GoneBy(act: Act): Option<Removal> { GoneIn(ByController(Pass({}, act, false, false, []))) }

  /** What a pass may do to the machines, the members being what they are afterwards. */
  ghost predicate MachinesMoved(ms: Machines, desired: int, act: Act, ms': Machines) {
    match act
    case HookCleared(name, _) => name in ms && Pending(ms[name]) && ms' == ms[name := ms[name].(hook := false)]
    case Created(name, m) => |ActiveOf(ms)| < desired && name !in ms && Active(m) && m.node.None? && ms' == ms[name := m]
    case Marked(name, at) =>
      |ActiveOf(ms)| > desired && name in ms && Active(ms[name]) && ms' == ms[name := ms[name].(deleted := Some(at))]
    case _ => ms' == ms
  }

  /** No pass gives a machine a node or takes it away. */
  lemma NodesStay(ms: Machines, desired: int, act: Act, ms': Machines)
    requires MachinesMoved(ms, desired, act, ms')
    ensures NodesOf(ms') == NodesOf(ms)
  {
    forall x | x in NodesOf(ms) ensures x in NodesOf(ms') {
      var n :| n in ms && ms[n].node == Some(x);
      assert ms'[n].node == Some(x);
    }
    forall x | x in NodesOf(ms') ensures x in NodesOf(ms) {
      var n :| n in ms' && ms'[n].node == Some(x);
      assert ms[n].node == Some(x);
    }
  }

  lemma ClearingKeepsHealthy(w: World, leader: nat, act: Act, v: World, pods: seq<Pod>, alarms: seq<Alarm>)
    requires Healthy(w, leader, pods, alarms) && v == w.(machines := v.machines)
    requires act.HookCleared? && MachinesMoved(w.machines, w.desired, act, v.machines)
    ensures Healthy(v, leader, pods, alarms)
  {
    NodesStay(w.machines, w.desired, act, v.machines);
    SameCandidates(w, leader, v, pods, alarms);
  }

  lemma MovedNodesDistinct(ms: Machines, desired: int, act: Act, ms': Machines)
    requires DistinctNodes(ms) && MachinesMoved(ms, desired, act, ms')
    ensures DistinctNodes(ms')
  {
    forall a, b | a in ms' && b in ms' && a != b && ms'[a].node.Some? && ms'[b].node.Some? ensures ms'[a].node != ms'[b].node {
      assert a in ms && b in ms && ms[a].node == ms'[a].node && ms[b].node == ms'[b].node;
    }
  }

  /** Whoever is a candidate afterwards was one before, with the same node. */
  ghost predicate NoNewCandidates(w: World, v: World) {
    forall n | Candidate(v.machines, n) :: Candidate(w.machines, n) && v.machines[n].node == w.machines[n].node
  }

  lemma FewerFit(w: World, v: World, pods: seq<Pod>)
    requires v == w.(machines := v.machines) && NoNewCandidates(w, v) && AllFit(w, pods)
    ensures AllFit(v, pods)
  {
  }

  lemma CreationLeavesEnough(w: World, leader: nat, act: Act, v: World)
    requires act.Created? && v == w.(machines := v.machines) && MachinesMoved(w.machines, w.desired, act, v.machines)
    ensures NoNewCandidates(w, v) && (Enough(w) ==> Enough(v)) && (LeaderStays(w, leader) ==> LeaderStays(v, leader))
  {
    assert ActiveOf(v.machines) == ActiveOf(w.machines) + {act.name};
    assert KeepersOf(v) == KeepersOf(w);
    if LeaderStays(w, leader) {
      var n :| Candidate(w.machines, n) && IdOf(Find(w.members, w.machines[n].node.value)) == Some(leader);
      assert Candidate(v.machines, n) && v.machines[n] == w.machines[n];
    }
  }

  /** So does creating a machine, */
  lemma CreationKeepsHealthy(w: World, leader: nat, act: Act, v: World, pods: seq<Pod>, alarms: seq<Alarm>)
    requires Healthy(w, leader, pods, alarms) && v == w.(machines := v.machines)
    requires act.Created? && MachinesMoved(w.machines, w.desired, act, v.machines)
    ensures Healthy(v, leader, pods, alarms)
  {
    NodesStay(w.machines, w.desired, act, v.machines);
    MovedNodesDistinct(w.machines, w.desired, act, v.machines);
    CreationLeavesEnough(w, leader, act, v);
    if AllFit(w, pods) { FewerFit(w, v, pods); }
  }

  lemma DeletionLeavesEnough(w: World, leader: nat, act: Act, v: World)
    requires act.Marked? && v == w.(machines := v.machines) && MachinesMoved(w.machines, w.desired, act, v.machines)
    ensures NoNewCandidates(w, v) && (Enough(w) ==> Enough(v)) && !LeaderStays(w, leader)
  {
    assert ActiveOf(v.machines) == ActiveOf(w.machines) - {act.name};
    assert KeepersOf(v) == KeepersOf(w) - {act.name};
  }

  /** and deleting one, which happens only where leadership can move. */
  lemma DeletionKeepsHealthy(w: World, leader: nat, act: Act, v: World, pods: seq<Pod>, alarms: seq<Alarm>)
    requires Healthy(w, leader, pods, alarms) && v == w.(machines := v.machines)
    requires act.Marked? && MachinesMoved(w.machines, w.desired, act, v.machines)
    ensures Healthy(v, leader, pods, alarms)
  {
    NodesStay(w.machines, w.desired, act, v.machines);
    MovedNodesDistinct(w.machines, w.desired, act, v.machines);
    DeletionLeavesEnough(w, leader, act, v);
    if AllFit(w, pods) { FewerFit(w, v, pods); }
  }

  /** The stages after the hooks, put together with them, are a pass. */
  lemma StagesMakeAPass(w: World, p: Pass, w': World)
    requires p.hooked <= UnhookedOf(w.machines) && (!p.act.Nothing? || p.clean ==> p.hooked == UnhookedOf(w.machines))
    requires w'.desired == w.desired && w'.kubevirt == w.kubevirt
    requires !p.act.Nothing? ==> ActStep(Hooked(w, p), p.(hooked := {}), w')
    requires p.act.Nothing? ==> w'.machines == Hooked(w, p).machines && w.members <= w'.members
    requires p.act.Nothing? && p.clean ==>
               PendingOf(w'.machines) == {} && OrphansHandled(w'.machines, w'.members) && ScaleSettled(w')
    ensures PassStep(w, p, w')
    ensures Alone(w.members, GoneBy(p.act), w'.members) ==> Undisturbed(w, ByController(p), w')
    ensures NodesOf(w'.machines) == NodesOf(w.machines)
  {
    HooksKeepSets(w.machines, p.hooked);
    HooksKeepNodes(w.machines, p.hooked);
    NodesStay(Hooked(w, p).machines, w.desired, p.act, w'.machines);
  }

  lemma WellZone(w: World, zone: string)
    requires w.desired >= 0 && forall n | n in ActiveOf(w.machines) :: exists k :: k in ActiveOf(w.machines) && w.machines[k].zone == zone
    ensures ZoneFits(w.machines, w.desired, zone)
  {
    if |ActiveOf(w.machines)| > w.desired {
      var n :| n in ActiveOf(w.machines);
    }
  }

  class Reconciler {
    var machines: Machines
    var desired: int
    const etcd: Cluster
    const kubevirt: bool

    ghost predicate Valid()
      reads this, etcd
    {
      etcd.Valid() && etcd.open == {}
    }

    ghost function View(): World
      reads this, etcd
    {
      World(machines, etcd.members, desired, kubevirt)
    }

    ghost predicate Well()
      reads this, etcd
    {
      Healthy(View(), etcd.leader, etcd.pods, etcd.alarms)
    }

    constructor (machines: Machines, desired: int, etcd: Cluster, kubevirt: bool)
      requires etcd.Valid() && etcd.open == {}
      ensures Valid() && View() == World(machines, etcd.members, desired, kubevirt) && this.etcd == etcd
    {
      this.machines, this.desired, this.etcd, this.kubevirt := machines, desired, etcd, kubevirt;
    }

    /** Adds the hook to every active machine that lacks it; one failed patch does not stop the others. */
    method EnsurePreTerminateHooks(calm: bool) returns (r: Outcome, ghost hooked: set<string>)
      modifies this`machines
      ensures hooked <= UnhookedOf(old(machines)) && machines == AddHooks(old(machines), hooked)
      ensures r.Ok? ==> hooked == UnhookedOf(old(machines))
      ensures calm ==> r.Ok?
    {
      hooked := {};
      assert AddHooks(machines, {}) == machines;
      var listed: bool := *;
      if !listed && !calm { return Err, {}; }
      var todo := ActiveOf(machines);
      r := Ok;
      while todo != {}
        invariant todo <= ActiveOf(old(machines)) && todo !! hooked
        invariant hooked <= UnhookedOf(old(machines)) && machines == AddHooks(old(machines), hooked)
        invariant r.Ok? ==> hooked == UnhookedOf(old(machines)) - todo
        invariant calm ==> r.Ok?
        decreases todo
      {
        var n :| n in todo;
        todo := todo - {n};
        if machines[n].hook { continue; }
        var patched, replied: bool := *, *;
        if patched || calm {
          machines := machines[n := machines[n].(hook := true)];
          hooked := hooked + {n};
        }
        if !(patched && replied) && !calm { r := Err; }
      }
    }

    /** The first stage, and what it leaves as it was. */
    method HookMachines(calm: bool, ghost zone: string) returns (r: Outcome, ghost hooked: set<string>)
      modifies this`machines
      ensures hooked <= UnhookedOf(old(machines)) && machines == AddHooks(old(machines), hooked)
      ensures r.Ok? ==> hooked == UnhookedOf(old(machines))
      ensures calm ==> r.Ok?
      ensures NodesOf(machines) == NodesOf(old(machines)) && (ZoneFits(old(machines), desired, zone) ==> ZoneFits(machines, desired, zone))
      ensures old(Well()) ==> Well()
    {
      r, hooked := EnsurePreTerminateHooks(calm);
      HooksKeepNodes(old(machines), hooked);
      HooksKeepZones(old(machines), hooked, desired, zone);
      if old(Well()) { HooksKeepHealthy(old(View()), hooked, etcd.leader, etcd.pods, etcd.alarms); }
    }

    method OldestDeletion(names: set<string>) returns (r: string)
      requires names != {} && names <= machines.Keys
      ensures r in names && forall n | n in names :: DeletedAt(machines[r]) <= DeletedAt(machines[n])
    {
      r :| r in names;
      var todo := names - {r};
      while todo != {}
        invariant r in names && todo <= names && forall n | n in names - todo :: DeletedAt(machines[r]) <= DeletedAt(machines[n])
        decreases todo
      {
        var n :| n in todo;
        if DeletedAt(machines[n]) < DeletedAt(machines[r]) { r := n; }
        todo := todo - {n};
      }
    }

    method Oldest(names: set<string>) returns (r: string)
      requires names != {} && names <= machines.Keys
      ensures r in names && forall n | n in names :: machines[r].created <= machines[n].created
    {
      r :| r in names;
      var todo := names - {r};
      while todo != {}
        invariant r in names && todo <= names && forall n | n in names - todo :: machines[r].created <= machines[n].created
        decreases todo
      {
        var n :| n in todo;
        if machines[n].created < machines[r].created { r := n; }
        todo := todo - {n};
      }
    }

    method Newest(names: set<string>) returns (r: string)
      requires names != {} && names <= machines.Keys
      ensures r in names && forall n | n in names :: machines[n].created <= machines[r].created
    {
      r :| r in names;
      var todo := names - {r};
      while todo != {}
        invariant r in names && todo <= names && forall n | n in names - todo :: machines[n].created <= machines[r].created
        decreases todo
      {
        var n :| n in todo;
        if machines[n].created > machines[r].created { r := n; }
        todo := todo - {n};
      }
    }

    /** Moves leadership of the node's member to the newest machine that stays, if there is one. */
    method YieldLeadership(name: string, calm: bool) returns (r: Outcome)
      requires Valid() && name in machines && machines[name].node.Some? && !Active(machines[name])
      modifies etcd
      ensures Valid() && etcd.Onward()
      ensures r.Ok? && (exists n :: Candidate(machines, n)) ==>
                etcd.AllClear(machines[name].node.value) && etcd.mon.word.at >= |old(etcd.log)|
      ensures OnlyToNewest(machines, machines[name].node.value, old(etcd.asked).moves, etcd.asked.moves)
      ensures calm ==> etcd.Steady()
      ensures calm && old(Well()) ==> r.Ok? && Well()
    {
      var candidates := set n | n in machines && Active(machines[n]) && machines[n].node.Some?;
      assert forall n :: Candidate(machines, n) <==> n in candidates;
      if candidates == {} { return Ok; }
      var to := Newest(candidates);
      assert machines[name].node.value in NodesOf(machines);
      if Well() { SoundYields(View(), etcd.leader, etcd.pods, etcd.alarms, name, to); }
      r := ProtectEtcdLeadership(etcd, machines[name].node.value, machines[to].node.value, calm);
      if calm && old(Well()) { YieldKeepsHealthy(View(), old(etcd.leader), etcd.leader, etcd.pods, etcd.alarms, name); }
    }

    /** A cleared member that led when it left: the trace shows the word that cleared it, and then an election. */
    lemma LedAfterElection(start: nat, gone: Removal)
      requires Valid() && Cleared(etcd.mon, gone.member.name) && start <= etcd.mon.word.at && etcd.mon.elections > etcd.mon.word.since
      requires etcd.mon.word.looked.value.id in {None, Some(gone.member.id)}
      ensures start <= |etcd.log| && OvertakenByElection(etcd.log[start..], gone.member.name, gone.member.id)
    {
      etcd.MonitorSawEverything();
      ElectionAfterWord(etcd.log, start, gone.member.name, gone.member.id);
    }

    /**
     * Moves leadership away and then removes the node's member. The trace of both is what `LeadershipRespected`
     * speaks about.
     */
    method RetireMember(name: string, calm: bool) returns (r: Outcome, ghost gone: Option<Removal>)
      requires Valid() && name in machines && machines[name].node.Some? && !Active(machines[name])
      modifies etcd
      ensures Valid() && old(etcd.log) <= etcd.log
      ensures Effect(old(etcd.members), gone, etcd.members) && RemovedFor(machines[name], gone)
      ensures r.Ok? && gone.None? ==> Find(old(etcd.members), machines[name].node.value).None?
      ensures LeadershipRespected(machines, gone, etcd.log[|old(etcd.log)|..])
      ensures OnlyToNewest(machines, machines[name].node.value, old(etcd.asked).moves, etcd.asked.moves)
      ensures calm ==> etcd.alarms == old(etcd.alarms) && etcd.pods == old(etcd.pods) && Alone(old(etcd.members), gone, etcd.members)
      ensures calm && old(Well()) ==> r.Ok? && Well()
    {
      var node := machines[name].node.value;
      gone := None;
      r := YieldLeadership(name, calm);
      if r.Err? { return r, None; }
      FindInExtension(old(etcd.members), etcd.members, node);
      r, gone := RemoveMemberOf(name, |old(etcd.log)|, exists n :: Candidate(machines, n), calm);
    }

    /** The removal for a deleting machine, once its member's leadership was cleared if anybody could take over. */
    method RemoveMemberOf(name: string, ghost start: nat, ghost cleared: bool, calm: bool) returns (r: Outcome, ghost gone: Option<Removal>)
      requires Valid() && name in machines && machines[name].node.Some? && !Active(machines[name])
      requires start <= |etcd.log| && (cleared ==> etcd.AllClear(machines[name].node.value) && etcd.mon.word.at >= start)
      modifies etcd
      ensures Valid() && old(etcd.log) <= etcd.log && etcd.asked.moves == old(etcd.asked).moves
      ensures Effect(old(etcd.members), gone, etcd.members) && RemovedFor(machines[name], gone)
      ensures r.Ok? && gone.None? ==> Find(old(etcd.members), machines[name].node.value).None?
      ensures cleared && gone.Some? && gone.value.led ==>
                OvertakenByElection(etcd.log[start..], gone.value.member.name, gone.value.member.id)
      ensures calm ==> etcd.alarms == old(etcd.alarms) && etcd.pods == old(etcd.pods) && Alone(old(etcd.members), gone, etcd.members)
      ensures calm && old(Well()) ==> r.Ok? && Well()
    {
      var node := machines[name].node.value;
      assert node in NodesOf(machines);
      if Well() { SoundRetires(View(), etcd.leader, etcd.pods, etcd.alarms, name); }
      r, gone := RemoveCleared(node, start, cleared, calm);
      if calm && old(Well()) {
        CandidatesElsewhere(old(View()), name);
        RemovalKeepsHealthy(old(View()), old(etcd.leader), gone, View(), etcd.leader, etcd.pods, etcd.alarms);
      }
    }

    /** Removes the member of a node whose leadership was cleared, if anybody could take over, since the trace's event `start`. */
    method RemoveCleared(node: string, ghost start: nat, ghost cleared: bool, calm: bool) returns (r: Outcome, ghost gone: Option<Removal>)
      requires Valid() && start <= |etcd.log|
      requires cleared ==> etcd.AllClear(node) && etcd.mon.word.at >= start
      modifies etcd
      ensures Valid() && old(etcd.log) <= etcd.log && etcd.asked.moves == old(etcd.asked).moves
      ensures calm ==> etcd.LedOn(gone)
      ensures Effect(old(etcd.members), gone, etcd.members)
      ensures gone.Some? ==> Find(gone.value.before, node) == Some(gone.value.member)
      ensures r.Ok? && gone.None? ==> Find(old(etcd.members), node).None?
      ensures cleared && gone.Some? && gone.value.led ==>
                OvertakenByElection(etcd.log[start..], gone.value.member.name, gone.value.member.id)
      ensures calm ==> etcd.alarms == old(etcd.alarms) && etcd.pods == old(etcd.pods) && Alone(old(etcd.members), gone, etcd.members)
      ensures calm && HasPod(old(etcd.pods)) && RemovableName(old(etcd.members), old(etcd.alarms), node) ==> r.Ok?
    {
      r, gone := RemoveEtcdMember(etcd, node, calm);
      if cleared && gone.Some? && gone.value.led {
        FindInExtension(old(etcd.members), gone.value.before, node);
        LedAfterElection(start, gone.value);
      }
    }

    /** Retires the member of a deleting machine's node, if there is one and everything can be read. */
    method RetireIfReadable(name: string, weather: Weather) returns (r: Outcome, ghost gone: Option<Removal>)
      requires Valid() && name in machines && !Active(machines[name])
      modifies etcd
      ensures Valid() && old(etcd.log) <= etcd.log
      ensures Effect(old(etcd.members), gone, etcd.members) && RemovedFor(machines[name], gone)
      ensures LeadershipRespected(machines, gone, etcd.log[|old(etcd.log)|..])
      ensures if Readable(weather) && machines[name].node.Some?
              then r.Ok? && gone.None? ==> Find(old(etcd.members), machines[name].node.value).None?
              else r.Ok? && gone.None? && etcd.members == old(etcd.members)
      ensures weather.calm ==> && Alone(old(etcd.members), gone, etcd.members)
                               && etcd.alarms == old(etcd.alarms) && etcd.pods == old(etcd.pods)
      ensures weather.calm && old(Well()) ==> r.Ok? && Well()
      ensures old(Fine(weather, machines)) && machines[name].node.Some? ==> Readable(weather)
    {
      gone := None;
      assert machines[name].node.Some? ==> machines[name].node.value in NodesOf(machines);
      if machines[name].node.Some? && weather.available {
        if weather.kubeconfig && weather.activeListed {
          r, gone := RetireMember(name, weather.calm);
          return;
        }
      }
      r := Ok;
    }

    /** Handles the pending machine that has waited longest: its member leaves etcd, then its hook is cleared. */
    method ReconcilePreTerminateHook(weather: Weather) returns (r: Verdict, ghost act: Act, ghost clean: bool)
      requires Valid()
      modifies this`machines, etcd
      ensures Valid() && old(etcd.log) <= etcd.log
      ensures r.Proceed? ==> PendingOf(machines) == {} && act.Nothing? && etcd.log == old(etcd.log)
      ensures Told(r, act, clean) && HandledInTurn(old(machines), act) && (act.Nothing? || act.HookCleared? || act.HookKept?)
      ensures act.Nothing? ==> machines == old(machines) && etcd.members == old(etcd.members) && (r.Proceed? || !clean)
      ensures !act.Nothing? ==> ActStep(old(View()), Pass({}, act, clean, Readable(weather), etcd.log[|old(etcd.log)|..]), View())
      ensures weather.calm ==> && Alone(old(etcd.members), GoneBy(act), etcd.members)
                               && etcd.alarms == old(etcd.alarms) && etcd.pods == old(etcd.pods)
      ensures weather.calm && old(Well()) ==> Well()
      ensures old(Fine(weather, machines)) && old(Well()) ==> clean && (r.Proceed? || act.HookCleared?)
    {
      act, clean := Nothing, false;
      var listed: bool := *;
      if !listed && !weather.calm { return Failed, act, clean; }
      var pending := PendingOf(machines);
      if pending == {} { return Proceed, act, true; }
      var name := OldestDeletion(pending);
      assert OldestPending(machines, name) by {
        forall n | n in machines && Pending(machines[n])
          ensures DeletedAt(machines[name]) <= DeletedAt(machines[n]) { assert n in pending; }
      }
      var removed;
      ghost var gone;
      removed, gone := RetireIfReadable(name, weather);
      if removed.Err? { return Failed, HookKept(name, gone), false; }
      var patched, replied := ClearHook(name, weather.calm);
      if !patched { return Failed, HookKept(name, gone), false; }
      act, clean := HookCleared(name, gone), (Readable(weather) || machines[name].node.None?) && replied;
      r := if replied then Requeue else Failed;
    }

    /** Patches the hook away; the reply can be lost. */
    method ClearHook(name: string, calm: bool) returns (patched: bool, replied: bool)
      requires name in machines && Pending(machines[name])
      modifies this`machines
      ensures machines == if patched then old(machines)[name := old(machines)[name].(hook := false)] else old(machines)
      ensures calm ==> patched && replied
      ensures old(Well()) ==> Well()
    {
      patched, replied := *, *;
      patched, replied := patched || calm, replied || calm;
      if patched {
        machines := machines[name := machines[name].(hook := false)];
        if old(Well()) { ClearingKeepsHealthy(old(View()), etcd.leader, HookCleared(name, None), View(), etcd.pods, etcd.alarms); }
      }
    }

    /** The node names every machine answers for, and whether some machine has none yet. */
    method ExpectedMembers() returns (expected: set<string>, provisioning: set<string>)
      ensures expected == NodesOf(machines) && provisioning == ProvisioningOf(machines)
    {
      expected, provisioning := {}, {};
      var todo := machines.Keys;
      while todo != {}
        invariant todo <= machines.Keys
        invariant expected == set n | n in machines.Keys - todo && machines[n].node.Some? :: machines[n].node.value
        invariant provisioning == set n | n in machines.Keys - todo && machines[n].node.None?
        decreases todo
      {
        var n :| n in todo;
        ghost var done := machines.Keys - todo;
        todo := todo - {n};
        assert machines.Keys - todo == done + {n};
        if machines[n].node.None? {
          provisioning := provisioning + {n};
          continue;
        }
        expected := expected + {machines[n].node.value};
      }
    }

    method UnexpectedMembers(list: seq<Member>, expected: set<string>) returns (r: seq<Member>)
      ensures forall m :: m in r <==> m in list && m.name !in expected
      ensures if r == [] then FirstUnexpected(list, expected) == |list|
              else FirstUnexpected(list, expected) < |list| && r[0] == list[FirstUnexpected(list, expected)]
    {
      r := [];
      for i := 0 to |list|
        invariant forall m :: m in r <==> m in list[..i] && m.name !in expected
        invariant if r == [] then FirstUnexpected(list, expected) >= i
                  else FirstUnexpected(list, expected) < i && r[0] == list[FirstUnexpected(list, expected)]
      {
        if list[i].name in expected { continue; }
        r := r + [list[i]];
      }
    }

    method ListMembers(calm: bool) returns (r: Option<seq<Member>>)
      requires Valid() && NodesOf(machines) != {}
      modifies etcd
      ensures Valid() && etcd.Onward() && (r.Some? ==> r.value == etcd.members)
      ensures calm ==> etcd.Steady()
      ensures calm && old(Well()) ==> r.Some? && Well()
    {
      r := ListEtcdMembers(etcd, calm);
      if calm && old(Well()) { RemovalKeepsHealthy(old(View()), old(etcd.leader), None, View(), etcd.leader, etcd.pods, etcd.alarms); }
    }

    /** Removes at most one member that belongs to no machine, and none while a machine is still provisioning. */
    method ReconcileEtcdMembers(weather: Weather) returns (r: Verdict, ghost act: Act, ghost clean: bool)
      requires Valid() && PendingOf(machines) == {}
      modifies etcd
      ensures Valid() && old(etcd.log) <= etcd.log
      ensures r.Proceed? ==> act.Nothing? && (clean ==> OrphansHandled(machines, etcd.members))
      ensures FirstOrphanOnly(machines, act)
      ensures Told(r, act, clean) && (r.Proceed? || act.OrphanRemoved? ==> weather.kubeconfig || NodesOf(machines) == {})
      ensures act.Nothing? ==> old(etcd.members) <= etcd.members && (r.Proceed? || !clean)
      ensures !act.Nothing? ==> act.OrphanRemoved? && OrphanStep(machines, old(etcd.members), act.gone, clean, etcd.members)
      ensures weather.calm ==> && Alone(old(etcd.members), GoneBy(act), etcd.members)
                               && etcd.alarms == old(etcd.alarms) && etcd.pods == old(etcd.pods)
      ensures weather.calm && old(Well()) ==> Well()
      ensures Fine(weather, machines) && old(Well()) ==> clean
    {
      act, clean := Nothing, false;
      var listed: bool := *;
      if !listed && !weather.calm { return Failed, act, clean; }
      if machines.Keys == {} { return Proceed, act, true; }
      var expected, provisioning := ExpectedMembers();
      if expected == {} { return Proceed, act, true; }
      if !weather.kubeconfig { return Failed, act, clean; }
      var list := ListMembers(weather.calm);
      if list.None? || list.value == [] { return Proceed, act, list.Some?; }
      var unexpected := UnexpectedMembers(list.value, expected);
      if unexpected == [] {
        forall m | m in list.value ensures m.name in expected { assert m !in unexpected; }
        return Proceed, act, true;
      }
      if provisioning != {} { return Proceed, act, true; }
      var removed;
      ghost var gone;
      removed, gone := RemoveFirst(unexpected, weather.calm);
      act, clean := OrphanRemoved(gone), removed.Ok?;
      r := if removed.Ok? then Requeue else Failed;
    }

    /** Removes the first of the unexpected members. */
    method RemoveFirst(unexpected: seq<Member>, calm: bool) returns (r: Outcome, ghost gone: Option<Removal>)
      requires Valid() && NodesOf(machines) != {} && unexpected != [] && unexpected[0] in etcd.members
      requires var i := FirstUnexpected(etcd.members, NodesOf(machines)); i < |etcd.members| && unexpected[0] == etcd.members[i]
      modifies etcd
      ensures Valid() && old(etcd.log) <= etcd.log && Effect(old(etcd.members), gone, etcd.members)
      ensures gone.Some? ==> gone.value.member.name !in NodesOf(machines)
      ensures (r.Ok? ==> gone.Some?) && FirstOrphanOnly(machines, OrphanRemoved(gone))
      ensures calm ==> etcd.alarms == old(etcd.alarms) && etcd.pods == old(etcd.pods) && Alone(old(etcd.members), gone, etcd.members)
      ensures calm && old(Well()) ==> r.Ok? && Well()
    {
      ghost var i := FirstUnexpected(etcd.members, NodesOf(machines));
      ghost var list := etcd.members;
      r, gone := RemoveOrphan(unexpected[0], calm);
      assert gone.Some? ==> gone.value.before[i] == list[i] && forall k | 0 <= k < i :: gone.value.before[k] == list[k];
    }

    /** Removes a listed member that no machine answers for. */
    method RemoveOrphan(orphan: Member, calm: bool) returns (r: Outcome, ghost gone: Option<Removal>)
      requires Valid() && orphan in etcd.members && orphan.name !in NodesOf(machines) && NodesOf(machines) != {}
      modifies etcd
      ensures Valid() && old(etcd.log) <= etcd.log && Effect(old(etcd.members), gone, etcd.members)
      ensures (gone.Some? ==> gone.value.member == orphan) && (r.Ok? ==> gone.Some?)
      ensures calm ==> etcd.alarms == old(etcd.alarms) && etcd.pods == old(etcd.pods) && Alone(old(etcd.members), gone, etcd.members)
      ensures calm && old(Well()) ==> r.Ok? && Well()
    {
      if Well() {
        forall n | Candidate(machines, n) ensures machines[n].node.value != orphan.name {
          assert machines[n].node.value in NodesOf(machines);
        }
        SoundAllowsRemoval(View(), etcd.leader, etcd.pods, etcd.alarms, orphan);
      }
      r, gone := RemoveEtcdMemberByID(etcd, orphan.id, calm);
      if gone.Some? {
        assert orphan in gone.value.before;
        SameIdSameMember(gone.value.before, gone.value.member, orphan);
      }
      if calm && old(Well()) { RemovalKeepsHealthy(old(View()), old(etcd.leader), gone, View(), etcd.leader, etcd.pods, etcd.alarms); }
    }

    /** Creates or deletes at most one machine. The failure domain is whatever the library picks. */
    method ReconcileReplicas(name: string, zone: string, now: nat, calm: bool) returns (r: Outcome, ghost act: Act, ghost clean: bool)
      requires PendingOf(machines) == {}
      modifies this`machines
      ensures act.Nothing? ==> machines == old(machines) && (clean ==> ScaleSettled(old(View()).(machines := machines)))
      ensures !act.Nothing? ==> ScaleStep(old(View()), act, machines)
      ensures Chosen(old(machines), act, name, zone, now, kubevirt) && (r.Ok? <==> clean)
      ensures old(Well()) ==> Well()
      ensures calm && name !in old(machines) && ZoneFits(old(machines), desired, zone) ==> clean && r.Ok?
    {
      act, clean := Nothing, false;
      var listed: bool := *;
      if !listed && !calm { return Err, act, clean; }
      var active := ActiveOf(machines);
      var toCreate := desired - |active|;
      if toCreate > 0 {
        if kubevirt && exists n | n in active :: !machines[n].bootstrapped {
          return Ok, act, true;
        }
        r, act := ScaleUpControlPlane(name, zone, now, calm);
        return r, act, r.Ok?;
      }
      if toCreate < 0 {
        r, act := ScaleDownControlPlane(zone, now, calm);
        return r, act, r.Ok?;
      }
      return Ok, act, true;
    }

    /** Creates a machine, unless the name is taken or the call does not get through. */
    method ScaleUpControlPlane(name: string, zone: string, now: nat, calm: bool) returns (r: Outcome, ghost act: Act)
      requires PendingOf(machines) == {} && |ActiveOf(machines)| < desired && (kubevirt ==> AllBootstrapped(machines))
      modifies this`machines
      ensures act.Nothing? ==> machines == old(machines) && r.Err?
      ensures !act.Nothing? ==> act.Created? && ScaleStep(old(View()), act, machines)
      ensures Chosen(old(machines), act, name, zone, now, kubevirt)
      ensures old(Well()) ==> Well()
      ensures calm && name !in old(machines) ==> r.Ok?
    {
      var done, replied: bool := *, *;
      if (!done && !calm) || name in machines { return Err, Nothing; }
      var m := Machine(None, now, !kubevirt, None, zone, false);
      machines := machines[name := m];
      act := Created(name, m);
      if old(Well()) { CreationKeepsHealthy(old(View()), etcd.leader, act, View(), etcd.pods, etcd.alarms); }
      r := if replied || calm then Ok else Err;
    }

    /** Deletes an oldest active machine of the failure domain. */
    method ScaleDownControlPlane(zone: string, now: nat, calm: bool) returns (r: Outcome, ghost act: Act)
      requires PendingOf(machines) == {} && |ActiveOf(machines)| > desired
      modifies this`machines
      ensures act.Nothing? ==> machines == old(machines) && r.Err?
      ensures !act.Nothing? ==> act.Marked? && ScaleStep(old(View()), act, machines)
      ensures Chosen(old(machines), act, "", zone, now, kubevirt)
      ensures old(Well()) ==> Well()
      ensures calm && ZoneFits(old(machines), desired, zone) ==> r.Ok?
    {
      var inZone := set n | n in machines && Active(machines[n]) && machines[n].zone == zone;
      assert forall n | n in machines && Active(machines[n]) && machines[n].zone == zone :: n in inZone;
      if inZone == {} { return Err, Nothing; }
      var oldest := Oldest(inZone);
      var done, replied: bool := *, *;
      if !done && !calm { return Err, Nothing; }
      machines := machines[oldest := machines[oldest].(deleted := Some(now))];
      act := Marked(oldest, now);
      if old(Well()) { DeletionKeepsHealthy(old(View()), etcd.leader, act, View(), etcd.pods, etcd.alarms); }
      r := if replied || calm then Ok else Err;
    }

    /** The stages after the hooks: each goes on only when the one before had nothing to do. */
    method ReconcileStages(weather: Weather, name: string, zone: string, now: nat) returns (r: Verdict, ghost act: Act, ghost clean: bool)
      requires Valid()
      modifies this`machines, etcd
      ensures Valid() && old(etcd.log) <= etcd.log
      ensures !act.Nothing? ==> ActStep(old(View()), Pass({}, act, clean, Readable(weather), etcd.log[|old(etcd.log)|..]), View())
      ensures act.Nothing? ==> machines == old(machines) && old(etcd.members) <= etcd.members
      ensures act.Nothing? && clean ==> PendingOf(machines) == {} && OrphansHandled(machines, etcd.members) && ScaleSettled(View())
      ensures Told(r, act, clean) && HandledInTurn(old(machines), act) && Chosen(old(machines), act, name, zone, now, kubevirt)
      ensures Gated(weather, machines, act) && FirstOrphanOnly(machines, act)
      ensures r.Proceed? && act.Nothing? ==> ScaleSettled(View())
      ensures weather.calm ==> && Alone(old(etcd.members), GoneBy(act), etcd.members)
                               && etcd.alarms == old(etcd.alarms) && etcd.pods == old(etcd.pods)
      ensures weather.calm && old(Well()) ==> Well()
      ensures old(Fine(weather, machines)) && old(Well()) && name !in old(machines) && ZoneFits(old(machines), desired, zone) ==> clean
    {
      r, act, clean := ReconcilePreTerminateHook(weather);
      if !r.Proceed? { return; }
      r, act, clean := ReconcileOrphansAndReplicas(weather, name, zone, now);
    }

    /** Once no deletion is pending: orphans first, and the number of machines when there is none to remove. */
    method ReconcileOrphansAndReplicas(weather: Weather, name: string, zone: string, now: nat)
      returns (r: Verdict, ghost act: Act, ghost clean: bool)
      requires Valid() && PendingOf(machines) == {}
      modifies this`machines, etcd
      ensures Valid() && old(etcd.log) <= etcd.log
      ensures !act.Nothing? ==> ActStep(old(View()), Pass({}, act, clean, Readable(weather), etcd.log[|old(etcd.log)|..]), View())
      ensures act.Nothing? ==> machines == old(machines) && old(etcd.members) <= etcd.members
      ensures act.Nothing? && clean ==> OrphansHandled(machines, etcd.members) && ScaleSettled(View())
      ensures Told(r, act, clean) && !act.HookCleared? && !act.HookKept? && Chosen(old(machines), act, name, zone, now, kubevirt)
      ensures Gated(weather, machines, act) && FirstOrphanOnly(machines, act)
      ensures r.Proceed? && act.Nothing? ==> ScaleSettled(View())
      ensures weather.calm ==> && Alone(old(etcd.members), GoneBy(act), etcd.members)
                               && etcd.alarms == old(etcd.alarms) && etcd.pods == old(etcd.pods)
      ensures weather.calm && old(Well()) ==> Well()
      ensures old(Fine(weather, machines)) && old(Well()) && name !in old(machines) && ZoneFits(old(machines), desired, zone) ==> clean
    {
      ghost var orphansClean := NodesOf(machines) == {};
      if weather.available {
        r, act, orphansClean := ReconcileEtcdMembers(weather);
        if !r.Proceed? { return r, act, orphansClean; }
      }
      var scaled;
      scaled, act, clean := ReconcileReplicas(name, zone, now, weather.calm);
      clean := clean && orphansClean;
      r := if scaled.Ok? then Proceed else Failed;
    }

    /**
     * One pass. Whatever fails and whoever joins meanwhile, it is a step of the protocol, and its trace is what
     * was added to etcd's. In fine weather and with nothing in the way it does all it wants to.
     */
    method Reconcile(weather: Weather, name: string, zone: string, now: nat) returns (r: Verdict, ghost p: Pass)
      requires Valid()
      modifies this`machines, etcd
      ensures Valid() && PassStep(old(View()), p, View())
      ensures Told(r, p.act, p.clean) && HandledInTurn(old(machines), p.act) && Gated(weather, machines, p.act)
      ensures FirstOrphanOnly(old(machines), p.act)
      ensures r.Proceed? ==> p.hooked == UnhookedOf(old(machines)) && (p.act.Nothing? ==> ScaleSettled(View()))
      ensures Chosen(old(machines), p.act, name, zone, now, kubevirt)
      ensures p.readable == Readable(weather) && old(etcd.log) <= etcd.log && p.trace == etcd.log[|old(etcd.log)|..]
      ensures weather.calm ==> Undisturbed(old(View()), ByController(p), View())
      ensures weather.calm && old(Well()) ==> Well()
      ensures NodesOf(machines) == old(NodesOf(machines))
      ensures old(Fine(weather, machines)) && old(Well()) && name !in old(machines) && ZoneFits(old(machines), desired, zone) ==> p.clean
    {
      var hooks;
      ghost var hooked;
      hooks, hooked := HookMachines(weather.calm, zone);
      if hooks.Err? {
        p := Pass(hooked, Nothing, false, Readable(weather), []);
        StagesMakeAPass(old(View()), p, View());
        return Failed, p;
      }
      ghost var act, clean;
      r, act, clean := ReconcileStages(weather, name, zone, now);
      p := Pass(hooked, act, clean, Readable(weather), etcd.log[|old(etcd.log)|..]);
      StagesMakeAPass(old(View()), p, View());
      HooksChangeNoChoice(old(machines), hooked, act, name, zone, now, kubevirt);
    }

    /**
     * Enough passes in fine weather settle everything, and it stays so: every machine hooked, no deletion waiting,
     * no orphan member to remove, the right number of machines. Names are generated fresh.
     */
    method Settle(passes: nat, weather: Weather, generate: set<string> -> string, now: nat)
      requires Valid() && Well() && Fine(weather, machines) && forall names :: generate(names) !in names
      modifies this`machines, etcd
      ensures Valid() && Well() && Fine(weather, machines)
      ensures passes > Potential(old(View())) ==> Settled(View())
    {
      var i := 0;
      while i < passes
        invariant 0 <= i <= passes && Valid() && Well() && Fine(weather, machines)
        invariant Settled(View()) || Potential(View()) + i <= Potential(old(View()))
      {
        var active := ActiveOf(machines);
        var zone := "";
        if n :| n in active { zone := machines[n].zone; }
        ghost var before := View();
        WellZone(before, zone);
        var r;
        ghost var p;
        r, p := Reconcile(weather, generate(machines.Keys), zone, now);
        PassLowersPotential(before, p, View());
        if Settled(before) { SettledStays(before, p, View()); }
        else if View() == before { CleanIdlePassIsSettled(before, p); }
        i := i + 1;
      }
    }
  }
}
