/**
 * The control-plane machine and etcd lifecycle of
 * controlplane/internal/controller/openshiftassistedcontrolplane_controller.go.
 *
 * This module is the protocol: a labelled transition system over machines and etcd members whose steps are
 * controller passes and moves of everybody else. Reads of Kubernetes objects are current. Controller.dfy
 * shows that the controller's code takes only these steps.
 */
module Lifecycle {
  import opened Basics
  import opened Etcd

  /** An owned Machine; `deleted` is its deletion time, `zone` its failure domain. */
  datatype Machine = Machine(deleted: Option<nat>, created: nat, hook: bool, node: Option<string>,
                             zone: string, bootstrapped: bool)

  type Machines = map<string, Machine>

  /** On KubeVirt a machine is created only once all others have their bootstrap data. */
  datatype World = World(machines: Machines, members: seq<Member>, desired: int, kubevirt: bool)

  predicate Active(m: Machine) { m.deleted.None? }

  /** A deleting machine that still waits for its hook to be cleared. */
  predicate Pending(m: Machine) { m.deleted.Some? && m.hook }

  function DeletedAt(m: Machine): nat { if m.deleted.Some? then m.deleted.value else 0 }

  function ActiveOf(ms: Machines): set<string> { set n | n in ms && Active(ms[n]) }

  function UnhookedOf(ms: Machines): set<string> { set n | n in ms && Active(ms[n]) && !ms[n].hook }

  function PendingOf(ms: Machines): set<string> { set n | n in ms && Pending(ms[n]) }

  function NodesOf(ms: Machines): set<string> { set n | n in ms && ms[n].node.Some? :: ms[n].node.value }

  function ProvisioningOf(ms: Machines): set<string> { set n | n in ms && ms[n].node.None? }

  function AddHooks(ms: Machines, names: set<string>): Machines {
    map n | n in ms :: if n in names then ms[n].(hook := true) else ms[n]
  }

  // ---------------------------------------------------------------- steps

  /** What one pass did beyond adding hooks. */
  datatype Act =
    | Nothing
    | HookCleared(name: string, gone: Option<Removal>)
    | HookKept(name: string, gone: Option<Removal>)
    | OrphanRemoved(gone: Option<Removal>)
    | Created(name: string, machine: Machine)
    | Marked(name: string, at: nat)

  /**
   * One pass: hooks added, the act, whether it did all it wanted to, whether the kubeconfig and the active
   * machines could be read, and the trace of what it did to etcd and what happened there meanwhile.
   */
  datatype Pass = Pass(hooked: set<string>, act: Act, clean: bool, readable: bool, trace: seq<Event>)

  /** A removal on behalf of a deleting machine takes the first member named after its node. */
  ghost predicate RemovedFor(m: Machine, gone: Option<Removal>) {
    gone.Some? ==> m.node.Some? && Find(gone.value.before, m.node.value) == Some(gone.value.member)
  }

  ghost predicate Candidate(ms: Machines, n: string) { n in ms && Active(ms[n]) && ms[n].node.Some? }

  /** Where a replacement candidate existed and the removed member led, the trace shows it cleared and then an election. */
  ghost predicate LeadershipRespected(ms: Machines, gone: Option<Removal>, trace: seq<Event>) {
    gone.Some? && gone.value.led && (exists n :: Candidate(ms, n)) ==>
      OvertakenByElection(trace, gone.value.member.name, gone.value.member.id)
  }

  ghost predicate OldestPending(ms: Machines, name: string) {
    && name in ms && Pending(ms[name])
    && forall n | n in ms && Pending(ms[n]) :: DeletedAt(ms[name]) <= DeletedAt(ms[n])
  }

  ghost predicate OldestInZone(ms: Machines, name: string) {
    && name in ms && Active(ms[name])
    && forall n | n in ms && Active(ms[n]) && ms[n].zone == ms[name].zone :: ms[name].created <= ms[n].created
  }

  /** Every member belongs to a machine, or judging that must wait. */
  ghost predicate OrphansHandled(ms: Machines, members: seq<Member>) {
    NodesOf(ms) == {} || ProvisioningOf(ms) != {} || forall m | m in members :: m.name in NodesOf(ms)
  }

  ghost predicate AllBootstrapped(ms: Machines) { forall n | n in ms && Active(ms[n]) :: ms[n].bootstrapped }

  ghost predicate ScaleSettled(w: World) {
    var active := |ActiveOf(w.machines)|;
    active == w.desired || (active < w.desired && w.kubevirt && !AllBootstrapped(w.machines))
  }

  /** There is nothing left for the controller to do. */
  ghost predicate Settled(w: World) {
    && UnhookedOf(w.machines) == {} && PendingOf(w.machines) == {}
    && OrphansHandled(w.machines, w.members) && ScaleSettled(w)
  }

  /** One machine more or one machine less, and only while no deletion waits on its hook. */
  ghost predicate ScaleStep(w: World, act: Act, ms': Machines) {
    var ms := w.machines;
    && PendingOf(ms) == {}
    && match act
       case Created(name, m) =>
         && |ActiveOf(ms)| < w.desired && name !in ms && (w.kubevirt ==> AllBootstrapped(ms))
         && Active(m) && m.node.None? && ms' == ms[name := m]
       case Marked(name, at) =>
         && |ActiveOf(ms)| > w.desired && OldestInZone(ms, name)
         && ms' == ms[name := ms[name].(deleted := Some(at))]
       case _ => false
  }

  /** A member that no machine answers for leaves, and only while no machine waits for its node. */
  ghost predicate OrphanStep(ms: Machines, members: seq<Member>, gone: Option<Removal>, clean: bool, members': seq<Member>) {
    && PendingOf(ms) == {} && ProvisioningOf(ms) == {} && NodesOf(ms) != {}
    && Effect(members, gone, members')
    && (gone.Some? ==> gone.value.member.name !in NodesOf(ms))
    && (gone.None? ==> !clean)
  }

  /** What a pass does once the hooks are added. */
  ghost predicate ActStep(w: World, p: Pass, w': World) {
    var ms, members, ms', members' := w.machines, w.members, w'.machines, w'.members;
    && w'.desired == w.desired && w'.kubevirt == w.kubevirt
    && match p.act
       case Nothing =>
         && ms' == ms && members <= members'
         && (p.clean ==> Settled(w'))
       case HookCleared(name, gone) =>
         && OldestPending(ms, name) && ms' == ms[name := ms[name].(hook := false)]
         && Effect(members, gone, members') && RemovedFor(ms[name], gone)
         && LeadershipRespected(ms, gone, p.trace)
         && if p.readable && ms[name].node.Some? then gone.None? ==> Find(members, ms[name].node.value).None?
            else gone.None? && members' == members
       case HookKept(name, gone) =>
         && OldestPending(ms, name) && ms' == ms && !p.clean
         && Effect(members, gone, members') && RemovedFor(ms[name], gone)
         && LeadershipRespected(ms, gone, p.trace)
       case OrphanRemoved(gone) => ms' == ms && OrphanStep(ms, members, gone, p.clean, members')
       case _ => ScaleStep(w, p.act, ms') && members <= members'
  }

  ghost function Hooked(w: World, p: Pass): World { w.(machines := AddHooks(w.machines, p.hooked)) }

  ghost predicate PassStep(w: World, p: Pass, w': World) {
    && p.hooked <= UnhookedOf(w.machines)
    && (!p.act.Nothing? || p.clean ==> p.hooked == UnhookedOf(w.machines))
    && ActStep(Hooked(w, p), p, w')
  }

  /** A step of the controller or of everybody else. Nobody else removes etcd members. */
  datatype Label =
    | ByController(pass: Pass)
    | NodeJoined(name: string, node: string)
    | MembersJoined(newcomers: seq<Member>)
    | DeletionRequested(name: string, at: nat)
    | Finalised(name: string)
    | BootstrapReady(name: string)
    | Resized(desired: int)

  ghost predicate Step(w: World, l: Label, w': World) {
    match l
    case ByController(p) => PassStep(w, p, w') && UniqueIds(w'.members)
    case NodeJoined(n, node) =>
      && n in w.machines && w.machines[n].node.None? && node !in NodesOf(w.machines)
      && w' == w.(machines := w.machines[n := w.machines[n].(node := Some(node))])
    case MembersJoined(ms) => UniqueIds(w.members + ms) && w' == w.(members := w.members + ms)
    case DeletionRequested(n, at) =>
      && n in w.machines && Active(w.machines[n])
      && w' == w.(machines := w.machines[n := w.machines[n].(deleted := Some(at))])
    case Finalised(n) =>
      && n in w.machines && !Active(w.machines[n]) && !w.machines[n].hook
      && w' == w.(machines := w.machines - {n})
    case BootstrapReady(n) =>
      && n in w.machines
      && w' == w.(machines := w.machines[n := w.machines[n].(bootstrapped := true)])
    case Resized(d) => w' == w.(desired := d)
  }

  /** `ws[i]` becomes `ws[i + 1]` by `ls[i]`. */
  ghost predicate Run(ws: seq<World>, ls: seq<Label>) {
    && |ws| == |ls| + 1
    && forall i {:trigger ls[i]} | 0 <= i < |ls| :: Step(ws[i], ls[i], ws[i + 1])
  }

  // ---------------------------------------------------------------- invariants of every run

  ghost predicate DistinctNodes(ms: Machines) {
    forall a, b | a in ms && b in ms && a != b && ms[a].node.Some? && ms[b].node.Some? :: ms[a].node != ms[b].node
  }

  ghost predicate Inv(w: World) { DistinctNodes(w.machines) && UniqueIds(w.members) }

  lemma PassKeepsNodes(w: World, p: Pass, w': World)
    requires DistinctNodes(w.machines) && PassStep(w, p, w')
    ensures DistinctNodes(w'.machines)
  {
    var ms := AddHooks(w.machines, p.hooked);
    forall a, b | a in ms && b in ms && a != b && ms[a].node.Some? && ms[b].node.Some? ensures ms[a].node != ms[b].node {
      assert w.machines[a].node == ms[a].node && w.machines[b].node == ms[b].node;
    }
    assert forall n | n in w'.machines && w'.machines[n].node.Some? :: n in ms && ms[n].node == w'.machines[n].node;
  }

  lemma StepKeepsInv(w: World, l: Label, w': World)
    requires Inv(w) && Step(w, l, w')
    ensures Inv(w')
  {
    if l.ByController? {
      PassKeepsNodes(w, l.pass, w');
    } else if l.NodeJoined? {
      assert forall a | a in w.machines && w.machines[a].node.Some? :: w.machines[a].node.value in NodesOf(w.machines);
    }
  }

  lemma {:induction false} RunKeepsInv(ws: seq<World>, ls: seq<Label>, i: nat)
    requires Run(ws, ls) && Inv(ws[0]) && i <= |ls|
    ensures Inv(ws[i])
  {
    if i > 0 {
      RunKeepsInv(ws, ls, i - 1);
      assert Step(ws[i - 1], ls[i - 1], ws[i]);
      StepKeepsInv(ws[i - 1], ls[i - 1], ws[i]);
    }
  }

  /** The member a pass took out of etcd, if any. */
  ghost function GoneIn(l: Label): Option<Removal> {
    if !l.ByController? then None
    else match l.pass.act
      case HookCleared(_, gone) => gone
      case HookKept(_, gone) => gone
      case OrphanRemoved(gone) => gone
      case _ => None
  }

  /** One step never takes the member of a machine that stays, and never the last member. */
  lemma StepIsSafe(w: World, l: Label, w': World)
    requires Inv(w) && Step(w, l, w')
    ensures GoneIn(l).Some? ==>
              forall n | n in w.machines && Active(w.machines[n]) :: w.machines[n].node != Some(GoneIn(l).value.member.name)
    ensures w.members != [] ==> w'.members != []
  {
    if GoneIn(l).Some? {
      var gone := GoneIn(l).value;
      var ms := AddHooks(w.machines, l.pass.hooked);
      forall n | n in w.machines && Active(w.machines[n]) ensures w.machines[n].node != Some(gone.member.name) {
        if w.machines[n].node.Some? {
          assert ms[n].node.value in NodesOf(ms);
        }
      }
    }
  }

  /**
   * Over every run the controller never removes the etcd member of an owned machine that is not being
   * deleted, and never takes the cluster from one member to none.
   */
  lemma NeverRemovesALiveMember(ws: seq<World>, ls: seq<Label>, i: nat)
    requires Run(ws, ls) && Inv(ws[0]) && i < |ls|
    ensures GoneIn(ls[i]).Some? ==>
              forall n | n in ws[i].machines && Active(ws[i].machines[n]) ::
                ws[i].machines[n].node != Some(GoneIn(ls[i]).value.member.name)
    ensures ws[i].members != [] ==> ws[i + 1].members != []
  {
    RunKeepsInv(ws, ls, i);
    assert Step(ws[i], ls[i], ws[i + 1]);
    StepIsSafe(ws[i], ls[i], ws[i + 1]);
  }

  /** Every machine a pass deletes carries the hook by then, even if it did not before. */
  lemma DeletesOnlyHooked(w: World, p: Pass, w': World)
    requires PassStep(w, p, w') && p.act.Marked?
    ensures p.act.name in w.machines && Active(w.machines[p.act.name])
    ensures Pending(w'.machines[p.act.name])
  {
    var n := p.act.name;
    if !w.machines[n].hook {
      assert n in UnhookedOf(w.machines);
    }
  }

  ghost function CreatedIn(w: World, w': World): set<string> { w'.machines.Keys - w.machines.Keys }

  ghost function DeletedIn(w: World, w': World): set<string> { ActiveOf(w.machines) - ActiveOf(w'.machines) }

  /** A pass does at most one thing: remove one member, create one machine or delete one; and no machine just vanishes. */
  lemma OneActPerPass(w: World, p: Pass, w': World)
    requires PassStep(w, p, w')
    ensures w.machines.Keys <= w'.machines.Keys
    ensures |CreatedIn(w, w')| + |DeletedIn(w, w')| + |LeftIn(ByController(p))| <= 1
    ensures forall m | m in w.members && m !in w'.members :: m in LeftIn(ByController(p))
  {
    HooksKeepSets(w.machines, p.hooked);
    assert Hooked(w, p).machines.Keys == w.machines.Keys;
    MachinesChanged(Hooked(w, p), p, w');
    OnlyTheRemovedLeave(w, ByController(p), w');
  }

  lemma MachinesChanged(w: World, p: Pass, w': World)
    requires ActStep(w, p, w')
    ensures w.machines.Keys <= w'.machines.Keys
    ensures w'.machines.Keys - w.machines.Keys == if p.act.Created? then {p.act.name} else {}
    ensures ActiveOf(w.machines) - ActiveOf(w'.machines) == if p.act.Marked? then {p.act.name} else {}
  {
    if !p.act.Marked? {
      assert forall n | n in w.machines && Active(w.machines[n]) :: n in w'.machines && Active(w'.machines[n]);
    }
  }

  lemma OnlyTheRemovedLeave(w: World, l: Label, w': World)
    requires l.ByController? && PassStep(w, l.pass, w')
    ensures forall m | m in w.members && m !in w'.members :: m in LeftIn(l)
  {
    if GoneIn(l).Some? {
      var gone := GoneIn(l).value;
      forall m | m in w.members && m !in w'.members ensures m == gone.member {
        SameIdSameMember(gone.before, m, gone.member);
      }
    }
  }

  /**
   * Over every run, when a deleting machine's member led as it was removed, although another machine could have
   * taken over, then in that very pass somebody else was last seen leading, or the member not listed, and an
   * election came after that.
   */
  lemma LeadersLeaveOnlyAfterElection(ws: seq<World>, ls: seq<Label>, i: nat, other: string)
    requires Run(ws, ls) && i < |ls| && ls[i].ByController? && (ls[i].pass.act.HookCleared? || ls[i].pass.act.HookKept?)
    requires GoneIn(ls[i]).Some? && GoneIn(ls[i]).value.led && Candidate(ws[i].machines, other)
    ensures var m := GoneIn(ls[i]).value.member; OvertakenByElection(ls[i].pass.trace, m.name, m.id)
  {
    assert Step(ws[i], ls[i], ws[i + 1]);
    assert Candidate(Hooked(ws[i], ls[i].pass).machines, other);
  }

  ghost predicate AtMostOnePending(w: World) { |PendingOf(w.machines)| <= 1 }

  lemma StepKeepsOnePending(w: World, l: Label, w': World)
    requires Step(w, l, w') && AtMostOnePending(w) && !l.DeletionRequested?
    ensures AtMostOnePending(w')
  {
    if l.ByController? {
      var ms := AddHooks(w.machines, l.pass.hooked);
      assert PendingOf(ms) == PendingOf(w.machines);
      if l.pass.act.Marked? {
        assert PendingOf(w'.machines) <= {l.pass.act.name};
        SubsetSize(PendingOf(w'.machines), {l.pass.act.name});
      } else {
        assert PendingOf(w'.machines) <= PendingOf(ms);
        SubsetSize(PendingOf(w'.machines), PendingOf(ms));
      }
    } else {
      assert PendingOf(w'.machines) <= PendingOf(w.machines);
      SubsetSize(PendingOf(w'.machines), PendingOf(w.machines));
    }
  }

  lemma SubsetSize<T>(a: set<T>, b: set<T>)
    requires a <= b
    ensures |a| <= |b|
  {
    assert b == a + (b - a);
  }

  /** Where only the controller deletes machines, at most one machine at a time is deleting and hooked. */
  lemma {:induction false} OneDrainAtATime(ws: seq<World>, ls: seq<Label>, i: nat)
    requires Run(ws, ls) && AtMostOnePending(ws[0]) && i <= |ls|
    requires forall l | l in ls :: !l.DeletionRequested?
    ensures AtMostOnePending(ws[i])
  {
    if i > 0 {
      OneDrainAtATime(ws, ls, i - 1);
      assert Step(ws[i - 1], ls[i - 1], ws[i]);
      assert ls[i - 1] in ls;
      StepKeepsOnePending(ws[i - 1], ls[i - 1], ws[i]);
    }
  }

  // ---------------------------------------------------------------- conservation of members, safe retries

  /** Members that joined during a step, whoever took it. */
  ghost function JoinedIn(w: World, l: Label, w': World): multiset<Member> {
    var all := if GoneIn(l).Some? then GoneIn(l).value.before else w'.members;
    multiset(all) - multiset(w.members)
  }

  ghost function LeftIn(l: Label): multiset<Member> {
    if GoneIn(l).Some? then multiset{GoneIn(l).value.member} else multiset{}
  }

  ghost function AllJoined(ws: seq<World>, ls: seq<Label>): multiset<Member>
    requires |ws| == |ls| + 1
  {
    if ls == [] then multiset{}
    else JoinedIn(ws[0], ls[0], ws[1]) + AllJoined(ws[1..], ls[1..])
  }

  ghost function AllLeft(ls: seq<Label>): multiset<Member> {
    if ls == [] then multiset{} else LeftIn(ls[0]) + AllLeft(ls[1..])
  }

  lemma PrefixSplits(a: seq<Member>, b: seq<Member>)
    requires a <= b
    ensures multiset(a) + (multiset(b) - multiset(a)) == multiset(b)
  {
    assert b == a + b[|a|..];
  }

  /** Whatever the step, the list only grows, up to the one member that is removed. */
  lemma StepMembers(w: World, l: Label, w': World)
    requires Step(w, l, w')
    ensures GoneIn(l).None? ==> w.members <= w'.members
    ensures GoneIn(l).Some? ==> w.members <= GoneIn(l).value.before && Departed(GoneIn(l).value, w'.members)
  {
  }

  lemma StepConserves(w: World, l: Label, w': World)
    requires Step(w, l, w')
    ensures multiset(w.members) + JoinedIn(w, l, w') == multiset(w'.members) + LeftIn(l)
  {
    StepMembers(w, l, w');
    if GoneIn(l).Some? {
      var gone := GoneIn(l).value;
      PrefixSplits(w.members, gone.before);
      WithoutTakesOne(gone.before, gone.member);
    } else {
      PrefixSplits(w.members, w'.members);
    }
  }

  /**
   * Conservation over every run: what was there and what joined is what is there and what the controller
   * removed. So whatever fails and however often passes retry, a member leaves at most as often as it came.
   */
  lemma {:induction false} MembersAreConserved(ws: seq<World>, ls: seq<Label>)
    requires Run(ws, ls)
    ensures multiset(ws[0].members) + AllJoined(ws, ls) == multiset(ws[|ls|].members) + AllLeft(ls)
  {
    if ls != [] {
      assert Step(ws[0], ls[0], ws[1]);
      StepConserves(ws[0], ls[0], ws[1]);
      TailIsRun(ws, ls);
      MembersAreConserved(ws[1..], ls[1..]);
      var last := multiset(ws[|ls|].members);
      assert ws[1..][|ls[1..]|] == ws[|ls|];
      Chain(multiset(ws[0].members), JoinedIn(ws[0], ls[0], ws[1]), multiset(ws[1].members), LeftIn(ls[0]),
            AllJoined(ws[1..], ls[1..]), last, AllLeft(ls[1..]));
    }
  }

  /** Two balances in a row balance. */
  lemma Chain<T>(a: multiset<T>, j: multiset<T>, b: multiset<T>, l: multiset<T>, j': multiset<T>, c: multiset<T>, l': multiset<T>)
    requires a + j == b + l && b + j' == c + l'
    ensures a + (j + j') == c + (l + l')
  {
    assert a + (j + j') == (a + j) + j' == (b + j') + l;
  }

  lemma TailIsRun(ws: seq<World>, ls: seq<Label>)
    requires Run(ws, ls) && ls != []
    ensures Run(ws[1..], ls[1..])
  {
    forall i | 0 <= i < |ls[1..]| ensures Step(ws[1..][i], ls[1..][i], ws[1..][i + 1]) {
      assert ls[1..][i] == ls[i + 1];
    }
  }

  ghost function Named(ms: seq<Member>, name: string): nat {
    if ms == [] then 0 else (if ms[0].name == name then 1 else 0) + Named(ms[1..], name)
  }

  /**
   * When the kubeconfig and the active machines could be read, the hook of a machine with a node is cleared only
   * after its member is gone: either the members held none of that name, or one was removed, and then none of
   * that name is left exactly when no other member carried the same name.
   */
  lemma HookClearedMeansMemberGone(w: World, p: Pass, w': World)
    requires PassStep(w, p, w') && p.readable && p.act.HookCleared? && w.machines[p.act.name].node.Some?
    ensures var node := w.machines[p.act.name].node.value;
            match p.act.gone
            case None => Find(w.members, node).None?
            case Some(g) => g.member.name == node
                            && (Find(w'.members, node).None? <==> Named(g.before, node) == 1)
  {
    if p.act.gone.Some? {
      var g := p.act.gone.value;
      NamedWithout(g.before, g.member);
      NamedNone(w'.members, g.member.name);
    }
  }

  lemma {:induction false} NamedWithout(ms: seq<Member>, m: Member)
    requires UniqueIds(ms) && m in ms
    ensures Named(Without(ms, m.id), m.name) == Named(ms, m.name) - 1
  {
    var rest := ms[1..];
    assert ms == [ms[0]] + rest;
    if ms[0].id == m.id {
      assert forall i | 0 <= i < |rest| :: rest[i] == ms[i + 1];
      NothingToRemove(rest, m.id);
    } else {
      NamedWithout(rest, m);
      assert (Without(ms, m.id))[1..] == Without(rest, m.id);
    }
  }

  lemma {:induction false} NamedNone(ms: seq<Member>, name: string)
    ensures Named(ms, name) == 0 <==> Find(ms, name).None?
  {
    if ms != [] { NamedNone(ms[1..], name); }
  }

  // ---------------------------------------------------------------- progress

  ghost function Distance(w: World): nat {
    var a: int := |ActiveOf(w.machines)|;
    if a < w.desired then w.desired - a else a - w.desired
  }

  /** What is left to do: every machine too many or too few counts twice, each hook and member once. */
  ghost function Potential(w: World): nat {
    2 * Distance(w) + |PendingOf(w.machines)| + |UnhookedOf(w.machines)| + |w.members|
  }

  /** Nobody joined while the pass ran. */
  ghost predicate Undisturbed(w: World, l: Label, w': World) {
    l.ByController? && Alone(w.members, GoneIn(l), w'.members)
  }

  lemma HooksCost(ms: Machines, names: set<string>)
    requires names <= UnhookedOf(ms)
    ensures var ms' := AddHooks(ms, names);
            && ActiveOf(ms') == ActiveOf(ms) && PendingOf(ms') == PendingOf(ms)
            && UnhookedOf(ms') == UnhookedOf(ms) - names && |UnhookedOf(ms')| == |UnhookedOf(ms)| - |names|
            && NodesOf(ms') == NodesOf(ms) && ProvisioningOf(ms') == ProvisioningOf(ms)
            && (names == {} ==> ms' == ms)
  {
    HooksKeepSets(ms, names);
    HooksKeepNodes(ms, names);
  }

  lemma HooksKeepSets(ms: Machines, names: set<string>)
    requires names <= UnhookedOf(ms)
    ensures var ms' := AddHooks(ms, names);
            && ActiveOf(ms') == ActiveOf(ms) && PendingOf(ms') == PendingOf(ms) && ProvisioningOf(ms') == ProvisioningOf(ms)
            && UnhookedOf(ms') == UnhookedOf(ms) - names
  {
    forall n | n in ms ensures Active(ms[n]) && !ms[n].hook <==> n in UnhookedOf(ms) {}
  }

  lemma HooksKeepNodes(ms: Machines, names: set<string>)
    ensures NodesOf(AddHooks(ms, names)) == NodesOf(ms)
  {
    var ms' := AddHooks(ms, names);
    forall x | x in NodesOf(ms) ensures x in NodesOf(ms') {
      var n :| n in ms && ms[n].node == Some(x);
      assert ms'[n].node == Some(x);
    }
    forall x | x in NodesOf(ms') ensures x in NodesOf(ms) {
      var n :| n in ms' && ms'[n].node == Some(x);
      assert ms[n].node == Some(x);
    }
  }

  /** Creating or deleting a machine brings the count one closer and costs at most one hook. */
  lemma ScaleCost(w: World, p: Pass, w': World)
    requires ActStep(w, p, w') && (p.act.Created? || p.act.Marked?) && UnhookedOf(w.machines) == {} && w'.members == w.members
    ensures Potential(w') < Potential(w)
  {
    var name, ms, ms' := p.act.name, w.machines, w'.machines;
    if p.act.Created? {
      assert ActiveOf(ms') == ActiveOf(ms) + {name};
      assert PendingOf(ms') == PendingOf(ms);
      assert UnhookedOf(ms') <= {name};
      SubsetSize(UnhookedOf(ms'), {name});
    } else {
      assert ActiveOf(ms') == ActiveOf(ms) - {name};
      assert PendingOf(ms') <= {name};
      SubsetSize(PendingOf(ms'), {name});
      assert UnhookedOf(ms') == {};
    }
  }

  lemma ClearCost(ms: Machines, name: string)
    requires name in ms && Pending(ms[name])
    ensures var ms' := ms[name := ms[name].(hook := false)];
            ActiveOf(ms') == ActiveOf(ms) && |PendingOf(ms')| == |PendingOf(ms)| - 1 && UnhookedOf(ms') == UnhookedOf(ms)
  {
    var ms' := ms[name := ms[name].(hook := false)];
    assert PendingOf(ms') == PendingOf(ms) - {name};
    assert ActiveOf(ms') == ActiveOf(ms);
    assert UnhookedOf(ms') == UnhookedOf(ms);
  }

  /** The act alone, after hooks were added: every act that changes something lowers the potential. */
  lemma ActCost(w: World, p: Pass, w': World)
    requires ActStep(w, p, w') && UniqueIds(w.members) && !p.act.Nothing? && UnhookedOf(w.machines) == {}
    requires Alone(w.members, GoneIn(ByController(p)), w'.members)
    ensures Potential(w') <= Potential(w)
    ensures w' != w ==> Potential(w') < Potential(w)
  {
    if p.act.HookCleared? {
      ClearCost(w.machines, p.act.name);
    } else if p.act.Created? || p.act.Marked? {
      ScaleCost(w, p, w');
    }
  }

  /** Every undisturbed pass that changes anything strictly lowers the potential; no pass raises it. */
  lemma PassLowersPotential(w: World, p: Pass, w': World)
    requires PassStep(w, p, w') && UniqueIds(w.members) && Undisturbed(w, ByController(p), w')
    ensures Potential(w') <= Potential(w)
    ensures w' != w ==> Potential(w') < Potential(w)
  {
    HooksCost(w.machines, p.hooked);
    if !p.act.Nothing? { ActCost(Hooked(w, p), p, w'); }
  }

  // ---------------------------------------------------------------- the plain lexicographic measure

  ghost function OrphansOf(w: World): set<Member> {
    set m | m in w.members && m.name !in NodesOf(w.machines)
  }

  /** Fewer machines off the mark; or as many, and fewer pending; or as many of both, and fewer orphan members. */
  ghost predicate Lower(v: World, w: World) {
    || Distance(v) < Distance(w)
    || (Distance(v) == Distance(w) && |PendingOf(v.machines)| < |PendingOf(w.machines)|)
    || (Distance(v) == Distance(w) && |PendingOf(v.machines)| == |PendingOf(w.machines)| && |OrphansOf(v)| < |OrphansOf(w)|)
  }

  /** A hook cleared, an orphan removed, a machine created or deleted. */
  ghost predicate Productive(act: Act) {
    act.HookCleared? || act.Created? || act.Marked? || (act.OrphanRemoved? && act.gone.Some?)
  }

  lemma OrphansAfter(w: World, m: Member, w': World)
    requires UniqueIds(w.members) && m in w.members && w' == w.(members := Without(w.members, m.id))
    ensures OrphansOf(w') == OrphansOf(w) - {m}
  {
    forall x | x in w.members && x.id == m.id ensures x == m {
      SameIdSameMember(w.members, x, m);
    }
  }

  /** A removal that clears no hook counts exactly when the member was an orphan. */
  lemma RemovalMeasure(w: World, p: Pass, w': World)
    requires ActStep(w, p, w') && UniqueIds(w.members) && Undisturbed(w, ByController(p), w')
    requires (p.act.HookKept? || p.act.OrphanRemoved?) && p.act.gone.Some?
    ensures Lower(w', w) <==> p.act.OrphanRemoved?
  {
    var m := p.act.gone.value.member;
    OrphansAfter(w, m, w');
    if p.act.HookKept? { assert m.name in NodesOf(w.machines); }
    if p.act.OrphanRemoved? { assert m in OrphansOf(w); }
  }

  lemma ScaleMeasure(w: World, p: Pass, w': World)
    requires ActStep(w, p, w') && (p.act.Created? || p.act.Marked?)
    ensures Distance(w') < Distance(w)
  {
    if p.act.Created? {
      assert ActiveOf(w'.machines) == ActiveOf(w.machines) + {p.act.name};
    } else {
      assert ActiveOf(w'.machines) == ActiveOf(w.machines) - {p.act.name};
    }
  }

  lemma ActMeasure(w: World, p: Pass, w': World)
    requires ActStep(w, p, w') && UniqueIds(w.members) && Undisturbed(w, ByController(p), w')
    ensures Lower(w', w) <==> Productive(p.act)
  {
    if p.act.HookCleared? {
      ClearCost(w.machines, p.act.name);
    } else if p.act.Created? || p.act.Marked? {
      ScaleMeasure(w, p, w');
    } else if GoneIn(ByController(p)).Some? {
      RemovalMeasure(w, p, w');
    }
  }

  /**
   * The lexicographic measure drops in exactly the passes that clear a hook, remove an orphan member, or create
   * or delete a machine. It does not drop when hooks are added only, nor when a deleting machine's member was
   * removed but its hook could not be cleared yet; the potential above drops in those too.
   */
  lemma MeasureDropsWhenProductive(w: World, p: Pass, w': World)
    requires PassStep(w, p, w') && Inv(w) && Undisturbed(w, ByController(p), w')
    ensures Lower(w', w) <==> Productive(p.act)
  {
    HooksCost(w.machines, p.hooked);
    assert OrphansOf(Hooked(w, p)) == OrphansOf(w);
    ActMeasure(Hooked(w, p), p, w');
  }

  /** The machine whose turn it is has a node with a member that may be removed. */
  ghost predicate RetiresNext(w: World, n: string) {
    && OldestPending(w.machines, n) && w.machines[n].node.Some?
    && Find(w.members, w.machines[n].node.value).Some? && |w.members| > 1
  }

  /** Every undisturbed pass from here that changes anything lowers the measure. */
  ghost predicate MeasureMustDrop(w: World) {
    forall p, w' :: PassStep(w, p, w') && Undisturbed(w, ByController(p), w') && w' != w ==> Lower(w', w)
  }

  /**
   * The measure is sure to drop exactly where no active machine lacks its hook and no deleting machine's member is
   * about to be removed.
   */
  lemma MeasureDropsExactlyWhen(w: World)
    requires Inv(w)
    ensures MeasureMustDrop(w) <==> UnhookedOf(w.machines) == {} && !exists n :: RetiresNext(w, n)
  {
    if UnhookedOf(w.machines) != {} {
      HooksAloneDoNotLower(w);
    } else if n :| RetiresNext(w, n) {
      KeptHookDoesNotLower(w, n);
    } else {
      forall p, w' | PassStep(w, p, w') && Undisturbed(w, ByController(p), w') && w' != w ensures Lower(w', w) {
        UnproductiveIdles(w, p, w');
      }
    }
  }

  lemma HooksAloneDoNotLower(w: World)
    requires Inv(w) && UnhookedOf(w.machines) != {}
    ensures !MeasureMustDrop(w)
  {
    var p := Pass(UnhookedOf(w.machines), Nothing, false, true, []);
    var w' := Hooked(w, p);
    HooksCost(w.machines, p.hooked);
    assert PassStep(w, p, w') && Undisturbed(w, ByController(p), w');
    MeasureDropsWhenProductive(w, p, w');
    assert UnhookedOf(w'.machines) == {};
  }

  lemma KeptHookDoesNotLower(w: World, n: string)
    requires Inv(w) && UnhookedOf(w.machines) == {} && RetiresNext(w, n)
    ensures !MeasureMustDrop(w)
  {
    var m := Find(w.members, w.machines[n].node.value).value;
    var p := Pass({}, HookKept(n, Some(Removal(m, w.members, false))), false, true, []);
    var w' := w.(members := Without(w.members, m.id));
    WithoutOne(w.members, m.id);
    assert HasId(w.members, m.id);
    HooksCost(w.machines, {});
    assert Hooked(w, p) == w;
    assert PassStep(w, p, w') && Undisturbed(w, ByController(p), w');
    MeasureDropsWhenProductive(w, p, w');
  }

  lemma UnproductiveIdles(w: World, p: Pass, w': World)
    requires Inv(w) && UnhookedOf(w.machines) == {} && !(exists n :: RetiresNext(w, n))
    requires PassStep(w, p, w') && Undisturbed(w, ByController(p), w') && w' != w
    ensures Lower(w', w)
  {
    HooksCost(w.machines, p.hooked);
    assert Hooked(w, p) == w;
    MeasureDropsWhenProductive(w, p, w');
    KeptMeansRetired(w, p, w');
  }

  lemma KeptMeansRetired(w: World, p: Pass, w': World)
    requires ActStep(w, p, w') && Undisturbed(w, ByController(p), w')
    ensures p.act.HookKept? && p.act.gone.Some? ==> RetiresNext(w, p.act.name)
  {
  }

  /** The pass that shows it: the member left, the patch that clears the hook failed. */
  lemma MemberGoneHookKept()
    ensures exists w, p, w' :: PassStep(w, p, w') && Inv(w) && Undisturbed(w, ByController(p), w') && w' != w && !Lower(w', w)
  {
    var m, n := Member(1, "a", false), Member(2, "b", false);
    var ms := map["x" := Machine(Some(0), 0, true, Some("a"), "", true)];
    var gone := Removal(m, [m, n], false);
    var w, w' := World(ms, [m, n], 0, false), World(ms, [n], 0, false);
    var p := Pass({}, HookKept("x", Some(gone)), false, true, []);
    assert UnhookedOf(ms) == {} && AddHooks(ms, {}) == ms;
    assert OldestPending(ms, "x");
    assert [m, n][1..] == [n] && [n][1..] == [] && Without([m, n], 1) == [n];
    assert Effect([m, n], Some(gone), [n]) && Find([m, n], "a") == Some(m);
    assert PassStep(w, p, w') && Inv(w) && Undisturbed(w, ByController(p), w');
    MeasureDropsWhenProductive(w, p, w');
    assert w'.members != w.members;
  }

  // ---------------------------------------------------------------- convergence

  ghost predicate Quiet(ws: seq<World>, ls: seq<Label>) {
    && Run(ws, ls)
    && forall i {:trigger ls[i]} | 0 <= i < |ls| :: Undisturbed(ws[i], ls[i], ws[i + 1])
  }

  /** How many passes of a run changed anything. */
  ghost function Changes(ws: seq<World>): nat {
    if |ws| <= 1 then 0 else (if ws[0] != ws[1] then 1 else 0) + Changes(ws[1..])
  }

  /** With a quiet environment at most `Potential` passes act, however long the run and whatever fails. */
  lemma {:induction false} FewPassesAct(ws: seq<World>, ls: seq<Label>)
    requires Quiet(ws, ls) && Inv(ws[0])
    ensures Changes(ws) + Potential(ws[|ls|]) <= Potential(ws[0])
  {
    if ls != [] {
      assert Undisturbed(ws[0], ls[0], ws[1]) && Step(ws[0], ls[0], ws[1]);
      PassLowersPotential(ws[0], ls[0].pass, ws[1]);
      StepKeepsInv(ws[0], ls[0], ws[1]);
      QuietTail(ws, ls);
      FewPassesAct(ws[1..], ls[1..]);
    }
  }

  lemma QuietTail(ws: seq<World>, ls: seq<Label>)
    requires Quiet(ws, ls) && ls != []
    ensures Quiet(ws[1..], ls[1..])
  {
    TailIsRun(ws, ls);
    forall i | 0 <= i < |ls[1..]| ensures Undisturbed(ws[1..][i], ls[1..][i], ws[1..][i + 1]) {
      assert ls[1..][i] == ls[i + 1];
    }
  }

  /**
   * Convergence: in a quiet environment, if no call fails, then before the potential is used up there is a
   * moment at which everything is settled: the right number of machines, every one hooked, no deletion
   * waiting on its hook, no orphan member left to remove.
   */
  lemma {:induction false} Converges(ws: seq<World>, ls: seq<Label>) returns (i: nat)
    requires Quiet(ws, ls) && Inv(ws[0]) && |ls| > Potential(ws[0])
    requires forall l | l in ls :: l.ByController? && l.pass.clean
    ensures i < |ws| && Settled(ws[i])
  {
    assert Undisturbed(ws[0], ls[0], ws[1]) && Step(ws[0], ls[0], ws[1]) && ls[0] in ls;
    PassLowersPotential(ws[0], ls[0].pass, ws[1]);
    if ws[0] == ws[1] {
      CleanIdlePassIsSettled(ws[0], ls[0].pass);
      i := 0;
    } else {
      StepKeepsInv(ws[0], ls[0], ws[1]);
      QuietTail(ws, ls);
      i := Converges(ws[1..], ls[1..]);
      i := i + 1;
    }
  }

  /** A clean pass that changes nothing found nothing to do. */
  lemma CleanIdlePassIsSettled(w: World, p: Pass)
    requires PassStep(w, p, w) && p.clean && Inv(w) && Undisturbed(w, ByController(p), w)
    ensures Settled(w)
  {
    HooksCost(w.machines, p.hooked);
  }

  /** And a settled world is left alone by every undisturbed pass, clean or not. */
  lemma SettledStays(w: World, p: Pass, w': World)
    requires Settled(w) && PassStep(w, p, w') && Undisturbed(w, ByController(p), w')
    ensures w' == w
  {
    HooksCost(w.machines, p.hooked);
    assert Hooked(w, p) == w;
  }
}
