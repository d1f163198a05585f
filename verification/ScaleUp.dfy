/**
 * The creation of a control-plane machine with its infrastructure machine and its bootstrap config, and the
 * deletions that undo it, scaleUpControlPlane and createInfraMachine of
 * controlplane/internal/controller/openshiftassistedcontrolplane_controller.go.
 */
module ScaleUp {
  import opened Basics

  /** The names a Machine holds of its bootstrap config and its infrastructure machine. */
  datatype Refs = Refs(config: string, infra: string)

  datatype World = World(infra: set<string>, configs: set<string>, machines: map<string, Refs>)

  /** A create is done, refused, or done with its reply lost, which the caller takes for a refusal. */
  datatype Reply = Done | Refused | Lost

  /** What one call meets: whether the service and the template are there, each create's reply, each deletion's effect. */
  datatype Luck = Luck(service: bool, template: bool, infra: Reply, config: Reply, machine: Reply, configGone: bool, infraGone: bool)

  function Add(s: set<string>, name: string, r: Reply): set<string> {
    if r.Refused? then s else s + {name}
  }

  function Undo(s: set<string>, name: string, gone: bool): set<string> {
    if gone then s - {name} else s
  }

  /** The server refuses a name that is taken. */
  predicate Possible(w: World, name: string, l: Luck) {
    && (name in w.infra ==> l.infra.Refused?)
    && (name in w.configs ==> l.config.Refused?)
    && (name in w.machines ==> l.machine.Refused?)
  }

  /** What is left of the luck where names are taken. */
  function Actual(w: World, name: string, l: Luck): (r: Luck)
    ensures Possible(w, name, r) && (Possible(w, name, l) ==> r == l)
  {
    l.(infra := if name in w.infra then Refused else l.infra,
       config := if name in w.configs then Refused else l.config,
       machine := if name in w.machines then Refused else l.machine)
  }

  predicate Prepared(l: Luck) { l.service && l.template }

  predicate Succeeds(l: Luck) { Prepared(l) && l.infra.Done? && l.config.Done? && l.machine.Done? }

  /** The objects after a call, create by create, each failure followed by its deletions. */
  function After(w: World, name: string, l: Luck): World {
    if !Prepared(l) then w
    else
      var infra := Add(w.infra, name, l.infra);
      if !l.infra.Done? then w.(infra := infra)
      else
        var configs := Add(w.configs, name, l.config);
        if !l.config.Done? then w.(infra := Undo(infra, name, l.infraGone), configs := configs)
        else
          var machines := if l.machine.Refused? then w.machines else w.machines[name := Refs(name, name)];
          if l.machine.Done? then World(infra, configs, machines)
          else World(Undo(infra, name, l.infraGone), Undo(configs, name, l.configGone), machines)
  }

  /** Nothing was lost, and every deletion a failure called for took effect. */
  predicate Undone(l: Luck) {
    Prepared(l) ==>
      match l.infra
      case Refused => true
      case Lost => false
      case Done =>
        match l.config
        case Refused => l.infraGone
        case Lost => false
        case Done => l.machine.Refused? && l.infraGone && l.configGone
  }

  /** All or nothing: success adds one object of each kind, and a failure leaves everything as it was exactly when undone. */
  lemma AllOrNothing(w: World, name: string, l: Luck)
    requires Possible(w, name, l)
    ensures var v := After(w, name, l);
            if Succeeds(l) then
              && name !in w.infra && v.infra == w.infra + {name}
              && name !in w.configs && v.configs == w.configs + {name}
              && name !in w.machines && v.machines == w.machines[name := Refs(name, name)]
            else v == w <==> Undone(l)
  {
    var v := After(w, name, l);
    if Prepared(l) && l.infra.Done? {
      assert name in Add(w.infra, name, l.infra) && Undo(Add(w.infra, name, l.infra), name, true) == w.infra;
      if l.config.Done? { assert Undo(Add(w.configs, name, l.config), name, true) == w.configs; }
      if l.config.Done? && l.machine.Lost? { assert name in v.machines; }
    }
  }

  // ---------------------------------------------------------------- over many calls

  /** Every machine has its own two objects, and there are no others. */
  predicate Matched(w: World) {
    && w.infra == w.machines.Keys && w.configs == w.machines.Keys
    && forall m :: m in w.machines ==> w.machines[m] == Refs(m, m)
  }

  /** Undone, or a machine lost whose objects, against the controller's will, both stayed. */
  predicate Tidy(l: Luck) {
    || Succeeds(l) || Undone(l)
    || (Prepared(l) && l.infra.Done? && l.config.Done? && l.machine.Lost? && !l.infraGone && !l.configGone)
  }

  /** A call keeps machines and their objects matched exactly when it was tidy. */
  lemma CallKeepsMatched(w: World, name: string, l: Luck)
    requires Possible(w, name, l) && Matched(w)
    ensures Matched(After(w, name, l)) <==> Tidy(l)
  {
    AllOrNothing(w, name, l);
    var v := After(w, name, l);
    if Prepared(l) && l.infra.Lost? { assert name in v.infra && name !in v.machines; }
    if Prepared(l) && l.infra.Done? && !l.config.Done? {
      assert name !in v.machines && (l.infraGone || name in v.infra) && (l.config.Refused? || name in v.configs);
    }
    if Prepared(l) && l.infra.Done? && l.config.Done? && !l.machine.Done? {
      assert name in v.machines <==> l.machine.Lost?;
      assert name in v.infra <==> !l.infraGone;
      assert name in v.configs <==> !l.configGone;
    }
  }

  /** A run of calls, each with a name of its own choosing. */
  predicate Run(ws: seq<World>, calls: seq<(string, Luck)>) {
    && |ws| == |calls| + 1
    && forall i :: 0 <= i < |calls| ==>
         Possible(ws[i], calls[i].0, calls[i].1) && ws[i + 1] == After(ws[i], calls[i].0, calls[i].1)
  }

  function Successes(calls: seq<(string, Luck)>): nat {
    if calls == [] then 0
    else Successes(calls[..|calls| - 1]) + if Succeeds(calls[|calls| - 1].1) then 1 else 0
  }

  /** Over any run of calls whose failures were undone, no object is ever orphaned and each success counts once. */
  lemma {:induction false} NoOrphans(ws: seq<World>, calls: seq<(string, Luck)>)
    requires Run(ws, calls) && Matched(ws[0])
    requires forall i :: 0 <= i < |calls| ==> Succeeds(calls[i].1) || Undone(calls[i].1)
    ensures Matched(ws[|calls|])
    ensures |ws[|calls|].machines| == |ws[0].machines| + Successes(calls)
    ensures |ws[|calls|].infra| == |ws[|calls|].machines| == |ws[|calls|].configs|
    decreases |calls|
  {
    if calls != [] {
      var n := |calls| - 1;
      assert Run(ws[..n + 1], calls[..n]);
      NoOrphans(ws[..n + 1], calls[..n]);
      var (name, l) := calls[n];
      CallKeepsMatched(ws[n], name, l);
      AllOrNothing(ws[n], name, l);
    }
    var w := ws[|calls|];
    assert |w.machines.Keys| == |w.machines|;
  }

  // ---------------------------------------------------------------- the code

  /** The three kinds of objects on the API server. */
  class Server {
    var infra: set<string>
    var configs: set<string>
    var machines: map<string, Refs>

    ghost function View(): World
      reads this
    {
      World(infra, configs, machines)
    }

    method CreateInfra(name: string, wish: Reply) returns (err: bool)
      modifies this`infra
      ensures var r := if name in old(infra) then Refused else wish; infra == Add(old(infra), name, r) && err == !r.Done?
    {
      if name in infra || wish.Refused? { return true; }
      infra := infra + {name};
      err := wish.Lost?;
    }

    method CreateConfig(name: string, wish: Reply) returns (err: bool)
      modifies this`configs
      ensures var r := if name in old(configs) then Refused else wish; configs == Add(old(configs), name, r) && err == !r.Done?
    {
      if name in configs || wish.Refused? { return true; }
      configs := configs + {name};
      err := wish.Lost?;
    }

    method CreateMachine(name: string, refs: Refs, wish: Reply) returns (err: bool)
      modifies this`machines
      ensures var r := if name in old(machines) then Refused else wish;
              machines == (if r.Refused? then old(machines) else old(machines)[name := refs]) && err == !r.Done?
    {
      if name in machines || wish.Refused? { return true; }
      machines := machines[name := refs];
      err := wish.Lost?;
    }

    /** Deletes the object, if the call gets through. */
    method DeleteInfra(name: string, gone: bool)
      modifies this`infra
      ensures infra == Undo(old(infra), name, gone)
    {
      if gone { infra := infra - {name}; }
    }

    method DeleteConfig(name: string, gone: bool)
      modifies this`configs
      ensures configs == Undo(old(configs), name, gone)
    {
      if gone { configs := configs - {name}; }
    }

    /** The name of the infrastructure machine created for a Machine, or nothing. */
    method CreateInfraMachine(machineName: string, template: bool, wish: Reply) returns (infraRef: Option<string>)
      modifies this`infra
      ensures !template ==> infra == old(infra) && infraRef.None?
      ensures template ==> var r := if machineName in old(infra) then Refused else wish;
                infra == Add(old(infra), machineName, r) && infraRef == if r.Done? then Some(machineName) else None
    {
      if !template { return None; }
      var err := CreateInfra(machineName, wish);
      infraRef := if err then None else Some(machineName);
    }

    /** One call, whatever it meets, ends as `After` says: what is owed is deleted, and exactly that. */
    method ScaleUpControlPlane(name: string, l: Luck) returns (created: Option<string>)
      modifies this
      ensures View() == After(old(View()), name, Actual(old(View()), name, l))
      ensures created == if Succeeds(Actual(old(View()), name, l)) then Some(name) else None
    {
      if !l.service { return None; }
      var infraRef := CreateInfraMachine(name, l.template, l.infra);
      if infraRef.None? { return None; }
      var err := CreateConfig(name, l.config);
      if err {
        DeleteInfra(infraRef.value, l.infraGone);
        return None;
      }
      err := CreateMachine(name, Refs(name, infraRef.value), l.machine);
      if err {
        DeleteConfig(name, l.configGone);
        DeleteInfra(infraRef.value, l.infraGone);
        return None;
      }
      created := Some(name);
    }
  }
}
