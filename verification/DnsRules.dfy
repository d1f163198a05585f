/**
 * The shared list of DNS forwarding rules of controlplane/internal/kubevirt/dns_proxy.go.
 *
 * Many tenants read, modify and write one cluster-scoped object. The API server refuses an update whose
 * resource version is no longer current; a client then starts over, at most three times.
 */
module DnsRules {
  import opened Basics

  /** An element of spec.servers: an object, whose name may be missing, or something that is no object. */
  datatype Entry = Server(name: Option<string>, body: string) | Opaque(raw: string)

  predicate Bears(e: Entry, name: string) { e.Server? && e.name == Some(name) }

  /** The list with the first entry of that name replaced, or with the rule appended. */
  function Upsert(es: seq<Entry>, name: string, body: string): seq<Entry> {
    if es == [] then [Server(Some(name), body)]
    else if Bears(es[0], name) then [Server(Some(name), body)] + es[1..]
    else [es[0]] + Upsert(es[1..], name, body)
  }

  /** The list without the entries of that name. */
  function Drop(es: seq<Entry>, name: string): seq<Entry> {
    if es == [] then []
    else if Bears(es[0], name) then Drop(es[1..], name)
    else [es[0]] + Drop(es[1..], name)
  }

  datatype Op = Ensure(name: string, body: string) | Remove(name: string)

  function Apply(es: seq<Entry>, op: Op): seq<Entry> {
    match op
    case Ensure(name, body) => Upsert(es, name, body)
    case Remove(name) => Drop(es, name)
  }

  function ApplyAll(es: seq<Entry>, ops: seq<Op>): seq<Entry> {
    if ops == [] then es else Apply(ApplyAll(es, ops[..|ops| - 1]), ops[|ops| - 1])
  }

  lemma ApplyOneMore(es: seq<Entry>, ops: seq<Op>, op: Op)
    ensures ApplyAll(es, ops + [op]) == Apply(ApplyAll(es, ops), op)
  {
    assert (ops + [op])[..|ops|] == ops;
  }

  // ---------------------------------------------------------------- what the operations mean

  function Bearing(es: seq<Entry>, name: string): nat {
    if es == [] then 0 else (if Bears(es[0], name) then 1 else 0) + Bearing(es[1..], name)
  }

  /** The entries that carry none of these names, in order. */
  function Others(es: seq<Entry>, names: set<string>): seq<Entry> {
    if es == [] then []
    else if es[0].Server? && es[0].name.Some? && es[0].name.value in names then Others(es[1..], names)
    else [es[0]] + Others(es[1..], names)
  }

  lemma {:induction false} UpsertMeaning(es: seq<Entry>, name: string, body: string)
    ensures Server(Some(name), body) in Upsert(es, name, body)
    ensures Bearing(Upsert(es, name, body), name) == if Bearing(es, name) == 0 then 1 else Bearing(es, name)
    ensures forall other | other != name :: Bearing(Upsert(es, name, body), other) == Bearing(es, other)
    ensures forall e | !Bears(e, name) :: e in Upsert(es, name, body) <==> e in es
    ensures forall names | name in names :: Others(Upsert(es, name, body), names) == Others(es, names)
  {
    if es != [] {
      var r := Upsert(es, name, body);
      assert es == [es[0]] + es[1..];
      if Bears(es[0], name) {
        assert r[1..] == es[1..];
      } else {
        UpsertMeaning(es[1..], name, body);
        assert r[1..] == Upsert(es[1..], name, body);
        assert Server(Some(name), body) in r[1..];
      }
    }
  }

  lemma {:induction false} DropMeaning(es: seq<Entry>, name: string)
    ensures Bearing(Drop(es, name), name) == 0
    ensures forall other | other != name :: Bearing(Drop(es, name), other) == Bearing(es, other)
    ensures forall e | !Bears(e, name) :: e in Drop(es, name) <==> e in es
    ensures forall names | name in names :: Others(Drop(es, name), names) == Others(es, names)
    ensures Bearing(es, name) == 0 <==> Drop(es, name) == es
    ensures |Drop(es, name)| == |es| - Bearing(es, name)
  {
    if es != [] {
      assert es == [es[0]] + es[1..];
      DropMeaning(es[1..], name);
      if !Bears(es[0], name) {
        assert Drop(es, name)[1..] == Drop(es[1..], name);
      }
    }
  }

  // ---------------------------------------------------------------- tenants against one server

  datatype Result = Done | Failed | GaveUp

  /**
   * Where a tenant's call stands. `since` is the server's version when it began and `tries` the updates that
   * were refused so far; `Holding` is between the read and the write, with what was read.
   */
  datatype Client =
    | Idle
    | Ready(op: Op, since: nat, tries: nat)
    | Holding(op: Op, since: nat, tries: nat, version: nat, seen: seq<Entry>)
    | Finished(op: Op, since: nat, result: Result)

  const MAX_RETRIES := 3

  datatype State<!T> = State(version: nat, entries: seq<Entry>, clients: map<T, Client>)

  datatype Commit<!T> = Commit(tenant: T, op: Op)

  /**
   * The steps of tenant `t`, with the operations that take effect in each. In a `Touch` somebody who is no tenant,
   * an operator or an administrator, updates the object but not its server list; whose turn it is said to be is
   * then of no account.
   */
  datatype Move = Start(op: Op) | Read | ReadFails | Write | WriteFails | Touch

  ghost predicate Step<T(!new)>(s: State<T>, t: T, m: Move, s': State<T>, done: seq<Commit<T>>) {
    && t in s.clients && s'.clients.Keys == s.clients.Keys
    && (forall u | u in s.clients && u != t :: s'.clients[u] == s.clients[u])
    && var c, c' := s.clients[t], s'.clients[t];
       match m
       case Start(op) =>
         (c.Idle? || c.Finished?) && c' == Ready(op, s.version, 0) && done == [] && Unwritten(s, s')
       case Read =>
         && c.Ready? && Unwritten(s, s')
         && if c.op.Remove? && Bearing(s.entries, c.op.name) == 0
            then c' == Finished(c.op, c.since, Done) && done == [Commit(t, c.op)]
            else c' == Holding(c.op, c.since, c.tries, s.version, s.entries) && done == []
       case ReadFails => c.Ready? && c' == Finished(c.op, c.since, Failed) && done == [] && Unwritten(s, s')
       case Write =>
         && c.Holding?
         && if c.version == s.version
            then && s'.entries == Apply(c.seen, c.op) && s'.version == s.version + 1
                 && c' == Finished(c.op, c.since, Done) && done == [Commit(t, c.op)]
            else && Unwritten(s, s') && done == []
                 && c' == (if c.tries < MAX_RETRIES then Ready(c.op, c.since, c.tries + 1)
                           else Finished(c.op, c.since, GaveUp))
       case Touch => c' == c && done == [] && s'.entries == s.entries && s'.version == s.version + 1
       case WriteFails => c.Holding? && c' == Finished(c.op, c.since, Failed) && done == [] && Unwritten(s, s')
  }

  ghost predicate Unwritten<T(!new)>(s: State<T>, s': State<T>) {
    s'.entries == s.entries && s'.version == s.version
  }

  /** What a client holds is current unless the version moved on, and every refusal means the version moved on. */
  ghost predicate ClientInv(c: Client, version: nat, entries: seq<Entry>) {
    match c
    case Idle => true
    case Ready(_, since, tries) => since + tries <= version && tries <= MAX_RETRIES
    case Holding(_, since, tries, v, seen) =>
      since + tries <= v <= version && tries <= MAX_RETRIES && (v == version ==> seen == entries)
    case Finished(_, since, result) => since <= version && (result.GaveUp? ==> since + MAX_RETRIES + 1 <= version)
  }

  function OpsOf<T>(cs: seq<Commit<T>>): seq<Op> {
    if cs == [] then [] else OpsOf(cs[..|cs| - 1]) + [cs[|cs| - 1].op]
  }

  ghost predicate Inv<T(!new)>(s: State<T>, start: seq<Entry>, done: seq<Commit<T>>) {
    && s.entries == ApplyAll(start, OpsOf(done))
    && forall t | t in s.clients :: ClientInv(s.clients[t], s.version, s.entries)
  }

  lemma CommitOneMore<T>(cs: seq<Commit<T>>, c: Commit<T>)
    ensures OpsOf(cs + [c]) == OpsOf(cs) + [c.op]
  {
    assert (cs + [c])[..|cs|] == cs;
  }

  lemma StepKeepsClients<T(!new)>(s: State<T>, t: T, m: Move, s': State<T>, now: seq<Commit<T>>)
    requires Step(s, t, m, s', now) && forall u | u in s.clients :: ClientInv(s.clients[u], s.version, s.entries)
    ensures forall u | u in s'.clients :: ClientInv(s'.clients[u], s'.version, s'.entries)
  {
    forall u | u in s'.clients ensures ClientInv(s'.clients[u], s'.version, s'.entries) {
      assert ClientInv(s.clients[u], s.version, s.entries) && ClientInv(s.clients[t], s.version, s.entries);
    }
  }

  /** What a step commits is what it does to the list. */
  lemma StepCommits<T(!new)>(s: State<T>, t: T, m: Move, s': State<T>, now: seq<Commit<T>>)
    requires Step(s, t, m, s', now) && ClientInv(s.clients[t], s.version, s.entries)
    ensures now == [] ==> s'.entries == s.entries
    ensures now != [] ==> |now| == 1 && s'.entries == Apply(s.entries, now[0].op)
  {
    var c := s.clients[t];
    if m.Read? && c.op.Remove? { DropMeaning(s.entries, c.op.name); }
  }

  lemma StepKeepsInv<T(!new)>(s: State<T>, t: T, m: Move, s': State<T>, now: seq<Commit<T>>, start: seq<Entry>, done: seq<Commit<T>>)
    requires Inv(s, start, done) && Step(s, t, m, s', now)
    ensures Inv(s', start, done + now)
  {
    StepKeepsClients(s, t, m, s', now);
    StepCommits(s, t, m, s', now);
    if now == [] {
      assert done + now == done;
    } else {
      assert now == [now[0]];
      CommitOneMore(done, now[0]);
      ApplyOneMore(start, OpsOf(done), now[0].op);
    }
  }

  /** A run from `start`, with every tenant idle at first: states, moves and what each committed. */
  ghost predicate Run<T(!new)>(ss: seq<State<T>>, ts: seq<T>, ms: seq<Move>, cs: seq<seq<Commit<T>>>, start: seq<Entry>) {
    && |ss| == |ms| + 1 && |ts| == |ms| && |cs| == |ms|
    && ss[0].entries == start && (forall t | t in ss[0].clients :: ss[0].clients[t].Idle?)
    && forall i {:trigger ms[i]} | 0 <= i < |ms| :: Step(ss[i], ts[i], ms[i], ss[i + 1], cs[i])
  }

  function Committed<T>(cs: seq<seq<Commit<T>>>): seq<Commit<T>> {
    if cs == [] then [] else Committed(cs[..|cs| - 1]) + cs[|cs| - 1]
  }

  /** Over every run the list is the committed operations applied one after another, in commit order. */
  lemma {:induction false} ListIsCommitsInOrder<T(!new)>(ss: seq<State<T>>, ts: seq<T>, ms: seq<Move>, cs: seq<seq<Commit<T>>>, start: seq<Entry>, i: nat)
    requires Run(ss, ts, ms, cs, start) && i <= |ms|
    ensures Inv(ss[i], start, Committed(cs[..i]))
  {
    if i > 0 {
      ListIsCommitsInOrder(ss, ts, ms, cs, start, i - 1);
      assert Step(ss[i - 1], ts[i - 1], ms[i - 1], ss[i], cs[i - 1]);
      assert cs[..i][..i - 1] == cs[..i - 1];
      StepKeepsInv(ss[i - 1], ts[i - 1], ms[i - 1], ss[i], cs[i - 1], start, Committed(cs[..i - 1]));
    }
  }

  /** An update of the object by somebody other than `t`. */
  predicate ByAnother<T(==)>(u: T, m: Move, done: seq<Commit<T>>, t: T) { m.Touch? || (u != t && m.Write? && done != []) }

  /** The updates by others than `t` that went through from step `begin` up to step `end`. */
  function OthersUpdates<T(==)>(ts: seq<T>, ms: seq<Move>, cs: seq<seq<Commit<T>>>, t: T, begin: nat, end: nat): nat
    requires end <= |ts| && |ts| == |ms| && |ms| == |cs|
  {
    if end <= begin then 0
    else
      var before := OthersUpdates(ts, ms, cs, t, begin, end - 1);
      if ByAnother(ts[end - 1], ms[end - 1], cs[end - 1], t) then before + 1 else before
  }

  lemma VersionMoves<T(!new)>(s: State<T>, t: T, m: Move, s': State<T>, done: seq<Commit<T>>)
    requires Step(s, t, m, s', done)
    ensures s'.version == s.version + if m.Touch? || (m.Write? && done != []) then 1 else 0
  {
  }

  /** A call that is not over successfully has seen exactly the updates of others: the version counts them since its start. */
  lemma {:induction false} CallCountsOthers<T(!new)>(ss: seq<State<T>>, ts: seq<T>, ms: seq<Move>, cs: seq<seq<Commit<T>>>, start: seq<Entry>,
                                                     i: nat, t: T) returns (first: nat)
    requires Run(ss, ts, ms, cs, start) && i <= |ms| && t in ss[i].clients && !ss[i].clients[t].Idle?
    ensures first < i && ts[first] == t && ms[first].Start? && ss[i].clients[t].since == ss[first].version
    ensures forall k | first < k < i && ts[k] == t :: !ms[k].Start?
    ensures !(ss[i].clients[t].Finished? && ss[i].clients[t].result.Done?) ==>
              ss[i].version == ss[i].clients[t].since + OthersUpdates(ts, ms, cs, t, first, i)
  {
    var n := i - 1;
    assert Step(ss[n], ts[n], ms[n], ss[n + 1], cs[n]);
    VersionMoves(ss[n], ts[n], ms[n], ss[n + 1], cs[n]);
    if ts[n] == t && ms[n].Start? {
      first := n;
      NoUpdatesYet(ts, ms, cs, t, n);
    } else {
      first := CallCountsOthers(ss, ts, ms, cs, start, n, t);
    }
  }

  lemma NoUpdatesYet<T>(ts: seq<T>, ms: seq<Move>, cs: seq<seq<Commit<T>>>, t: T, n: nat)
    requires n < |ts| && |ts| == |ms| && |ms| == |cs| && ts[n] == t && ms[n].Start?
    ensures OthersUpdates(ts, ms, cs, t, n, n + 1) == 0
  {
    assert OthersUpdates(ts, ms, cs, t, n, n) == 0;
  }

  /** A tenant gives up only if at least four updates by others went through since its call began. */
  lemma GivingUpMeansOthersSucceeded<T(!new)>(ss: seq<State<T>>, ts: seq<T>, ms: seq<Move>, cs: seq<seq<Commit<T>>>, start: seq<Entry>,
                                              i: nat, t: T) returns (first: nat)
    requires Run(ss, ts, ms, cs, start) && i <= |ms| && t in ss[i].clients
    requires ss[i].clients[t].Finished? && ss[i].clients[t].result.GaveUp?
    ensures first < i && ts[first] == t && ms[first].Start? && forall k | first < k < i && ts[k] == t :: !ms[k].Start?
    ensures OthersUpdates(ts, ms, cs, t, first, i) >= 4
  {
    ListIsCommitsInOrder(ss, ts, ms, cs, start, i);
    first := CallCountsOthers(ss, ts, ms, cs, start, i, t);
  }

  // ---------------------------------------------------------------- what tenants can rely on

  /** The operation of the last commit about this name. */
  function LastAbout(ops: seq<Op>, name: string): Option<Op> {
    if ops == [] then None
    else if ops[|ops| - 1].name == name then Some(ops[|ops| - 1])
    else LastAbout(ops[..|ops| - 1], name)
  }

  /**
   * No rule is lost and none comes back: after any committed operations, a name whose last operation was
   * Ensure has exactly that rule in the list, and one whose last operation was Remove has no entry.
   */
  lemma {:induction false} LastOperationWins(start: seq<Entry>, ops: seq<Op>, name: string)
    ensures match LastAbout(ops, name)
            case None => Bearing(ApplyAll(start, ops), name) == Bearing(start, name)
            case Some(Ensure(_, body)) => Server(Some(name), body) in ApplyAll(start, ops)
            case Some(Remove(_)) => Bearing(ApplyAll(start, ops), name) == 0
  {
    if ops != [] {
      var before, op := ops[..|ops| - 1], ops[|ops| - 1];
      var es := ApplyAll(start, before);
      LastOperationWins(start, before, name);
      match op
      case Ensure(n, body) =>
        UpsertMeaning(es, n, body);
        if n != name && LastAbout(before, name).Some? && LastAbout(before, name).value.Ensure? {
          assert !Bears(Server(Some(name), LastAbout(before, name).value.body), n);
        }
      case Remove(n) =>
        DropMeaning(es, n);
        if n != name && LastAbout(before, name).Some? && LastAbout(before, name).value.Ensure? {
          assert !Bears(Server(Some(name), LastAbout(before, name).value.body), n);
        }
    }
  }

  /** Entries of nobody's name keep content and order; a name that had at most one entry keeps at most one. */
  lemma {:induction false} StrangersUntouched(start: seq<Entry>, ops: seq<Op>, names: set<string>)
    requires forall op | op in ops :: op.name in names
    ensures Others(ApplyAll(start, ops), names) == Others(start, names)
    ensures forall n | Bearing(start, n) <= 1 :: Bearing(ApplyAll(start, ops), n) <= 1
  {
    if ops != [] {
      var before, op := ops[..|ops| - 1], ops[|ops| - 1];
      StrangersUntouched(start, before, names);
      var es := ApplyAll(start, before);
      assert op in ops;
      if op.Ensure? { UpsertMeaning(es, op.name, op.body); } else { DropMeaning(es, op.name); }
    }
  }

  /** Where tenants have distinct rule names, a tenant's last committed call alone decides its rule. */
  lemma TenantsDoNotInterfere<T(!new)>(ss: seq<State<T>>, ts: seq<T>, ms: seq<Move>, cs: seq<seq<Commit<T>>>, start: seq<Entry>, i: nat,
                                      rule: map<T, string>, t: T)
    requires Run(ss, ts, ms, cs, start) && i <= |ms| && t in rule
    requires forall a, b | a in rule && b in rule && rule[a] == rule[b] :: a == b
    requires forall c | c in Committed(cs[..i]) :: c.tenant in rule && c.op.name == rule[c.tenant]
    ensures match LastBy(Committed(cs[..i]), t)
            case None => Bearing(ss[i].entries, rule[t]) == Bearing(start, rule[t])
            case Some(Ensure(_, body)) => Server(Some(rule[t]), body) in ss[i].entries
            case Some(Remove(_)) => Bearing(ss[i].entries, rule[t]) == 0
    ensures Others(ss[i].entries, rule.Values) == Others(start, rule.Values)
    ensures Bearing(start, rule[t]) <= 1 ==> Bearing(ss[i].entries, rule[t]) <= 1
  {
    ListIsCommitsInOrder(ss, ts, ms, cs, start, i);
    var done := Committed(cs[..i]);
    LastByIsLastAbout(done, rule, t);
    LastOperationWins(start, OpsOf(done), rule[t]);
    OpsNamed(done, rule);
    StrangersUntouched(start, OpsOf(done), rule.Values);
  }

  function LastBy<T(==)>(cs: seq<Commit<T>>, t: T): Option<Op> {
    if cs == [] then None
    else if cs[|cs| - 1].tenant == t then Some(cs[|cs| - 1].op)
    else LastBy(cs[..|cs| - 1], t)
  }

  lemma {:induction false} LastByIsLastAbout<T(!new)>(cs: seq<Commit<T>>, rule: map<T, string>, t: T)
    requires t in rule && forall a, b | a in rule && b in rule && rule[a] == rule[b] :: a == b
    requires forall c | c in cs :: c.tenant in rule && c.op.name == rule[c.tenant]
    ensures LastBy(cs, t) == LastAbout(OpsOf(cs), rule[t])
  {
    if cs != [] {
      var before, last := cs[..|cs| - 1], cs[|cs| - 1];
      assert last in cs;
      assert OpsOf(cs)[..|OpsOf(cs)| - 1] == OpsOf(before);
      LastByIsLastAbout(before, rule, t);
    }
  }

  lemma {:induction false} OpsNamed<T(!new)>(cs: seq<Commit<T>>, rule: map<T, string>)
    requires forall c | c in cs :: c.tenant in rule && c.op.name == rule[c.tenant]
    ensures forall op | op in OpsOf(cs) :: op.name in rule.Values
  {
    if cs != [] {
      OpsNamed(cs[..|cs| - 1], rule);
      assert cs[|cs| - 1] in cs;
    }
  }

  // ---------------------------------------------------------------- when rule names collide

  function RuleName(namespace: string, cluster: string): string { namespace + "-" + cluster + "-dns" }

  /** One pair is the other with a hyphenated piece moved across the separating hyphen. */
  ghost predicate Shifted(n1: string, c1: string, n2: string, c2: string) {
    exists x: string :: n1 == n2 + "-" + x && c2 == x + "-" + c1
  }

  /** Two tenants get the same rule name exactly when they are one, or one namespace swallows the head of the other's cluster name. */
  lemma RuleNamesCollide(n1: string, c1: string, n2: string, c2: string)
    ensures RuleName(n1, c1) == RuleName(n2, c2) <==>
            (n1 == n2 && c1 == c2) || Shifted(n1, c1, n2, c2) || Shifted(n2, c2, n1, c1)
    ensures n1 + "-" + c1 <= RuleName(n1, c1) && RuleName(n1, c1)[|n1| + |c1| + 1..] == "-dns"
  {
    if RuleName(n1, c1) == RuleName(n2, c2) {
      CutSuffix(n1 + "-" + c1, n2 + "-" + c2, "-dns");
      if |n1| > |n2| { ShiftedWhenLonger(n1, c1, n2, c2); }
      else if |n2| > |n1| { ShiftedWhenLonger(n2, c2, n1, c1); }
      else {
        assert n1 == (n1 + "-" + c1)[..|n1|] == (n2 + "-" + c2)[..|n2|] == n2;
        assert c1 == (n1 + "-" + c1)[|n1| + 1..] == (n2 + "-" + c2)[|n2| + 1..] == c2;
      }
    }
    if Shifted(n1, c1, n2, c2) { ShiftedCollides(n1, c1, n2, c2); }
    if Shifted(n2, c2, n1, c1) { ShiftedCollides(n2, c2, n1, c1); }
  }

  lemma ShiftedCollides(n1: string, c1: string, n2: string, c2: string)
    requires Shifted(n1, c1, n2, c2)
    ensures RuleName(n1, c1) == RuleName(n2, c2)
  {
    var x: string :| n1 == n2 + "-" + x && c2 == x + "-" + c1;
    assert n1 + "-" + c1 == n2 + "-" + c2;
  }

  lemma CutSuffix(a: string, b: string, s: string)
    requires a + s == b + s
    ensures a == b
  {
    assert a == (a + s)[..|a|] && b == (b + s)[..|b|];
  }

  lemma ShiftedWhenLonger(n1: string, c1: string, n2: string, c2: string)
    requires n1 + "-" + c1 == n2 + "-" + c2 && |n1| > |n2|
    ensures Shifted(n1, c1, n2, c2)
  {
    var whole := n1 + "-" + c1;
    var x := n1[|n2| + 1..];
    assert n1 == whole[..|n1|] && n2 == whole[..|n2|] && whole[|n2|] == '-';
    assert n1 == n2 + "-" + x;
    assert c2 == whole[|n2| + 1..] && c1 == whole[|n1| + 1..];
    assert c2 == x + "-" + c1;
  }

  // ---------------------------------------------------------------- one tenant's call, as code

  lemma UpsertFrom(es: seq<Entry>, name: string, body: string, i: nat)
    requires i < |es|
    ensures var rest := es[..i] + Upsert(es[i..], name, body);
            rest == if Bears(es[i], name) then es[i := Server(Some(name), body)] else es[..i + 1] + Upsert(es[i + 1..], name, body)
  {
    assert es[i..][0] == es[i] && es[i..][1..] == es[i + 1..];
  }

  /** The in-place replacement of Ensure: the first entry of that name, or a new one at the end. */
  method ReplaceOrAppend(servers: seq<Entry>, name: string, body: string) returns (r: seq<Entry>)
    ensures r == Upsert(servers, name, body)
  {
    r := servers;
    var found := false;
    var i := 0;
    while i < |servers|
      invariant 0 <= i <= |servers| && r == servers && !found
      invariant Upsert(servers, name, body) == servers[..i] + Upsert(servers[i..], name, body)
    {
      UpsertFrom(servers, name, body, i);
      if Bears(servers[i], name) {
        r := servers[i := Server(Some(name), body)];
        found := true;
        break;
      }
      i := i + 1;
    }
    assert !found ==> servers[..i] == servers && servers[i..] == [];
    if !found { r := servers + [Server(Some(name), body)]; }
  }

  /** The filtering loop of Remove. */
  method FilterOut(servers: seq<Entry>, name: string) returns (r: seq<Entry>)
    ensures r == Drop(servers, name)
  {
    r := [];
    for i := 0 to |servers|
      invariant Drop(servers, name) == r + Drop(servers[i..], name)
    {
      if !Bears(servers[i], name) { r := r + [servers[i]]; }
    }
  }

  /** The operations this tenant committed, in order. */
  ghost function Mine(cs: seq<Commit<bool>>): seq<Op> {
    if cs == [] then []
    else Mine(cs[..|cs| - 1]) + if cs[|cs| - 1].tenant then [cs[|cs| - 1].op] else []
  }

  lemma LogOneMore(start: seq<Entry>, cs: seq<Commit<bool>>, c: Commit<bool>)
    ensures ApplyAll(start, OpsOf(cs + [c])) == Apply(ApplyAll(start, OpsOf(cs)), c.op)
    ensures Mine(cs + [c]) == Mine(cs) + if c.tenant then [c.op] else []
  {
    CommitOneMore(cs, c);
    ApplyOneMore(start, OpsOf(cs), c.op);
    assert (cs + [c])[..|cs|] == cs;
  }

  datatype Reply = Accepted | Conflict | Refused

  /** The API server's object, which may not exist and may have no server list, with every commit to it. */
  class ApiServer {
    var exists_: bool
    var version: nat
    var servers: Option<seq<Entry>>
    ghost const start: seq<Entry>
    ghost var done: seq<Commit<bool>>

    /** How many updates came from others, and how many this tenant asked for. */
    ghost var others: nat
    ghost var asked: nat

    ghost function Entries(): seq<Entry>
      reads this
    {
      if servers.Some? then servers.value else []
    }

    ghost predicate Valid()
      reads this
    {
      Entries() == ApplyAll(start, OpsOf(done))
    }

    constructor (found: bool, servers: Option<seq<Entry>>)
      ensures Valid() && done == [] && Entries() == start
    {
      exists_, version, this.servers := found, 0, servers;
      others, asked := 0, 0;
      start, done := if servers.Some? then servers.value else [], [];
    }

    /** Others update the object: tenants commit operations of their own (`Commit.tenant` false), anybody may touch the rest. */
    method OthersCommit(calm: bool)
      requires Valid()
      modifies this`version, this`servers, this`done, this`others
      ensures Valid() && Mine(done) == Mine(old(done))
      ensures version >= old(version) && others - old(others) == version - old(version)
      ensures version == old(version) ==> servers == old(servers)
      ensures calm ==> version == old(version)
    {
      if calm { return; }
      var more: bool := *;
      var left: nat := *;
      while more && left > 0
        invariant Valid() && Mine(done) == Mine(old(done))
        invariant version >= old(version) && others - old(others) == version - old(version)
        invariant version == old(version) ==> servers == old(servers)
      {
        var op: Op := *;
        var touch: bool := *;
        if !touch {
          LogOneMore(start, done, Commit(false, op));
          servers := Some(Apply(if servers.Some? then servers.value else [], op));
          done := done + [Commit(false, op)];
        }
        version, others := version + 1, others + 1;
        left := left - 1;
        more := *;
      }
    }

    /** An operation that finds nothing to change takes effect when it reads. */
    ghost method TakesNoWrite(op: Op)
      requires Valid() && Apply(Entries(), op) == Entries()
      modifies this`done
      ensures Valid() && |done| == |old(done)| + 1 && Mine(done) == Mine(old(done)) + [op]
    {
      LogOneMore(start, done, Commit(true, op));
      done := done + [Commit(true, op)];
    }

    /** Compare-and-swap on the version. */
    method Update(seen: nat, list: seq<Entry>, op: Op, calm: bool) returns (r: Reply)
      requires Valid() && (seen == version ==> list == Apply(Entries(), op))
      requires seen <= version
      modifies this`version, this`servers, this`done, this`others, this`asked
      ensures asked == old(asked) + 1
      ensures Valid() && version - old(version) == others - old(others) + if r.Accepted? then 1 else 0
      ensures others >= old(others)
      ensures Mine(done) == Mine(old(done)) + (if r.Accepted? then [op] else [])
      ensures r.Conflict? ==> version > seen
      ensures r.Refused? ==> version == seen
      ensures calm && seen == old(version) ==> r.Accepted?
    {
      asked := asked + 1;
      OthersCommit(calm);
      if seen != version { return Conflict; }
      assert list == Apply(Entries(), op);
      var refused: bool := *;
      if refused && !calm { return Refused; }
      Store(list, op);
      r := Accepted;
    }

    /** The write itself, under the version that is current. */
    method Store(list: seq<Entry>, op: Op)
      requires Valid() && list == Apply(Entries(), op)
      modifies this`version, this`servers, this`done
      ensures Valid() && version == old(version) + 1 && |done| == |old(done)| + 1 && servers == Some(list)
      ensures Mine(done) == Mine(old(done)) + [op]
    {
      LogOneMore(start, done, Commit(true, op));
      servers, version, done := Some(list), version + 1, done + [Commit(true, op)];
    }
  }

  /** One attempt: read, rewrite the list, write it back under the version that was read. */
  method Attempt(api: ApiServer, op: Op, calm: bool) returns (r: Reply)
    requires api.Valid()
    modifies api`version, api`servers, api`done, api`others, api`asked
    ensures api.Valid() && api.version >= old(api.version) && api.others >= old(api.others)
    ensures Mine(api.done) == Mine(old(api.done)) + (if r.Accepted? && api.exists_ then [op] else [])
    ensures !api.exists_ ==> (r.Accepted? <==> op.Remove?) && !r.Conflict?
    ensures r.Conflict? ==> api.version - old(api.version) == api.others - old(api.others) > 0
    ensures calm && (api.exists_ || op.Remove?) ==> r.Accepted?
    ensures calm && op.Remove? && Bearing(old(api.Entries()), op.name) == 0 ==> api.asked == old(api.asked)
    ensures api.asked <= old(api.asked) + 1 && (r.Conflict? ==> api.asked == old(api.asked) + 1)
  {
    api.OthersCommit(calm);
    if !api.exists_ { return if op.Remove? then Accepted else Refused; }
    var unread: bool := *;
    if unread && !calm { return Refused; }
    var seen := api.version;
    var list := if api.servers.Some? then api.servers.value else [];
    match op
    case Ensure(name, body) =>
      var next := ReplaceOrAppend(list, name, body);
      r := api.Update(seen, next, op, calm);
    case Remove(name) =>
      var next := FilterOut(list, name);
      DropMeaning(list, name);
      if |next| == |list| {
        api.TakesNoWrite(op);
        return Accepted;
      }
      r := api.Update(seen, next, op, calm);
  }

  /**
   * The whole call with its bounded retry: success commits the operation exactly once, failure never does,
   * and a final conflict means that at least four updates by others got in between. While every call gets through
   * and nobody else writes, it succeeds.
   */
  method Call(api: ApiServer, op: Op, calm: bool) returns (r: Reply)
    requires api.Valid()
    modifies api`version, api`servers, api`done, api`others, api`asked
    ensures api.Valid()
    ensures Mine(api.done) == Mine(old(api.done)) + (if r.Accepted? && api.exists_ then [op] else [])
    ensures !api.exists_ ==> (r.Accepted? <==> op.Remove?) && !r.Conflict?
    ensures r.Conflict? ==> api.others >= old(api.others) + 4
    ensures calm && (api.exists_ || op.Remove?) ==> r.Accepted?
    ensures api.asked <= old(api.asked) + 4 && (r.Conflict? ==> api.asked == old(api.asked) + 4)
  {
    r := Conflict;
    var i := 0;
    while i <= MAX_RETRIES
      invariant 0 <= i <= MAX_RETRIES + 1
      invariant calm && (api.exists_ || op.Remove?) ==> i == 0
      invariant api.asked == old(api.asked) + i && (i > 0 ==> api.exists_)
      invariant api.Valid() && Mine(api.done) == Mine(old(api.done)) && r.Conflict?
      invariant api.others >= old(api.others) + i
    {
      r := Attempt(api, op, calm);
      if !r.Conflict? { return; }
      i := i + 1;
    }
  }

  /** Ensures the tenant's rule; without the address of its DNS proxy there is nothing to forward to yet. */
  method EnsureDNSForwardingRule(api: ApiServer, namespace: string, cluster: string, proxy: string, body: string, calm: bool)
    returns (ok: bool)
    requires api.Valid()
    modifies api`version, api`servers, api`done, api`others, api`asked
    ensures api.Valid()
    ensures proxy == "" ==> ok && Mine(api.done) == Mine(old(api.done)) && api.servers == old(api.servers)
    ensures proxy != "" ==> Mine(api.done) == Mine(old(api.done)) + if ok then [Ensure(namespace + "-" + cluster + "-dns", body)] else []
    ensures proxy != "" && !api.exists_ ==> !ok
    ensures calm && api.exists_ ==> ok
  {
    if proxy == "" { return true; }
    var r := Call(api, Ensure(RuleName(namespace, cluster), body), calm);
    ok := r.Accepted?;
  }

  /** Removes the same tenant's rule, which is success where there is none or no object. */
  method RemoveDNSForwardingRule(api: ApiServer, namespace: string, cluster: string, calm: bool) returns (ok: bool)
    requires api.Valid()
    modifies api`version, api`servers, api`done, api`others, api`asked
    ensures api.Valid()
    ensures Mine(api.done) == Mine(old(api.done)) +
              if ok && api.exists_ then [Remove(namespace + "-" + cluster + "-dns")] else []
    ensures !api.exists_ || calm ==> ok
  {
    var r := Call(api, Remove(RuleName(namespace, cluster)), calm);
    ok := r.Accepted?;
  }
}
