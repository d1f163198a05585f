/**
 * The etcd client of controlplane/internal/workloadclient/etcd.go.
 *
 * `Cluster` is the etcd cluster seen through remote calls. Before every call the rest of the world may
 * move: elections happen, alarms change, members join. Every call may fail. A trace of everything that
 * was opened, read, sent and elected is kept, and a monitor reads that trace.
 */
module Etcd {
  import opened Basics

  datatype Member = Member(id: nat, name: string, learner: bool)

  datatype Alarm = NoSpace | Corrupt

  /** A Status reply: the identity of the member that answered and the leader it reports (0: none). */
  datatype Status = Status(header: Option<nat>, leader: nat)

  /** The first member with the given name. */
  function Find(ms: seq<Member>, name: string): (r: Option<Member>)
    ensures r.Some? ==> r.value in ms && r.value.name == name
    ensures r.None? ==> forall m | m in ms :: m.name != name
  {
    if ms == [] then None
    else if ms[0].name == name then Some(ms[0])
    else Find(ms[1..], name)
  }

  /** The member list after the member with this identity has left. */
  function Without(ms: seq<Member>, id: nat): (r: seq<Member>)
    ensures |r| <= |ms|
    ensures forall m :: m in r <==> m in ms && m.id != id
  {
    if ms == [] then []
    else if ms[0].id == id then Without(ms[1..], id)
    else [ms[0]] + Without(ms[1..], id)
  }

  ghost predicate UniqueIds(ms: seq<Member>) {
    forall i, j | 0 <= i < j < |ms| :: ms[i].id != ms[j].id
  }

  ghost predicate HasId(ms: seq<Member>, id: nat) {
    exists m :: m in ms && m.id == id
  }

  lemma {:induction false} FindInLonger(ms: seq<Member>, more: seq<Member>, name: string)
    ensures Find(ms, name).Some? ==> Find(ms + more, name) == Find(ms, name)
  {
    if ms != [] {
      assert (ms + more)[1..] == ms[1..] + more;
      FindInLonger(ms[1..], more, name);
    }
  }

  lemma FindInExtension(ms: seq<Member>, longer: seq<Member>, name: string)
    requires ms <= longer
    ensures Find(ms, name).Some? ==> Find(longer, name) == Find(ms, name)
  {
    assert longer == ms + longer[|ms|..];
    FindInLonger(ms, longer[|ms|..], name);
  }

  lemma UniqueTail(ms: seq<Member>)
    requires UniqueIds(ms) && ms != []
    ensures UniqueIds(ms[1..]) && !HasId(ms[1..], ms[0].id)
  {
    var rest := ms[1..];
    assert forall i | 0 <= i < |rest| :: rest[i] == ms[i + 1];
  }

  lemma ConsUnique(m: Member, ms: seq<Member>)
    requires UniqueIds(ms) && !HasId(ms, m.id)
    ensures UniqueIds([m] + ms)
  {
    assert forall i | 0 <= i < |ms| :: ms[i] in ms;
  }

  lemma {:induction false} WithoutKeepsUnique(ms: seq<Member>, id: nat)
    requires UniqueIds(ms)
    ensures UniqueIds(Without(ms, id))
  {
    if ms != [] {
      UniqueTail(ms);
      WithoutKeepsUnique(ms[1..], id);
      if ms[0].id != id { ConsUnique(ms[0], Without(ms[1..], id)); }
    }
  }

  lemma {:induction false} WithoutTakesOne(ms: seq<Member>, m: Member)
    requires UniqueIds(ms) && m in ms
    ensures multiset(ms) == multiset(Without(ms, m.id)) + multiset{m}
  {
    var rest := ms[1..];
    UniqueTail(ms);
    assert ms == [ms[0]] + rest;
    if ms[0].id == m.id {
      NothingToRemove(rest, m.id);
    } else {
      WithoutTakesOne(rest, m);
    }
  }

  /** Removing one identity keeps identities distinct and takes exactly one member away. */
  lemma WithoutOne(ms: seq<Member>, id: nat)
    requires UniqueIds(ms)
    ensures UniqueIds(Without(ms, id))
    ensures |Without(ms, id)| == if HasId(ms, id) then |ms| - 1 else |ms|
    ensures forall m :: m in ms && m.id == id ==> multiset(ms) == multiset(Without(ms, id)) + multiset{m}
  {
    WithoutKeepsUnique(ms, id);
    forall m | m in ms && m.id == id ensures multiset(ms) == multiset(Without(ms, id)) + multiset{m} {
      WithoutTakesOne(ms, m);
    }
    if HasId(ms, id) {
      var m :| m in ms && m.id == id;
      assert |multiset(ms)| == |multiset(Without(ms, id))| + 1;
    } else {
      NothingToRemove(ms, id);
    }
  }

  lemma {:induction false} NothingToRemove(ms: seq<Member>, id: nat)
    requires !HasId(ms, id)
    ensures Without(ms, id) == ms
  {
    if ms != [] {
      assert ms[0] in ms;
      assert forall m | m in ms[1..] :: m in ms;
      NothingToRemove(ms[1..], id);
    }
  }

  // ---------------------------------------------------------------- the trace and its monitor

  datatype Event =
    | Opened(conn: nat, pick: Pick)
    | Closed(conn: nat)
    | Listed(conn: nat, members: seq<Member>)
    | AlarmsRead(conn: nat, alarms: seq<Alarm>)
    | StatusRead(conn: nat, status: Status)
    | MoveSent(conn: nat, source: string, to: string, target: nat)
    | Moved(target: nat)
    | NotTheLeader(conn: nat)
    | StatusAsked(conn: nat)
    | LookedUp(lookup: Lookup)
    | RemoveSent(conn: nat, id: nat)
    | Election(leader: nat)
    | Joined(newcomers: seq<Member>)

  /** The node that was connected to, and the nodes with usable pods that there were to choose from. */
  datatype Pick = Pick(node: string, nodes: set<string>)

  /** A name looked up in a list, and the identity found. */
  datatype Lookup = Lookup(name: string, id: Option<nat>)

  /**
   * What the monitor remembers: the open connection, the last node picked and the last reply of each kind read
   * over it; the number of events and of elections; and, of leadership, the last word: the
   * last look-up, the leader reported or installed after it, which event that was, and the elections by then.
   */
  datatype Monitor = Monitor(open: Option<nat>, pick: Pick, used: set<nat>, list: Option<seq<Member>>,
                             alarms: Option<seq<Alarm>>, status: Option<Status>,
                             word: Word, events: nat, elections: nat, fine: bool)

  /** A leadership move asked for, by names. */
  datatype Move = Move(source: string, to: string)

  /**
   * The moves asked for so far, and whether one was refused for not being sent to the leader and the status not
   * asked for since.
   */
  datatype Asked = Asked(moves: seq<Move>, owed: bool)

  datatype Word = Word(looked: Option<Lookup>, known: Option<nat>, at: nat, since: nat)

  const START := Monitor(None, Pick("", {}), {}, None, None, None, Word(None, None, 0, 0), 0, 0, true)

  /** A leadership move is fair when the source itself said it leads, to a full member it listed. */
  ghost predicate MoveAllowed(list: seq<Member>, status: Status, source: string, to: string, target: nat) {
    && Find(list, source).Some?
    && var src := Find(list, source).value.id;
      && status.header == Some(src) && status.leader == src && src != 0
      && target != 0 && target != src
      && Find(list, to).Some? && Find(list, to).value.id == target && !Find(list, to).value.learner
  }

  /** A removal is fair when a list without a lone member and alarms without CORRUPT were read. */
  ghost predicate RemoveAllowed(list: seq<Member>, alarms: seq<Alarm>) {
    |list| != 1 && Corrupt !in alarms
  }

  function IdOf(m: Option<Member>): Option<nat> {
    if m.Some? then Some(m.value.id) else None
  }

  ghost function Step(m: Monitor, e: Event): Monitor {
    Heed(m, e).(events := m.events + 1)
  }

  ghost function Heed(m: Monitor, e: Event): Monitor {
    match e
    case Opened(c, pick) =>
      m.(open := Some(c), pick := pick, used := m.used + {c}, list := None, alarms := None, status := None,
         fine := m.fine && m.open.None? && c !in m.used)
    case Closed(c) => m.(open := None, fine := m.fine && m.open == Some(c))
    case Listed(c, ms) => m.(list := Some(ms), fine := m.fine && m.open == Some(c))
    case AlarmsRead(c, a) => m.(alarms := Some(a), fine := m.fine && m.open == Some(c))
    case StatusRead(c, s) => m.(status := Some(s), word := Word(m.word.looked, Some(s.leader), m.events, m.elections),
                                fine := m.fine && m.open == Some(c))
    case Moved(target) => m.(word := Word(m.word.looked, Some(target), m.events, m.elections))
    case LookedUp(l) => m.(word := Word(Some(l), None, m.events, m.elections),
                           fine := m.fine && m.list.Some? && l.id == IdOf(Find(m.list.value, l.name)))
    case MoveSent(c, source, to, target) =>
      m.(fine := m.fine && m.open == Some(c) && (source != "" ==> m.pick.node == source) && m.list.Some? && m.status.Some?
                 && MoveAllowed(m.list.value, m.status.value, source, to, target))
    case RemoveSent(c, id) =>
      m.(fine := m.fine && m.open == Some(c) && m.list.Some? && m.alarms.Some?
                 && RemoveAllowed(m.list.value, m.alarms.value))
    case Election(_) => m.(elections := m.elections + 1)
    case _ => m
  }

  ghost function Ask(a: Asked, e: Event): Asked {
    match e
    case MoveSent(_, source, to, _) => a.(moves := a.moves + [Move(source, to)])
    case NotTheLeader(_) => a.(owed := true)
    case StatusAsked(_) => a.(owed := false)
    case _ => a
  }

  ghost function AskedIn(log: seq<Event>): Asked {
    if log == [] then Asked([], false) else Ask(AskedIn(log[..|log| - 1]), log[|log| - 1])
  }

  /** The same memory, but for events that were none of the client's doing. */
  ghost function Apart(m: Monitor, now: Monitor): Monitor { m.(events := now.events, elections := now.elections) }

  ghost function Watch(log: seq<Event>): Monitor {
    if log == [] then START else Step(Watch(log[..|log| - 1]), log[|log| - 1])
  }

  /** An observer that starts where the monitor starts and follows it event by event. */
  ghost predicate Faithful(observer: seq<Event> -> Monitor) {
    && observer([]) == START
    && forall log: seq<Event>, e: Event {:trigger observer(log + [e])} :: observer(log + [e]) == Step(observer(log), e)
  }

  lemma WatchIsFaithful()
    ensures Faithful(Watch)
  {
    forall log: seq<Event>, e: Event ensures Watch(log + [e]) == Step(Watch(log), e) {
      assert (log + [e])[..|log|] == log;
    }
  }

  lemma {:induction false} FaithfulIsWatch(observer: seq<Event> -> Monitor, log: seq<Event>)
    requires Faithful(observer)
    ensures observer(log) == Watch(log)
  {
    if log != [] {
      var before := log[..|log| - 1];
      FaithfulIsWatch(observer, before);
      assert log == before + [log[|log| - 1]];
    }
  }

  /** The same for what is asked. */
  ghost predicate Tallies(tally: seq<Event> -> Asked) {
    && tally([]) == Asked([], false)
    && forall log: seq<Event>, e: Event {:trigger tally(log + [e])} :: tally(log + [e]) == Ask(tally(log), e)
  }

  lemma AskedInTallies()
    ensures Tallies(AskedIn)
  {
    forall log: seq<Event>, e: Event ensures AskedIn(log + [e]) == Ask(AskedIn(log), e) {
      assert (log + [e])[..|log|] == log;
    }
  }

  lemma {:induction false} TallyIsAskedIn(tally: seq<Event> -> Asked, log: seq<Event>)
    requires Tallies(tally)
    ensures tally(log) == AskedIn(log)
  {
    if log != [] {
      var before := log[..|log| - 1];
      TallyIsAskedIn(tally, before);
      assert log == before + [log[|log| - 1]];
    }
  }

  /** A good trace was good at every earlier moment. */
  lemma {:induction false} FineBefore(log: seq<Event>, n: nat)
    requires n <= |log| && Watch(log).fine
    ensures Watch(log[..n]).fine
  {
    if n < |log| {
      var shorter := log[..|log| - 1];
      FineBefore(shorter, n);
      assert shorter[..n] == log[..n];
    } else {
      assert log[..n] == log;
    }
  }

  ghost predicate SameKind(a: Event, b: Event) {
    (a.Opened? && b.Opened?) || (a.Listed? && b.Listed?) || (a.StatusRead? && b.StatusRead?) || (a.AlarmsRead? && b.AlarmsRead?)
  }

  /** `e` happened, and nothing of its kind since. */
  ghost predicate Last(log: seq<Event>, e: Event) {
    exists i :: 0 <= i < |log| && log[i] == e && forall k | i < k < |log| :: !SameKind(log[k], e)
  }

  lemma LastNext(log: seq<Event>, e: Event, next: Event)
    ensures Last(log, e) && !SameKind(next, e) ==> Last(log + [next], e)
    ensures Last(log + [next], next)
  {
    if Last(log, e) && !SameKind(next, e) {
      var i :| 0 <= i < |log| && log[i] == e && forall k | i < k < |log| :: !SameKind(log[k], e);
      assert (log + [next])[i] == e;
    }
    assert (log + [next])[|log|] == next;
  }

  ghost predicate Remembers(m: Monitor, e: Event) {
    match e
    case Opened(c, pick) => m.open == Some(c) && m.pick == pick
    case Listed(c, ms) => m.open == Some(c) && m.list == Some(ms)
    case StatusRead(c, s) => m.open == Some(c) && m.status == Some(s)
    case AlarmsRead(c, a) => m.open == Some(c) && m.alarms == Some(a)
    case _ => false
  }

  lemma {:induction false} MemoryNext(log: seq<Event>, e: Event)
    requires log != [] && Watch(log).fine && Remembers(Watch(log), e) && log[|log| - 1] != e
    ensures var before := Watch(log[..|log| - 1]);
            before.fine && Remembers(before, e) && !SameKind(log[|log| - 1], e)
  {
  }

  /** What the monitor remembers was really read, over the connection that is still open, and most recently. */
  lemma {:induction false} RememberedWasRead(log: seq<Event>, e: Event)
    requires Watch(log).fine && Remembers(Watch(log), e)
    ensures Last(log, e)
  {
    var before, next := log[..|log| - 1], log[|log| - 1];
    assert log == before + [next];
    LastNext(before, e, next);
    if next != e {
      MemoryNext(log, e);
      RememberedWasRead(before, e);
    }
  }

  /**
   * In a good trace every MoveLeader went over a connection to the source's own pod, whose last status came from
   * the source itself and named the source as leader, to a member of that connection's last list that may lead.
   */
  lemma {:induction false} MovesAreFair(log: seq<Event>, i: nat)
    requires Watch(log).fine && i < |log| && log[i].MoveSent?
    ensures exists list, status, pick: Pick ::
              && Last(log[..i], Opened(log[i].conn, pick)) && (log[i].source != "" ==> pick.node == log[i].source)
              && Last(log[..i], Listed(log[i].conn, list))
              && Last(log[..i], StatusRead(log[i].conn, status))
              && MoveAllowed(list, status, log[i].source, log[i].to, log[i].target)
  {
    FineBefore(log, i + 1);
    FineBefore(log, i);
    assert log[..i + 1][..i] == log[..i];
    var m := Watch(log[..i]);
    assert Watch(log[..i + 1]) == Step(m, log[i]);
    RememberedWasRead(log[..i], Listed(log[i].conn, m.list.value));
    RememberedWasRead(log[..i], StatusRead(log[i].conn, m.status.value));
    RememberedWasRead(log[..i], Opened(log[i].conn, m.pick));
  }

  /** The pick of a trace's last opening, whether it was closed since or not. */
  ghost function PickIn(log: seq<Event>): Pick {
    if log == [] then Pick("", {})
    else if log[|log| - 1].Opened? then log[|log| - 1].pick
    else PickIn(log[..|log| - 1])
  }

  lemma {:induction false} PickNext(log: seq<Event>)
    requires log != []
    ensures var e := log[|log| - 1]; Watch(log).pick == if e.Opened? then e.pick else Watch(log[..|log| - 1]).pick
  {
  }

  /** The monitor knows it. */
  lemma {:induction false} PickIsLastOpening(log: seq<Event>)
    ensures Watch(log).pick == PickIn(log)
  {
    if log != [] {
      PickNext(log);
      PickIsLastOpening(log[..|log| - 1]);
    }
  }

  /** Every refusal for not being the leader is followed by a look at the status. */
  ghost predicate RefusalsFollowedUp(log: seq<Event>) {
    forall i | 0 <= i < |log| && log[i].NotTheLeader? :: exists j :: i < j < |log| && log[j].StatusAsked?
  }

  ghost predicate FollowedUpFrom(log: seq<Event>, i: nat) { exists j :: i < j < |log| && log[j].StatusAsked? }

  lemma {:induction false} FollowedUp(log: seq<Event>, i: nat)
    requires i < |log| && log[i].NotTheLeader? && !AskedIn(log).owed
    ensures FollowedUpFrom(log, i)
  {
    var n := |log| - 1;
    if !log[n].StatusAsked? {
      FollowedUp(log[..n], i);
      var j :| i < j < n && log[..n][j].StatusAsked?;
      assert log[j].StatusAsked?;
    }
  }

  /** Nothing is owed at the end of a trace only if every refusal was followed up. */
  lemma NothingOwed(log: seq<Event>)
    requires !AskedIn(log).owed
    ensures RefusalsFollowedUp(log)
  {
    forall i | 0 <= i < |log| && log[i].NotTheLeader? ensures exists j :: i < j < |log| && log[j].StatusAsked? {
      FollowedUp(log, i);
    }
  }

  /** The moves asked for in a trace. */
  ghost function MovesIn(log: seq<Event>): seq<Move> {
    if log == [] then []
    else
      var e := log[|log| - 1];
      MovesIn(log[..|log| - 1]) + if e.MoveSent? then [Move(e.source, e.to)] else []
  }

  lemma {:induction false} MovesAreCounted(log: seq<Event>)
    ensures AskedIn(log).moves == MovesIn(log)
  {
    if log != [] { MovesAreCounted(log[..|log| - 1]); }
  }

  /** In a good trace every MemberRemove followed a list of more than one member and alarms without CORRUPT. */
  lemma {:induction false} RemovalsAreFair(log: seq<Event>, i: nat)
    requires Watch(log).fine && i < |log| && log[i].RemoveSent?
    ensures exists list, alarms ::
              && Last(log[..i], Listed(log[i].conn, list))
              && Last(log[..i], AlarmsRead(log[i].conn, alarms))
              && RemoveAllowed(list, alarms)
  {
    FineBefore(log, i + 1);
    FineBefore(log, i);
    assert log[..i + 1][..i] == log[..i];
    var m := Watch(log[..i]);
    assert Watch(log[..i + 1]) == Step(m, log[i]);
    RememberedWasRead(log[..i], Listed(log[i].conn, m.list.value));
    RememberedWasRead(log[..i], AlarmsRead(log[i].conn, m.alarms.value));
  }

  ghost predicate NoElection(log: seq<Event>, mark: nat) {
    forall k | mark <= k < |log| :: !log[k].Election?
  }

  lemma {:induction false} ElectionsGrow(log: seq<Event>)
    requires log != []
    ensures Watch(log).elections == Watch(log[..|log| - 1]).elections + if log[|log| - 1].Election? then 1 else 0
  {
  }

  lemma {:induction false} NoElectionNext(log: seq<Event>, mark: nat)
    requires mark < |log|
    ensures NoElection(log, mark) <==> NoElection(log[..|log| - 1], mark) && !log[|log| - 1].Election?
  {
    var before := log[..|log| - 1];
    assert forall k | mark <= k < |before| :: before[k] == log[k];
  }

  /** The monitor counted no election between two moments exactly when the trace holds none between them. */
  lemma {:induction false} CountedElections(log: seq<Event>, mark: nat)
    requires mark <= |log|
    ensures Watch(log[..mark]).elections <= Watch(log).elections
    ensures Watch(log[..mark]).elections == Watch(log).elections <==> NoElection(log, mark)
  {
    if mark == |log| {
      assert log[..mark] == log;
    } else {
      var before := log[..|log| - 1];
      CountedElections(before, mark);
      assert before[..mark] == log[..mark];
      ElectionsGrow(log);
      NoElectionNext(log, mark);
    }
  }

  ghost function Openings(log: seq<Event>, c: nat): nat {
    if log == [] then 0
    else Openings(log[..|log| - 1], c) + if log[|log| - 1].Opened? && log[|log| - 1].conn == c then 1 else 0
  }

  ghost function Closings(log: seq<Event>, c: nat): nat {
    if log == [] then 0 else Closings(log[..|log| - 1], c) + if log[|log| - 1] == Closed(c) then 1 else 0
  }

  /** Opened once if used at all, and closed once unless still open. */
  ghost predicate Balanced(log: seq<Event>, c: nat, open: Option<nat>, used: set<nat>) {
    && Openings(log, c) == (if c in used then 1 else 0)
    && Closings(log, c) == (if c in used && open != Some(c) then 1 else 0)
    && (open == Some(c) ==> c in used)
  }

  lemma {:induction false} BalancedNext(log: seq<Event>, c: nat, open: Option<nat>, used: set<nat>, open': Option<nat>)
    requires log != [] && Balanced(log[..|log| - 1], c, open, used) && Opens(open, log[|log| - 1], open')
    requires log[|log| - 1].Opened? ==> log[|log| - 1].conn !in used
    ensures Balanced(log, c, open', used + if log[|log| - 1].Opened? then {log[|log| - 1].conn} else {})
  {
  }

  lemma {:induction false} UsedNext(log: seq<Event>)
    requires log != [] && Watch(log).fine
    ensures var m, e := Watch(log[..|log| - 1]), log[|log| - 1];
            Watch(log).used == (m.used + if e.Opened? then {e.conn} else {}) && (e.Opened? ==> e.conn !in m.used)
  {
  }

  /** In a good trace each connection is opened at most once and closed exactly as often as it was opened, bar the open one. */
  lemma {:induction false} ConnectionsBalance(log: seq<Event>, c: nat)
    requires Watch(log).fine
    ensures Balanced(log, c, Watch(log).open, Watch(log).used)
  {
    if log != [] {
      var before := log[..|log| - 1];
      OpenNext(log);
      UsedNext(log);
      ConnectionsBalance(before, c);
      BalancedNext(log, c, Watch(before).open, Watch(before).used, Watch(log).open);
    }
  }

  ghost predicate ClosedSince(log: seq<Event>, i: nat, c: nat) {
    exists k :: i < k < |log| && log[k] == Closed(c)
  }

  /** What an event does to the open connection, when the trace stays good. */
  ghost predicate Opens(open: Option<nat>, e: Event, open': Option<nat>) {
    && open' == (if e.Opened? then Some(e.conn) else if e.Closed? then None else open)
    && (e.Closed? ==> open == Some(e.conn)) && (e.Opened? ==> open.None?)
  }

  lemma {:induction false} OpenNext(log: seq<Event>)
    requires log != [] && Watch(log).fine
    ensures var m, e := Watch(log[..|log| - 1]), log[|log| - 1];
            m.fine && Opens(m.open, e, Watch(log).open)
  {
  }

  ghost function OpenAfter(log: seq<Event>): Option<nat> {
    if log == [] then None
    else var e := log[|log| - 1];
      if e.Opened? then Some(e.conn) else if e.Closed? then None else OpenAfter(log[..|log| - 1])
  }

  /** Opened only when none is open, and only the open one closed. */
  ghost predicate Disciplined(log: seq<Event>) {
    log == [] ||
      var before := log[..|log| - 1];
      Disciplined(before) && Opens(OpenAfter(before), log[|log| - 1], OpenAfter(log))
  }

  lemma {:induction false} FineIsDisciplined(log: seq<Event>)
    requires Watch(log).fine
    ensures Disciplined(log) && Watch(log).open == OpenAfter(log)
  {
    if log != [] {
      OpenNext(log);
      FineIsDisciplined(log[..|log| - 1]);
    }
  }

  lemma {:induction false} StaysOpen(log: seq<Event>, i: nat)
    requires Disciplined(log) && i < |log| && log[i].Opened?
    ensures ClosedSince(log, i, log[i].conn) || OpenAfter(log) == Some(log[i].conn)
  {
    var n := |log| - 1;
    var before := log[..n];
    if i < n {
      StaysOpen(before, i);
      if k :| i < k < n && before[k] == Closed(log[i].conn) { assert log[k] == Closed(log[i].conn); }
    }
  }

  /** Between two openings the first connection was closed: at most one is ever open. */
  lemma {:induction false} OneConnectionAtATime(log: seq<Event>, i: nat, j: nat)
    requires Watch(log).fine && i < j < |log| && log[i].Opened? && log[j].Opened?
    ensures exists k :: i < k < j && log[k] == Closed(log[i].conn)
  {
    var upto, before := log[..j + 1], log[..j];
    FineBefore(log, j + 1);
    FineIsDisciplined(upto);
    assert upto[..j] == before;
    StaysOpen(before, i);
    var k :| i < k < j && before[k] == Closed(log[i].conn);
    assert log[k] == Closed(log[i].conn);
  }

  // ---------------------------------------------------------------- the cluster and the client's calls

  datatype MoveOutcome = LeaderMoved | NotLeader | MoveFailed

  /** A member that left: who, from which list, and whether it led when it left. */
  datatype Removal = Removal(member: Member, before: seq<Member>, led: bool)

  /** The member that `name` denotes is not the leader. */
  ghost predicate NotLeading(ms: seq<Member>, leader: nat, name: string) {
    Find(ms, name).Some? && leader != 0 ==> Find(ms, name).value.id != leader
  }

  /** Newcomers do not lead: as long as nobody is elected, a name that did not lead still does not. */
  lemma StillNotLeading(ms: seq<Member>, longer: seq<Member>, leader: nat, name: string)
    requires ms <= longer && UniqueIds(longer) && (leader != 0 ==> HasId(ms, leader))
    requires NotLeading(ms, leader, name)
    ensures NotLeading(longer, leader, name)
  {
    FindInExtension(ms, longer, name);
    if Find(ms, name).None? && Find(longer, name).Some? && leader != 0 {
      var l :| l in ms && l.id == leader;
      var m := Find(longer, name).value;
      var i :| 0 <= i < |ms| && ms[i] == l;
      var j :| 0 <= j < |longer| && longer[j] == m;
      assert longer[i] == l && longer[..|ms|] == ms;
    }
  }

  /** Leadership changes only by election. */
  ghost predicate Drifted(epoch: nat, leader: nat, epoch': nat, leader': nat) {
    epoch <= epoch' && (epoch == epoch' ==> leader == leader')
  }

  /**
   * Leadership is no obstacle to removing `source`: it was looked up in the last list and was absent, or
   * the last leader reported or installed since is neither nobody nor the identity that was looked up.
   */
  ghost predicate Cleared(m: Monitor, source: string) {
    && m.word.looked.Some? && m.word.looked.value.name == source
    && match m.word.looked.value.id
       case None => m.word.known.None?
       case Some(id) => m.word.known.Some? && m.word.known.value !in {0, id}
  }

  /** The leader an event reports or installs. */
  ghost function Reveals(e: Event): Option<nat> {
    match e
    case StatusRead(_, s) => Some(s.leader)
    case Moved(t) => Some(t)
    case _ => None
  }

  /** The last leader reported or installed from a point of the trace on. */
  ghost function LastRevealed(log: seq<Event>, from: nat): Option<nat> {
    if |log| <= from then None
    else if Reveals(log[|log| - 1]).Some? then Reveals(log[|log| - 1])
    else LastRevealed(log[..|log| - 1], from)
  }

  lemma {:induction false} LookupNext(log: seq<Event>)
    requires log != [] && Watch(log).fine && !log[|log| - 1].LookedUp?
    ensures var m, e := Watch(log[..|log| - 1]), log[|log| - 1];
            && m.fine && Watch(log).word.looked == m.word.looked
            && Watch(log).word.known == if Reveals(e).Some? then Reveals(e) else m.word.known
  {
  }

  lemma {:induction false} LookupNow(log: seq<Event>)
    requires log != [] && log[|log| - 1].LookedUp?
    ensures Watch(log).word.looked == Some(log[|log| - 1].lookup) && Watch(log).word.known == None
  {
  }

  /** The last look-up is at `i`, and `known` is the last leader revealed after it. */
  ghost predicate RevealedSince(log: seq<Event>, i: nat, looked: Lookup, known: Option<nat>) {
    && i < |log| && log[i] == LookedUp(looked) && (forall k | i < k < |log| :: !log[k].LookedUp?)
    && known == LastRevealed(log, i + 1)
  }

  lemma {:induction false} RevealedNext(log: seq<Event>, i: nat, looked: Lookup, known: Option<nat>)
    requires log != [] && !log[|log| - 1].LookedUp? && RevealedSince(log[..|log| - 1], i, looked, known)
    ensures var e := Reveals(log[|log| - 1]); RevealedSince(log, i, looked, if e.Some? then e else known)
  {
    var before := log[..|log| - 1];
    forall k | i < k < |log| ensures !log[k].LookedUp? {
      if k < |before| { assert before[k] == log[k]; }
    }
  }

  /** What the monitor calls known is the last leader the trace reveals after its last look-up. */
  lemma {:induction false} KnownIsLastRevealed(log: seq<Event>) returns (i: nat)
    requires Watch(log).fine && Watch(log).word.looked.Some?
    ensures RevealedSince(log, i, Watch(log).word.looked.value, Watch(log).word.known)
  {
    var n := |log| - 1;
    if log[n].LookedUp? {
      LookupNow(log);
      i := n;
    } else {
      LookupNext(log);
      i := KnownIsLastRevealed(log[..n]);
      RevealedNext(log, i, Watch(log).word.looked.value, Watch(log[..n]).word.known);
    }
  }

  /** An event about leadership: a look-up, or a leader reported or installed. */
  ghost predicate Speaks(e: Event) { e.LookedUp? || Reveals(e).Some? }

  /** The event that the word stands for is in the trace, and it is the last one about leadership. */
  ghost predicate Spoken(log: seq<Event>, w: Word) {
    && w.at < |log| && (forall k | w.at < k < |log| :: !Speaks(log[k]))
    && match w.known
       case Some(l) => Reveals(log[w.at]) == Some(l)
       case None => w.looked.Some? && log[w.at] == LookedUp(w.looked.value)
  }

  lemma {:induction false} WordNow(log: seq<Event>)
    requires log != [] && Speaks(log[|log| - 1])
    ensures var w := Watch(log).word;
            Spoken(log, w.(at := |log| - 1)) && w.at == Watch(log[..|log| - 1]).events && w.since == Watch(log).elections
  {
  }

  lemma {:induction false} WordStays(log: seq<Event>)
    requires log != [] && !Speaks(log[|log| - 1])
    ensures Watch(log).word == Watch(log[..|log| - 1]).word
  {
  }

  /** The word's event is in the trace as the last about leadership, and its count of elections is the one up to there. */
  ghost predicate WordHolds(log: seq<Event>, w: Word) {
    Spoken(log, w) && w.since == Watch(log[..w.at + 1]).elections
  }

  lemma SpokenStays(log: seq<Event>, w: Word)
    requires log != [] && !Speaks(log[|log| - 1]) && Spoken(log[..|log| - 1], w)
    ensures Spoken(log, w) && log[..|log| - 1][..w.at + 1] == log[..w.at + 1]
  {
    var before := log[..|log| - 1];
    forall k | w.at < k < |log| ensures !Speaks(log[k]) {
      if k < |before| { assert before[k] == log[k]; }
    }
  }

  lemma WordHoldsOn(log: seq<Event>, w: Word)
    requires log != [] && !Speaks(log[|log| - 1]) && WordHolds(log[..|log| - 1], w)
    ensures WordHolds(log, w)
  {
    SpokenStays(log, w);
  }

  lemma {:induction false} EventsCounted(log: seq<Event>)
    ensures Watch(log).events == |log|
  {
    if log != [] { EventsCounted(log[..|log| - 1]); }
  }

  lemma {:induction false} WordHoldsNow(log: seq<Event>)
    requires log != [] && Speaks(log[|log| - 1])
    ensures WordHolds(log, Watch(log).word)
  {
    WordNow(log);
    EventsCounted(log[..|log| - 1]);
    assert log[..|log|] == log;
  }

  /** The monitor's word is the last event about leadership, and it counted the elections up to there. */
  lemma {:induction false} WordIsLast(log: seq<Event>)
    requires Watch(log).word.looked.Some?
    ensures WordHolds(log, Watch(log).word)
  {
    if Speaks(log[|log| - 1]) {
      WordHoldsNow(log);
    } else {
      WordStays(log);
      WordIsLast(log[..|log| - 1]);
      WordHoldsOn(log, Watch(log[..|log| - 1]).word);
    }
  }

  /** The event says that `name`, if it is the member `id`, does not lead: it is not listed, or somebody else leads. */
  ghost predicate RulesOut(e: Event, name: string, id: nat) {
    e == LookedUp(Lookup(name, None)) || (Reveals(e).Some? && Reveals(e).value !in {0, id})
  }

  /** The last word about leadership ruled the member out, and an election came after it. */
  ghost predicate OvertakenByElection(trace: seq<Event>, name: string, id: nat) {
    exists i, j :: 0 <= i < j < |trace| && RulesOut(trace[i], name, id) && trace[j].Election?
                   && forall k | i < k < |trace| :: !Speaks(trace[k])
  }

  lemma Overtaken(log: seq<Event>, start: nat, w: Word, j: nat, name: string, id: nat)
    requires Spoken(log, w) && start <= w.at < j < |log| && log[j].Election? && RulesOut(log[w.at], name, id)
    ensures OvertakenByElection(log[start..], name, id)
  {
    var trace, i := log[start..], w.at - start;
    assert trace[i] == log[w.at] && trace[j - start] == log[j];
    forall k | i < k < |trace| ensures !Speaks(trace[k]) { assert trace[k] == log[start + k]; }
  }

  lemma ElectionSince(log: seq<Event>, mark: nat) returns (j: nat)
    requires mark <= |log| && Watch(log[..mark]).elections < Watch(log).elections
    ensures mark <= j < |log| && log[j].Election?
  {
    CountedElections(log, mark);
    j :| mark <= j < |log| && log[j].Election?;
  }

  /** More elections than at the last word: the trace from `start` on shows the word and an election after it. */
  lemma ElectionAfterWord(log: seq<Event>, start: nat, name: string, id: nat)
    requires var m := Watch(log);
             && Cleared(m, name) && m.elections > m.word.since && start <= m.word.at
             && (m.word.looked.value.id.Some? ==> m.word.looked.value.id.value == id)
    ensures start <= |log| && OvertakenByElection(log[start..], name, id)
  {
    var w := Watch(log).word;
    WordIsLast(log);
    var j := ElectionSince(log, w.at + 1);
    assert RulesOut(log[w.at], name, id);
    Overtaken(log, start, w, j, name, id);
  }

  /** The member has an identity, and the etcd pod on its node is usable. */
  ghost predicate Up(m: Member, pods: seq<Pod>) { m.id != 0 && HasPodOn(pods, m.name) }

  /** Some member can be elected. */
  ghost predicate Electable(ms: seq<Member>, pods: seq<Pod>) { exists m :: m in ms && Up(m, pods) }

  /** Who leads, if anybody does, is up. */
  ghost predicate LeaderUp(ms: seq<Member>, leader: nat, pods: seq<Pod>) {
    leader != 0 ==> exists m :: m in ms && m.id == leader && Up(m, pods)
  }

  /** A leader that is up stays up or is followed by one that is, and one that was not removed goes on leading. */
  ghost predicate LeaderFollows(ms: seq<Member>, leader: nat, gone: Option<Removal>, ms': seq<Member>, leader': nat, pods: seq<Pod>) {
    && (LeaderUp(ms, leader, pods) ==> LeaderUp(ms', leader', pods))
    && (leader != 0 && (gone.Some? ==> gone.value.member.id != leader) ==> leader' == leader)
  }

  /**
   * The cluster with everybody else in it. A call made while things are `calm` is answered, and nothing changes
   * meanwhile but that a vacant leadership is filled by a member that is up; any other call may fail, and anything
   * but a removal may happen before it.
   */
  class Cluster {
    var members: seq<Member>
    var leader: nat
    var alarms: seq<Alarm>
    var pods: seq<Pod>
    var open: set<nat>
    var peer: string
    var nextConn: nat
    ghost var log: seq<Event>
    ghost var mon: Monitor
    ghost var asked: Asked
    ghost const observer: seq<Event> -> Monitor
    ghost const tally: seq<Event> -> Asked

    /** Identities are distinct and the leader, if any, is a member. */
    ghost predicate Sane()
      reads this`members, this`leader
    {
      UniqueIds(members) && (leader != 0 ==> HasId(members, leader))
    }

    ghost predicate Valid()
      reads this
    {
      && Sane()
      && Faithful(observer) && mon == observer(log) && Tallies(tally) && asked == tally(log)
      && mon.fine && mon.events == |log| && (mon.word.looked.Some? ==> mon.word.at < |log|)
      && (forall c | c in mon.used :: c < nextConn)
      && (mon.open.None? ==> open == {})
      && (mon.open.Some? ==> open == {mon.open.value} && mon.pick.node == peer)
    }

    /** `name` does not lead unless there was an election since the count stood at `epoch`. */
    ghost predicate SafeSince(epoch: nat, name: string)
      reads this
    {
      epoch <= mon.elections && (epoch == mon.elections ==> NotLeading(members, leader, name))
    }

    /** The last word clears `name`, was about the member it still denotes, and holds until the next election. */
    ghost predicate AllClear(name: string)
      reads this
    {
      && Cleared(mon, name) && SafeSince(mon.word.since, name)
      && (mon.word.looked.value.id.Some? ==> IdOf(Find(members, name)) == mon.word.looked.value.id)
    }

    /** The trace only grew, and members only joined. */
    twostate predicate Onward()
      reads this
    {
      old(log) <= log && old(members) <= members
    }

    /** Members, alarms and pods are as they were. */
    twostate predicate Steady()
      reads this
    {
      members == old(members) && alarms == old(alarms) && pods == old(pods)
    }

    /** Steady, with the same leader, or one that is up where there was none. */
    twostate predicate Calm()
      reads this
    {
      && Steady()
      && (old(leader) != 0 ==> leader == old(leader)) && (old(leader) == 0 ==> LeaderUp(members, leader, pods))
      && (Electable(members, pods) ==> leader != 0)
    }

    /** `LeaderFollows` since then. */
    twostate predicate LedOn(new gone: Option<Removal>)
      reads this
    {
      pods == old(pods) && LeaderFollows(old(members), old(leader), gone, members, leader, pods)
    }

    constructor (initial: seq<Member>, pods: seq<Pod>)
      requires UniqueIds(initial)
      ensures Valid() && members == initial && this.pods == pods && open == {} && log == []
    {
      members, leader, alarms, open, peer, nextConn := initial, 0, [], {}, "", 0;
      this.pods := pods;
      log, mon, observer := [], START, Watch;
      asked, tally := Asked([], false), AskedIn;
      WatchIsFaithful();
      AskedInTallies();
    }

    ghost method Record(e: Event)
      requires Faithful(observer) && mon == observer(log) && Tallies(tally) && asked == tally(log)
      modifies this`log, this`mon, this`asked
      ensures log == old(log) + [e] && mon == Step(old(mon), e) && mon == observer(log)
      ensures asked == Ask(old(asked), e) && asked == tally(log)
    {
      log, mon, asked := log + [e], Step(mon, e), Ask(asked, e);
    }

    /** The monitor has watched the whole trace. */
    lemma MonitorSawEverything()
      requires Valid()
      ensures mon == Watch(log) && asked == AskedIn(log)
    {
      FaithfulIsWatch(observer, log);
      TallyIsAskedIn(tally, log);
    }

    /** The member looked up is not the one last known to lead, nor the one that leads, and nobody was elected since. */
    lemma LeadershipElsewhere(source: Member)
      requires Find(members, source.name) == Some(source) && leader != 0 && leader != source.id
      requires mon.word.looked == Some(Lookup(source.name, Some(source.id))) && mon.word.known == Some(leader)
      requires mon.word.since == mon.elections
      ensures AllClear(source.name)
    {
    }

    /** Members join, under identities that no member has. */
    method Join()
      requires Valid()
      modifies this`members, this`log, this`mon, this`asked
      ensures Valid() && Onward()
      ensures mon == Apart(old(mon), mon) && mon.elections == old(mon.elections) && asked == old(asked)
    {
      var newcomers: seq<Member> := *;
      if (forall m | m in newcomers :: m.id !in (set x | x in members :: x.id))
         && (forall i, j | 0 <= i < j < |newcomers| :: newcomers[i].id != newcomers[j].id) {
        ghost var was := members;
        members := members + newcomers;
        if leader != 0 {
          ghost var l :| l in was && l.id == leader;
          assert l in members;
        }
        Record(Joined(newcomers));
      }
    }

    /** The identity of a member that is up, or 0. */
    method SomeoneUp() returns (id: nat)
      ensures if Electable(members, pods) then id != 0 && LeaderUp(members, id, pods) else id == 0
      ensures id != 0 ==> HasId(members, id)
    {
      var ids := set m | m in members && m.id != 0 && exists p | p in pods :: Usable(p) && p.node == m.name :: m.id;
      if ids == {} {
        assert forall m | m in members && Up(m, pods) :: m.id in ids;
        return 0;
      }
      id :| id in ids;
      var m :| m in members && m.id == id && m.id != 0 && exists p | p in pods :: Usable(p) && p.node == m.name;
      assert Up(m, pods);
    }

    /** A leader is elected or lost; while things are calm, only elected where there is none. */
    method Elect(calm: bool)
      requires Valid()
      modifies this`leader, this`log, this`mon, this`asked
      ensures Valid() && Onward() && mon == Apart(old(mon), mon) && asked == old(asked)
      ensures Drifted(old(mon.elections), old(leader), mon.elections, leader)
      ensures calm ==> Calm()
    {
      if calm && leader != 0 { return; }
      var elected: nat := *;
      if calm {
        elected := SomeoneUp();
        if elected == 0 { return; }
      }
      if elected != leader && (elected == 0 || elected in set m | m in members :: m.id) {
        leader := elected;
        Record(Election(elected));
      }
    }

    /** Everyone else: members join, a leader is elected or lost, alarms and pods come and go. Nobody removes members. */
    method Environment(calm: bool)
      requires Valid()
      modifies this`members, this`leader, this`alarms, this`pods, this`log, this`mon, this`asked
      ensures Valid() && Onward() && mon == Apart(old(mon), mon) && asked == old(asked)
      ensures Drifted(old(mon.elections), old(leader), mon.elections, leader)
      ensures calm ==> Calm()
    {
      if !calm {
        Join();
        alarms := *;
        pods := *;
      }
      Elect(calm);
    }

    /** Opens a connection to a usable pod, the target node's if one is named. */
    method Connect(exclude: string, target: string, calm: bool) returns (c: Option<nat>)
      requires Valid() && open == {}
      modifies this
      ensures Valid() && Onward() && open == (if c.Some? then {c.value} else {})
      ensures mon.word == old(mon.word) && asked == old(asked) && Drifted(old(mon.elections), old(leader), mon.elections, leader)
      ensures c.Some? && target != "" ==> peer == target
      ensures c.Some? ==> && mon.pick == Pick(peer, NodesUp(pods)) && peer in NodesUp(pods) && nextConn == old(nextConn) + 1
                          && (target == "" && peer == exclude ==> NodesUp(pods) == {exclude})
      ensures c.None? ==> mon.pick == old(mon.pick) && nextConn == old(nextConn)
      ensures calm ==> Calm() && (c.None? ==> forall p | p in pods && Usable(p) :: target != "" && p.node != target)
    {
      Environment(calm);
      var pod := SelectRunningEtcdPod(pods, exclude, target);
      if pod.None? { return None; }
      var reachable: bool := *;
      if !reachable && !calm { return None; }
      c := Some(nextConn);
      Record(Opened(nextConn, Pick(pod.value.node, NodesUp(pods))));
      open := {nextConn};
      peer := pod.value.node;
      nextConn := nextConn + 1;
    }

    /** Releases the connection the first time it is called and does nothing afterwards. */
    method Close(c: nat)
      requires Valid()
      modifies this`open, this`log, this`mon, this`asked
      ensures Valid() && open == old(open) - {c} && mon.word == old(mon.word) && mon.elections == old(mon.elections)
      ensures asked == old(asked) && mon.pick == old(mon.pick) && mon.status == old(mon.status)
      ensures log == if c in old(open) then old(log) + [Closed(c)] else old(log)
    {
      if c in open {
        Record(Closed(c));
        open := open - {c};
      }
    }

    method MemberList(c: nat, calm: bool) returns (r: Option<seq<Member>>)
      requires Valid() && open == {c}
      modifies this`members, this`leader, this`alarms, this`pods, this`log, this`mon, this`asked
      ensures Valid() && Onward() && asked == old(asked)
      ensures Drifted(old(mon.elections), old(leader), mon.elections, leader)
      ensures r.None? ==> mon == Apart(old(mon), mon)
      ensures r.Some? ==> r.value == members && mon == Apart(Step(old(mon), Listed(c, members)), mon)
      ensures calm ==> Calm() && r.Some?
    {
      Environment(calm);
      var answered: bool := *;
      if !answered && !calm { return None; }
      Record(Listed(c, members));
      r := Some(members);
    }

    method AlarmList(c: nat, calm: bool) returns (r: Option<seq<Alarm>>)
      requires Valid() && open == {c}
      modifies this`members, this`leader, this`alarms, this`pods, this`log, this`mon, this`asked
      ensures Valid() && Onward() && asked == old(asked)
      ensures Drifted(old(mon.elections), old(leader), mon.elections, leader)
      ensures r.None? ==> mon == Apart(old(mon), mon)
      ensures r.Some? ==> r.value == alarms && mon == Apart(Step(old(mon), AlarmsRead(c, r.value)), mon)
      ensures calm ==> Calm() && r.Some?
    {
      Environment(calm);
      var answered: bool := *;
      if !answered && !calm { return None; }
      Record(AlarmsRead(c, alarms));
      r := Some(alarms);
    }

    /** Notes what a look-up in the last list found. */
    ghost method Note(name: string)
      requires Valid() && mon.list.Some?
      modifies this`log, this`mon, this`asked
      ensures Valid() && old(log) <= log && asked == old(asked)
      ensures mon == Step(old(mon), LookedUp(Lookup(name, IdOf(Find(old(mon.list.value), name)))))
    {
      Record(LookedUp(Lookup(name, IdOf(Find(mon.list.value, name)))));
    }

    /**
     * A status reply reports the leader of that moment. Who answers is open, except that while things are calm it
     * is the member of the node that the connection leads to.
     */
    method GetStatus(c: nat, calm: bool) returns (r: Option<Status>)
      requires Valid() && open == {c}
      modifies this`members, this`leader, this`alarms, this`pods, this`log, this`mon, this`asked
      ensures Valid() && Onward()
      ensures Drifted(old(mon.elections), old(leader), mon.elections, leader)
      ensures asked == old(asked).(owed := false)
      ensures r.None? ==> mon == Apart(old(mon), mon)
      ensures r.Some? ==> && r.value.leader == leader
                          && mon == Apart(old(mon), mon).(status := r, word := mon.word)
                          && mon.word == Word(old(mon.word.looked), Some(leader), mon.events - 1, mon.elections)
                          && mon.word.at >= |old(log)|
      ensures calm ==> Calm() && r.Some? && r.value.header == IdOf(Find(members, peer))
    {
      Environment(calm);
      Record(StatusAsked(c));
      var answered: bool := *;
      if !answered && !calm { return None; }
      var header: Option<nat> := *;
      if calm { header := IdOf(Find(members, peer)); }
      var s := Status(header, leader);
      Record(StatusRead(c, s));
      r := Some(s);
    }

    /** Asks the connected member to hand leadership to `target`. */
    method MoveLeader(c: nat, source: string, ghost to: string, target: nat, calm: bool) returns (r: MoveOutcome)
      requires Valid() && open == {c} && Step(mon, MoveSent(c, source, to, target)).fine
      modifies this`members, this`leader, this`alarms, this`pods, this`log, this`mon, this`asked
      ensures Valid() && Onward()
      ensures asked == Asked(old(asked).moves + [Move(source, to)], r.NotLeader? || old(asked).owed)
      ensures !r.LeaderMoved? ==> mon == Apart(old(mon), mon)
      ensures r.LeaderMoved? ==> && leader == target
                                 && mon.word == Word(old(mon.word.looked), Some(target), mon.events - 1, mon.elections)
                                 && mon.word.at >= |old(log)|
      ensures calm ==> Steady() && (HasId(members, target) ==> r.LeaderMoved?)
      ensures calm && !r.LeaderMoved? ==> Calm()
      ensures calm && old(LeaderUp(members, leader, pods)) && old(LeaderUp(members, target, pods)) ==> LeaderUp(members, leader, pods)
    {
      Environment(calm);
      Record(MoveSent(c, source, to, target));
      var refused: bool := *;
      if (refused && !calm) || target !in (set m | m in members :: m.id) { return MoveFailed; }
      var stale: bool := *;
      if stale && !calm {
        Record(NotTheLeader(c));
        return NotLeader;
      }
      leader := target;
      Record(Moved(target));
      r := LeaderMoved;
    }

    /** The member leaves; if it led, nobody leads. */
    method Depart(id: nat) returns (ghost gone: Removal)
      requires Sane() && HasId(members, id)
      modifies this`members, this`leader
      ensures Sane() && gone.before == old(members) && gone.member.id == id && Departed(gone, members)
      ensures gone.led <==> old(leader) != 0 && old(leader) == id
      ensures leader == if old(leader) == id then 0 else old(leader)
      ensures old(LeaderUp(members, leader, pods)) ==> LeaderUp(members, leader, pods)
    {
      ghost var m :| m in members && m.id == id;
      gone := Removal(m, members, leader != 0 && leader == id);
      WithoutOne(members, id);
      members := Without(members, id);
      if leader == id {
        leader := 0;
      } else if leader != 0 {
        ghost var l :| l in gone.before && l.id == leader;
        assert l in members;
        if LeaderUp(gone.before, leader, pods) { LeaderIsThatMember(gone.before, leader, pods, l); }
      }
    }

    /** Removes a member. The reply can be lost after the removal took effect. */
    method MemberRemove(c: nat, id: nat, calm: bool) returns (r: Outcome, ghost gone: Option<Removal>)
      requires Valid() && open == {c} && Step(mon, RemoveSent(c, id)).fine
      modifies this`members, this`leader, this`alarms, this`pods, this`log, this`mon, this`asked
      ensures Valid() && old(log) <= log && mon == Apart(old(mon), mon) && mon.elections >= old(mon.elections)
      ensures asked == old(asked)
      ensures gone.None? ==> old(members) <= members && r == Err
      ensures gone.Some? ==> old(members) <= gone.value.before && gone.value.member.id == id
                             && Departed(gone.value, members)
      ensures gone.Some? && gone.value.led ==> id != 0 && (old(leader) == id || mon.elections > old(mon.elections))
      ensures calm ==> alarms == old(alarms) && pods == old(pods) && Alone(old(members), gone, members)
      ensures calm && HasId(old(members), id) ==> r.Ok? && gone.Some?
      ensures calm ==> LedOn(gone)
    {
      Environment(calm);
      Record(RemoveSent(c, id));
      assert calm ==> LedOn(None);
      var refused: bool := *;
      if (refused && !calm) || id !in (set m | m in members :: m.id) { return Err, None; }
      ghost var left := Depart(id);
      gone := Some(left);
      var lost: bool := *;
      r := if lost && !calm then Err else Ok;
    }
  }

  // ---------------------------------------------------------------- the client's operations

  /** What a removal leaves behind: the same members without exactly one. */
  ghost predicate Departed(gone: Removal, after: seq<Member>) {
    && UniqueIds(gone.before) && gone.member in gone.before
    && after == Without(gone.before, gone.member.id) && |after| == |gone.before| - 1
  }

  /** Everything an operation may do to the member list: members join, and at most one leaves, never the last. */
  ghost predicate Effect(before: seq<Member>, gone: Option<Removal>, after: seq<Member>) {
    match gone
    case None => before <= after
    case Some(g) => before <= g.before && Departed(g, after) && (before != [] ==> after != [])
  }

  /** Nobody joined while the operation ran. */
  ghost predicate Alone(before: seq<Member>, gone: Option<Removal>, after: seq<Member>) {
    if gone.Some? then gone.value.before == before else after == before
  }

  method FindEtcdMember(ms: seq<Member>, name: string) returns (r: Option<Member>)
    ensures r == Find(ms, name)
  {
    for i := 0 to |ms|
      invariant Find(ms, name) == Find(ms[i..], name)
    {
      if ms[i].name == name { return Some(ms[i]); }
    }
    r := None;
  }

  method HasCorruptAlarm(alarms: seq<Alarm>) returns (r: bool)
    ensures r <==> Corrupt in alarms
  {
    for i := 0 to |alarms|
      invariant Corrupt !in alarms[..i]
    {
      if alarms[i].Corrupt? { return true; }
    }
    r := false;
  }

  datatype Pod = Pod(name: string, node: string, running: bool, deleting: bool, ready: bool)

  predicate Usable(p: Pod) { p.running && !p.deleting && p.ready }

  ghost function NodesUp(pods: seq<Pod>): set<string> { set p | p in pods && Usable(p) :: p.node }

  /** The node of this name was picked only where no other had a usable pod. */
  ghost predicate Avoids(pick: Pick, name: string) {
    pick.node in pick.nodes && (pick.node == name ==> pick.nodes == {name})
  }

  ghost predicate HasPod(pods: seq<Pod>) { exists p :: p in pods && Usable(p) }

  ghost predicate HasPodOn(pods: seq<Pod>, node: string) { exists p :: p in pods && Usable(p) && p.node == node }

  /** The pod to talk to: exactly the target node's when one is asked for, else preferably not the excluded node's. */
  method SelectRunningEtcdPod(pods: seq<Pod>, exclude: string, target: string) returns (r: Option<Pod>)
    ensures r.Some? ==> r.value in pods && r.value.running && !r.value.deleting && r.value.ready
    ensures target != "" ==> (r.Some? ==> r.value.node == target)
    ensures target != "" && r.None? ==> forall p | p in pods && Usable(p) :: p.node != target
    ensures target == "" && r.None? ==> forall p | p in pods :: !Usable(p)
    ensures target == "" && r.Some? && r.value.node == exclude ==> forall p | p in pods && Usable(p) :: p.node == exclude
  {
    var fallback: Option<Pod> := None;
    for i := 0 to |pods|
      invariant fallback.Some? ==> fallback.value in pods && Usable(fallback.value) && fallback.value.node == exclude
      invariant target != "" ==> fallback.None? && forall p | p in pods[..i] && Usable(p) :: p.node != target
      invariant target == "" ==> forall p | p in pods[..i] && Usable(p) :: p.node == exclude && fallback.Some?
    {
      var pod := pods[i];
      if !Usable(pod) { continue; }
      if target != "" {
        if pod.node == target { return Some(pod); }
        continue;
      }
      if pod.node == exclude {
        fallback := Some(pod);
        continue;
      }
      return Some(pod);
    }
    r := fallback;
  }

  /** The member is listed, it is not the only one, and nothing is corrupt. */
  ghost predicate RemovableId(ms: seq<Member>, alarms: seq<Alarm>, id: nat) {
    |ms| != 1 && HasId(ms, id) && Corrupt !in alarms
  }

  /** The name is not listed, or its member is not the only one and nothing is corrupt. */
  ghost predicate RemovableName(ms: seq<Member>, alarms: seq<Alarm>, name: string) {
    Find(ms, name).Some? ==> |ms| != 1 && Corrupt !in alarms
  }

  /** The common tail of both removals: never the last member, never under a CORRUPT alarm. */
  method RemoveUnlessUnsafe(etcd: Cluster, c: nat, list: seq<Member>, id: nat, calm: bool)
    returns (r: Outcome, ghost gone: Option<Removal>)
    requires etcd.Valid() && etcd.open == {c} && etcd.mon.list == Some(list) && list == etcd.members
    modifies etcd`members, etcd`leader, etcd`alarms, etcd`pods, etcd`log, etcd`mon, etcd`asked
    ensures etcd.Valid() && old(etcd.log) <= etcd.log
    ensures etcd.mon.word == old(etcd.mon.word) && etcd.asked.moves == old(etcd.asked).moves && etcd.mon.elections >= old(etcd.mon.elections)
    ensures etcd.mon.pick == old(etcd.mon.pick)
    ensures Effect(old(etcd.members), gone, etcd.members)
    ensures gone.Some? ==> gone.value.member.id == id
    ensures gone.Some? && gone.value.led ==>
              id != 0 && (old(etcd.leader) == id || etcd.mon.elections > old(etcd.mon.elections))
    ensures r.Ok? ==> gone.Some?
    ensures calm ==> etcd.alarms == old(etcd.alarms) && etcd.pods == old(etcd.pods) && Alone(old(etcd.members), gone, etcd.members)
    ensures calm && RemovableId(list, old(etcd.alarms), id) ==> r.Ok?
    ensures calm ==> etcd.LedOn(gone)
  {
    if |list| == 1 { return Err, None; }
    var alarms := etcd.AlarmList(c, calm);
    if alarms.None? { return Err, None; }
    var corrupt := HasCorruptAlarm(alarms.value);
    if corrupt { return Err, None; }
    r, gone := etcd.MemberRemove(c, id, calm);
  }

  method RemoveMemberByID(etcd: Cluster, c: nat, id: nat, calm: bool) returns (r: Outcome, ghost gone: Option<Removal>)
    requires etcd.Valid() && etcd.open == {c}
    modifies etcd`members, etcd`leader, etcd`alarms, etcd`pods, etcd`log, etcd`mon, etcd`asked
    ensures etcd.Valid() && old(etcd.log) <= etcd.log
    ensures Effect(old(etcd.members), gone, etcd.members)
    ensures gone.Some? ==> gone.value.member.id == id
    ensures r.Ok? ==> gone.Some?
    ensures calm ==> etcd.alarms == old(etcd.alarms) && etcd.pods == old(etcd.pods) && Alone(old(etcd.members), gone, etcd.members)
    ensures calm && RemovableId(old(etcd.members), old(etcd.alarms), id) ==> r.Ok?
    ensures calm ==> etcd.LedOn(gone)
  {
    var list := etcd.MemberList(c, calm);
    if list.None? { return Err, None; }
    r, gone := RemoveUnlessUnsafe(etcd, c, list.value, id, calm);
  }

  /**
   * Removes the first member with this name. Finding none is success. When what is removed led at that
   * moment although the last word had cleared it, an election happened since that word.
   */
  method RemoveMemberByName(etcd: Cluster, c: nat, name: string, calm: bool) returns (r: Outcome, ghost gone: Option<Removal>)
    requires etcd.Valid() && etcd.open == {c}
    modifies etcd`members, etcd`leader, etcd`alarms, etcd`pods, etcd`log, etcd`mon, etcd`asked
    ensures etcd.Valid() && old(etcd.log) <= etcd.log
    ensures etcd.mon.word == old(etcd.mon.word) && etcd.asked.moves == old(etcd.asked).moves && etcd.mon.pick == old(etcd.mon.pick)
    ensures Effect(old(etcd.members), gone, etcd.members)
    ensures gone.Some? ==> Find(gone.value.before, name) == Some(gone.value.member)
    ensures r.Ok? && gone.None? ==> Find(old(etcd.members), name).None?
    ensures gone.Some? && gone.value.led && old(etcd.AllClear(name)) ==> etcd.mon.elections > etcd.mon.word.since
    ensures calm ==> etcd.alarms == old(etcd.alarms) && etcd.pods == old(etcd.pods) && Alone(old(etcd.members), gone, etcd.members)
    ensures calm && RemovableName(old(etcd.members), old(etcd.alarms), name) ==> r.Ok?
    ensures calm ==> etcd.LedOn(gone)
  {
    var list := etcd.MemberList(c, calm);
    if list.None? { return Err, None; }
    var target := FindEtcdMember(list.value, name);
    FindInExtension(old(etcd.members), list.value, name);
    if target.None? { return Ok, None; }
    assert HasId(list.value, target.value.id);
    r, gone := RemoveUnlessUnsafe(etcd, c, list.value, target.value.id, calm);
    if gone.Some? {
      FindInExtension(list.value, gone.value.before, name);
      SameIdSameMember(gone.value.before, gone.value.member, target.value);
      if gone.value.led && old(etcd.AllClear(name)) && etcd.mon.elections == etcd.mon.word.since {
        StillNotLeading(old(etcd.members), gone.value.before, old(etcd.leader), name);
      }
    }
  }

  lemma SameIdSameMember(ms: seq<Member>, a: Member, b: Member)
    requires UniqueIds(ms) && a in ms && b in ms && a.id == b.id
    ensures a == b
  {
  }

  /** Connects, rather not to the node of this name; a name that was cleared stays so until the next election. */
  method ConnectAvoiding(etcd: Cluster, name: string, calm: bool) returns (c: Option<nat>)
    requires etcd.Valid() && etcd.open == {}
    modifies etcd
    ensures etcd.Valid() && etcd.Onward() && etcd.open == (if c.Some? then {c.value} else {})
    ensures etcd.mon.word == old(etcd.mon.word) && etcd.asked.moves == old(etcd.asked).moves
    ensures old(etcd.AllClear(name)) ==> etcd.AllClear(name)
    ensures if c.Some? then etcd.nextConn == old(etcd.nextConn) + 1 && Avoids(etcd.mon.pick, name)
            else etcd.nextConn == old(etcd.nextConn) && etcd.mon.pick == old(etcd.mon.pick)
    ensures calm ==> etcd.Calm() && (HasPod(old(etcd.pods)) ==> c.Some?)
  {
    c := etcd.Connect(name, "", calm);
    FindInExtension(old(etcd.members), etcd.members, name);
    if old(etcd.AllClear(name)) && etcd.mon.elections == etcd.mon.word.since {
      StillNotLeading(old(etcd.members), etcd.members, old(etcd.leader), name);
    }
  }

  method RemoveEtcdMember(etcd: Cluster, name: string, calm: bool) returns (r: Outcome, ghost gone: Option<Removal>)
    requires etcd.Valid() && etcd.open == {}
    modifies etcd
    ensures etcd.Valid() && etcd.open == {} && old(etcd.log) <= etcd.log
    ensures etcd.mon.word == old(etcd.mon.word) && etcd.asked.moves == old(etcd.asked).moves
    ensures etcd.nextConn <= old(etcd.nextConn) + 1 && (etcd.nextConn > old(etcd.nextConn) ==> Avoids(etcd.mon.pick, name))
    ensures Effect(old(etcd.members), gone, etcd.members)
    ensures gone.Some? ==> Find(gone.value.before, name) == Some(gone.value.member)
    ensures r.Ok? && gone.None? ==> Find(old(etcd.members), name).None?
    ensures gone.Some? && gone.value.led && old(etcd.AllClear(name)) ==> etcd.mon.elections > etcd.mon.word.since
    ensures calm ==> etcd.alarms == old(etcd.alarms) && etcd.pods == old(etcd.pods) && Alone(old(etcd.members), gone, etcd.members)
    ensures calm && HasPod(old(etcd.pods)) && RemovableName(old(etcd.members), old(etcd.alarms), name) ==> r.Ok?
    ensures calm ==> etcd.LedOn(gone)
  {
    var conn := ConnectAvoiding(etcd, name, calm);
    if conn.None? { return Err, None; }
    FindInExtension(old(etcd.members), etcd.members, name);
    r, gone := RemoveMemberByName(etcd, conn.value, name, calm);
    etcd.Close(conn.value);
  }

  method RemoveEtcdMemberByID(etcd: Cluster, id: nat, calm: bool) returns (r: Outcome, ghost gone: Option<Removal>)
    requires etcd.Valid() && etcd.open == {}
    modifies etcd
    ensures etcd.Valid() && etcd.open == {} && old(etcd.log) <= etcd.log
    ensures Effect(old(etcd.members), gone, etcd.members)
    ensures gone.Some? ==> gone.value.member.id == id
    ensures r.Ok? ==> gone.Some?
    ensures calm ==> etcd.alarms == old(etcd.alarms) && etcd.pods == old(etcd.pods) && Alone(old(etcd.members), gone, etcd.members)
    ensures calm && HasPod(old(etcd.pods)) && RemovableId(old(etcd.members), old(etcd.alarms), id) ==> r.Ok?
    ensures calm ==> etcd.LedOn(gone)
  {
    var conn := etcd.Connect("", "", calm);
    if conn.None? { return Err, None; }
    r, gone := RemoveMemberByID(etcd, conn.value, id, calm);
    etcd.Close(conn.value);
  }

  method ListEtcdMembers(etcd: Cluster, calm: bool) returns (r: Option<seq<Member>>)
    requires etcd.Valid() && etcd.open == {}
    modifies etcd
    ensures etcd.Valid() && etcd.open == {} && etcd.Onward()
    ensures r.Some? ==> r.value == etcd.members
    ensures calm ==> etcd.Steady() && (HasPod(old(etcd.pods)) ==> r.Some?)
    ensures calm ==> etcd.LedOn(None)
  {
    var conn := etcd.Connect("", "", calm);
    if conn.None? { return None; }
    r := etcd.MemberList(conn.value, calm);
    etcd.Close(conn.value);
  }

  /** Looks the source up in a fresh list and, if it is there, reads the status over the same connection. */
  method Inspect(etcd: Cluster, c: nat, from: string, calm: bool)
    returns (r: Outcome, list: seq<Member>, source: Option<Member>, status: Status)
    requires etcd.Valid() && etcd.open == {c}
    modifies etcd`members, etcd`leader, etcd`alarms, etcd`pods, etcd`log, etcd`mon, etcd`asked
    ensures etcd.Valid() && etcd.Onward()
    ensures r.Ok? ==> && etcd.mon.list == Some(list) && list <= etcd.members && source == Find(list, from)
                      && etcd.mon.word.looked == Some(Lookup(from, IdOf(source)))
                      && etcd.mon.word.since == etcd.mon.elections && etcd.mon.word.at >= |old(etcd.log)|
                      && (source.None? ==> etcd.mon.word.known.None? && NotLeading(etcd.members, etcd.leader, from))
                      && (source.Some? ==> etcd.mon.status == Some(status) && status.leader == etcd.leader
                                           && etcd.mon.word.known == Some(status.leader)
                                           && Find(etcd.members, from) == source)
    ensures r.Err? ==> !(etcd.mon.word.at >= |old(etcd.log)| && Cleared(etcd.mon, from))
    ensures etcd.mon.word == old(etcd.mon.word) || etcd.mon.word.at >= |old(etcd.log)|
    ensures !old(etcd.asked).owed ==> !etcd.asked.owed
    ensures calm ==> && r.Ok? && etcd.Calm() && list == etcd.members
                     && (source.Some? ==> status.header == IdOf(Find(etcd.members, etcd.peer)))
    ensures etcd.asked.moves == old(etcd.asked).moves
  {
    list, source, status := [], None, Status(None, 0);
    var listed := etcd.MemberList(c, calm);
    if listed.None? { return Err, list, source, status; }
    list := listed.value;
    source := FindEtcdMember(list, from);
    etcd.Note(from);
    if source.None? { return Ok, list, source, status; }
    var answer := etcd.GetStatus(c, calm);
    if answer.None? { return Err, list, source, status; }
    FindInExtension(list, etcd.members, from);
    r, status := Ok, answer.value;
  }

  /** No move was asked for, or this one once. */
  ghost predicate AtMostMoved(before: seq<Move>, after: seq<Move>, move: Move) {
    after == before || after == before + [move]
  }

  /** The source is not the first member of the target's name, and that one may lead. */
  ghost predicate MayTakeOver(ms: seq<Member>, source: Member, to: string) {
    var t := Find(ms, to);
    t.Some? && t.value.id != 0 && t.value.id != source.id && !t.value.learner
  }

  /** Hands leadership from the source, which just said it leads, to the named member. */
  method TransferTo(etcd: Cluster, c: nat, list: seq<Member>, source: Member, to: string, calm: bool) returns (r: Outcome)
    requires etcd.Valid() && etcd.open == {c} && etcd.mon.list == Some(list) && list <= etcd.members
    requires Find(list, source.name) == Some(source) && source.id != 0 && (source.name != "" ==> etcd.peer == source.name)
    requires etcd.mon.status == Some(Status(Some(source.id), source.id))
    requires etcd.mon.word.looked == Some(Lookup(source.name, Some(source.id)))
    modifies etcd`members, etcd`leader, etcd`alarms, etcd`pods, etcd`log, etcd`mon, etcd`asked
    ensures etcd.Valid() && etcd.Onward()
    ensures r.Ok? ==> etcd.AllClear(source.name) && etcd.mon.word.at >= |old(etcd.log)|
    ensures etcd.mon.word.at >= |old(etcd.log)| && Cleared(etcd.mon, source.name) ==> r.Ok?
    ensures etcd.mon.word == old(etcd.mon.word) || etcd.mon.word.at >= |old(etcd.log)|
    ensures !old(etcd.asked).owed ==> !etcd.asked.owed
    ensures calm ==> etcd.Steady()
    ensures calm && MayTakeOver(list, source, to) ==> r.Ok?
    ensures calm && old(LeaderUp(etcd.members, etcd.leader, etcd.pods)) && old(TargetUp(etcd.members, etcd.pods, to)) ==>
              LeaderUp(etcd.members, etcd.leader, etcd.pods)
    ensures AtMostMoved(old(etcd.asked).moves, etcd.asked.moves, Move(source.name, to))
  {
    var target := FindEtcdMember(list, to);
    if target.None? || target.value.id == 0 || target.value.id == source.id || target.value.learner {
      return Err;
    }
    assert target.value in list;
    assert HasId(etcd.members, target.value.id);
    FindInExtension(list, etcd.members, to);
    r := MoveTo(etcd, c, list, source, to, target.value.id, calm);
  }

  /** The move itself, with a second look when the source says it no longer leads. */
  method MoveTo(etcd: Cluster, c: nat, list: seq<Member>, source: Member, ghost to: string, target: nat, calm: bool) returns (r: Outcome)
    requires etcd.Valid() && etcd.open == {c} && etcd.mon.list == Some(list) && list <= etcd.members
    requires Find(list, source.name) == Some(source) && (source.name != "" ==> etcd.peer == source.name)
    requires etcd.mon.status.Some? && MoveAllowed(list, etcd.mon.status.value, source.name, to, target)
    requires Find(etcd.members, to).Some? && Find(etcd.members, to).value.id == target
    requires etcd.mon.word.looked == Some(Lookup(source.name, Some(source.id)))
    modifies etcd`members, etcd`leader, etcd`alarms, etcd`pods, etcd`log, etcd`mon, etcd`asked
    ensures etcd.Valid() && etcd.Onward()
    ensures r.Ok? ==> etcd.AllClear(source.name) && etcd.mon.word.at >= |old(etcd.log)|
    ensures etcd.mon.word.at >= |old(etcd.log)| && Cleared(etcd.mon, source.name) ==> r.Ok?
    ensures etcd.mon.word == old(etcd.mon.word) || etcd.mon.word.at >= |old(etcd.log)|
    ensures !old(etcd.asked).owed ==> !etcd.asked.owed
    ensures calm ==> etcd.Steady() && (HasId(old(etcd.members), target) ==> r.Ok?)
    ensures calm && old(LeaderUp(etcd.members, etcd.leader, etcd.pods)) && old(TargetUp(etcd.members, etcd.pods, to)) ==>
              LeaderUp(etcd.members, etcd.leader, etcd.pods)
    ensures AtMostMoved(old(etcd.asked).moves, etcd.asked.moves, Move(source.name, to))
  {
    FindInExtension(list, etcd.members, source.name);
    assert Find(etcd.members, to).value in etcd.members;
    var moved := etcd.MoveLeader(c, source.name, to, target, calm);
    FindInExtension(list, etcd.members, source.name);
    if moved.LeaderMoved? {
      etcd.LeadershipElsewhere(source);
      return Ok;
    }
    r := NotMoved(etcd, c, source, moved, calm);
  }

  /** The source refused: only "not leader" is worth a second look. */
  method NotMoved(etcd: Cluster, c: nat, source: Member, moved: MoveOutcome, calm: bool) returns (r: Outcome)
    requires etcd.Valid() && etcd.open == {c} && Find(etcd.members, source.name) == Some(source)
    requires etcd.mon.word.looked == Some(Lookup(source.name, Some(source.id)))
    modifies etcd`members, etcd`leader, etcd`alarms, etcd`pods, etcd`log, etcd`mon, etcd`asked
    ensures etcd.Valid() && etcd.Onward()
    ensures r.Ok? ==> etcd.AllClear(source.name) && etcd.mon.word.at >= |old(etcd.log)|
    ensures moved.NotLeader? && etcd.mon.word.at >= |old(etcd.log)| && Cleared(etcd.mon, source.name) ==> r.Ok?
    ensures moved.MoveFailed? ==> etcd.mon.word == old(etcd.mon.word)
    ensures moved.NotLeader? ==> !etcd.asked.owed
    ensures etcd.mon.word == old(etcd.mon.word) || etcd.mon.word.at >= |old(etcd.log)|
    ensures !old(etcd.asked).owed ==> !etcd.asked.owed
    ensures etcd.asked.moves == old(etcd.asked).moves
    ensures calm ==> etcd.Steady() && (old(LeaderUp(etcd.members, etcd.leader, etcd.pods)) ==> LeaderUp(etcd.members, etcd.leader, etcd.pods))
  {
    if moved.MoveFailed? { return Err; }
    r := RecheckLeader(etcd, c, source, calm);
  }

  /** After "not leader": one more status decides. */
  method RecheckLeader(etcd: Cluster, c: nat, source: Member, calm: bool) returns (r: Outcome)
    requires etcd.Valid() && etcd.open == {c} && Find(etcd.members, source.name) == Some(source)
    requires etcd.mon.word.looked == Some(Lookup(source.name, Some(source.id)))
    modifies etcd`members, etcd`leader, etcd`alarms, etcd`pods, etcd`log, etcd`mon, etcd`asked
    ensures etcd.Valid() && etcd.Onward()
    ensures r.Ok? ==> etcd.AllClear(source.name) && etcd.mon.word.at >= |old(etcd.log)|
    ensures etcd.asked.moves == old(etcd.asked).moves && (calm ==> etcd.Calm())
    ensures etcd.mon.word.at >= |old(etcd.log)| && Cleared(etcd.mon, source.name) ==> r.Ok?
    ensures etcd.mon.word == old(etcd.mon.word) || etcd.mon.word.at >= |old(etcd.log)|
    ensures !etcd.asked.owed
  {
    var again := etcd.GetStatus(c, calm);
    if again.None? { return Err; }
    FindInExtension(old(etcd.members), etcd.members, source.name);
    if again.value.leader != 0 && again.value.leader != source.id { return Ok; }
    r := Err;
  }

  /** The member of the name, if there is one, is up. */
  ghost predicate TargetUp(ms: seq<Member>, pods: seq<Pod>, to: string) {
    Find(ms, to).Some? ==> Up(Find(ms, to).value, pods)
  }

  /** The source is a member of a known node, and its successor may lead. */
  ghost predicate ReadyToMove(ms: seq<Member>, from: string, to: string) {
    var source := Find(ms, from);
    from != "" && source.Some? && source.value.id != 0 && MayTakeOver(ms, source.value, to)
  }

  /** The last status came from somebody else than the member looked up, or that has no identity. */
  ghost predicate Mistaken(m: Monitor) {
    && m.word.looked.Some? && m.word.looked.value.id.Some?
    && (m.word.looked.value.id == Some(0) || (m.status.Some? && m.status.value.header != m.word.looked.value.id))
  }

  /** Not a success although this call's last word clears the source: only on account of who gave it. */
  twostate predicate RefusedRightly(etcd: Cluster, from: string, r: Outcome)
    reads etcd
  {
    r.Err? && etcd.mon.word.at >= |old(etcd.log)| && Cleared(etcd.mon, from) ==> Mistaken(etcd.mon)
  }

  /** The second half of the protocol, over a connection to the source member itself. */
  method MoveLeadershipFromSource(etcd: Cluster, c: nat, from: string, to: string, calm: bool) returns (r: Outcome)
    requires etcd.Valid() && etcd.open == {c} && (from != "" ==> etcd.peer == from)
    modifies etcd`members, etcd`leader, etcd`alarms, etcd`pods, etcd`log, etcd`mon, etcd`asked
    ensures etcd.Valid() && etcd.Onward()
    ensures r.Ok? ==> etcd.AllClear(from) && etcd.mon.word.at >= |old(etcd.log)|
    ensures RefusedRightly(etcd, from, r)
    ensures etcd.mon.word == old(etcd.mon.word) || etcd.mon.word.at >= |old(etcd.log)|
    ensures !old(etcd.asked).owed ==> !etcd.asked.owed
    ensures calm ==> etcd.Steady()
    ensures calm && old(etcd.leader) != 0 && ReadyToMove(old(etcd.members), from, to) ==> r.Ok?
    ensures calm && old(LeaderUp(etcd.members, etcd.leader, etcd.pods)) && old(TargetUp(etcd.members, etcd.pods, to)) ==>
              LeaderUp(etcd.members, etcd.leader, etcd.pods)
    ensures AtMostMoved(old(etcd.asked).moves, etcd.asked.moves, Move(from, to))
  {
    var seen, list, source, status := Inspect(etcd, c, from, calm);
    if seen.Err? { return Err; }
    if source.None? { return Ok; }
    if source.value.id == 0 || status.header.None? || status.header.value == 0
       || status.header.value != source.value.id { return Err; }
    if status.leader == 0 { return Err; }
    if status.leader != source.value.id { return Ok; }
    r := TransferTo(etcd, c, list, source.value, to, calm);
  }

  /** The source leads, or nobody does and it could be elected. */
  ghost predicate Contends(source: Member, leader: nat, pods: seq<Pod>) {
    (leader == source.id && leader != 0) || (leader == 0 && Up(source, pods))
  }

  /**
   * A pod can be reached, and if the source is a member then somebody leads or can be elected; only where the
   * source itself leads or could be elected must its own pod be reachable and its successor be able to lead.
   */
  ghost predicate CanYield(ms: seq<Member>, leader: nat, pods: seq<Pod>, from: string, to: string) {
    var source := Find(ms, from);
    && HasPod(pods)
    && (source.Some? && leader == 0 ==> Electable(ms, pods))
    && (source.Some? && Contends(source.value, leader, pods) ==> HasPodOn(pods, from) && ReadyToMove(ms, from, to))
  }

  /** Moves leadership off `from` when it leads. */
  method ProtectLeadership(etcd: Cluster, discovery: nat, from: string, to: string, calm: bool) returns (r: Outcome)
    requires etcd.Valid() && etcd.open == {discovery}
    modifies etcd
    ensures etcd.Valid() && etcd.open <= {discovery} && etcd.Onward()
    ensures r.Ok? ==> etcd.AllClear(from) && etcd.mon.word.at >= |old(etcd.log)|
    ensures RefusedRightly(etcd, from, r)
    ensures etcd.mon.word == old(etcd.mon.word) || etcd.mon.word.at >= |old(etcd.log)|
    ensures !old(etcd.asked).owed ==> !etcd.asked.owed
    ensures calm ==> etcd.Steady()
    ensures calm && CanYield(old(etcd.members), old(etcd.leader), old(etcd.pods), from, to) ==> r.Ok?
    ensures calm && old(etcd.leader) != 0 && NotLeading(old(etcd.members), old(etcd.leader), from) ==> etcd.leader == old(etcd.leader)
    ensures calm && old(LeaderUp(etcd.members, etcd.leader, etcd.pods)) && old(TargetUp(etcd.members, etcd.pods, to)) ==>
              LeaderUp(etcd.members, etcd.leader, etcd.pods)
    ensures AtMostMoved(old(etcd.asked).moves, etcd.asked.moves, Move(from, to))
  {
    var seen, list, source, status := Inspect(etcd, discovery, from, calm);
    if seen.Err? { return Err; }
    if source.None? { return Ok; }
    if status.leader == 0 { return Err; }
    if status.leader != source.value.id { return Ok; }
    if calm && old(etcd.leader) == 0 { LeaderIsThatMember(etcd.members, etcd.leader, etcd.pods, source.value); }
    etcd.Close(discovery);
    r := MoveOverSource(etcd, from, to, calm);
  }

  lemma LeaderIsThatMember(ms: seq<Member>, leader: nat, pods: seq<Pod>, m: Member)
    requires UniqueIds(ms) && LeaderUp(ms, leader, pods) && m in ms && m.id == leader && leader != 0
    ensures Up(m, pods)
  {
    var l :| l in ms && l.id == leader && Up(l, pods);
    SameIdSameMember(ms, l, m);
  }

  /** MoveLeader must be sent to the leader, so the source's own pod is connected, and nothing else is open. */
  method MoveOverSource(etcd: Cluster, from: string, to: string, calm: bool) returns (r: Outcome)
    requires etcd.Valid() && etcd.open == {}
    modifies etcd
    ensures etcd.Valid() && etcd.open == {} && etcd.Onward()
    ensures r.Ok? ==> etcd.AllClear(from) && etcd.mon.word.at >= |old(etcd.log)|
    ensures RefusedRightly(etcd, from, r)
    ensures etcd.mon.word == old(etcd.mon.word) || etcd.mon.word.at >= |old(etcd.log)|
    ensures !old(etcd.asked).owed ==> !etcd.asked.owed
    ensures calm ==> etcd.Steady()
    ensures calm && old(etcd.leader) != 0 && HasPodOn(old(etcd.pods), from) && ReadyToMove(old(etcd.members), from, to) ==> r.Ok?
    ensures calm && old(LeaderUp(etcd.members, etcd.leader, etcd.pods)) && old(TargetUp(etcd.members, etcd.pods, to)) ==>
              LeaderUp(etcd.members, etcd.leader, etcd.pods)
    ensures AtMostMoved(old(etcd.asked).moves, etcd.asked.moves, Move(from, to))
  {
    var conn := etcd.Connect("", from, calm);
    if conn.None? { return Err; }
    r := MoveLeadershipFromSource(etcd, conn.value, from, to, calm);
    etcd.Close(conn.value);
  }

  /**
   * Success means the source was absent from a list that was read, or the last leader reported or
   * installed is somebody else; and the source does not lead unless an election came after that reply.
   * While things are calm, a source that does not lead always succeeds, and one that does when its own pod is
   * reachable and its successor may lead. The only move ever asked for is the one to `to`.
   */
  method ProtectEtcdLeadership(etcd: Cluster, from: string, to: string, calm: bool) returns (r: Outcome)
    requires etcd.Valid() && etcd.open == {}
    modifies etcd
    ensures etcd.Valid() && etcd.open == {} && etcd.Onward()
    ensures r.Ok? ==> etcd.AllClear(from) && etcd.mon.word.at >= |old(etcd.log)|
    ensures RefusedRightly(etcd, from, r)
    ensures etcd.mon.word == old(etcd.mon.word) || etcd.mon.word.at >= |old(etcd.log)|
    ensures !old(etcd.asked).owed ==> !etcd.asked.owed
    ensures calm ==> etcd.Steady()
    ensures calm && CanYield(old(etcd.members), old(etcd.leader), old(etcd.pods), from, to) ==> r.Ok?
    ensures calm && old(etcd.leader) != 0 && NotLeading(old(etcd.members), old(etcd.leader), from) ==> etcd.leader == old(etcd.leader)
    ensures calm && old(LeaderUp(etcd.members, etcd.leader, etcd.pods)) && old(TargetUp(etcd.members, etcd.pods, to)) ==>
              LeaderUp(etcd.members, etcd.leader, etcd.pods)
    ensures AtMostMoved(old(etcd.asked).moves, etcd.asked.moves, Move(from, to))
  {
    var conn := etcd.Connect("", "", calm);
    if conn.None? { return Err; }
    r := ProtectLeadership(etcd, conn.value, from, to, calm);
    etcd.Close(conn.value);
  }
}
