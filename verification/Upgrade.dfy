/**
 * The upgrade driver: upgradeWorkloadCluster of the control-plane controller over the ClusterVersion writes
 * of controlplane/internal/upgrade/upgrade.go. Reads within one pass see one ClusterVersion.
 */
module Upgrade {
  import opened Basics
  import opened Orders

  /** An update history entry: completed or partial, and whether it has a completion time. */
  datatype History = History(completed: bool, version: string, ended: bool)

  datatype Condition = Condition(progressing: bool, holds: bool)

  datatype Update = Update(version: string, image: string, force: bool)

  /** `target` is status.desired.version, `desired` is spec.desiredUpdate. */
  datatype ClusterVersion = ClusterVersion(history: seq<History>, conditions: seq<Condition>, target: string,
                                           desired: Option<Update>)

  datatype Reason = Drift | Blocked | InProgress | UpgradeFailed

  /** The UpgradeCompleted condition. */
  datatype Completed = Unset | True | False(reason: Reason)

  datatype Policy = Unspecified | Managed | Unrestricted

  /** What the user asks for and what does not change with it: the parser, GA-ness and the image with its digest. */
  datatype Request = Request(spec: string, policy: Policy, parse: string -> Option<Version>, ga: bool, image: string)

  datatype World = World(cv: ClusterVersion, status: string, completed: Completed)

  // ---------------------------------------------------------------- reading a ClusterVersion

  ghost predicate Busy(cv: ClusterVersion) {
    (exists h :: h in cv.history && !h.completed && !h.ended) || (exists c :: c in cv.conditions && c.progressing && c.holds)
  }

  function Running(history: seq<History>): (r: Option<string>)
    ensures r.None? <==> forall h | h in history :: !h.completed
  {
    if history == [] then None
    else if history[0].completed then Some(history[0].version)
    else Running(history[1..])
  }

  method IsUpdateInProgress(cv: ClusterVersion) returns (r: bool)
    ensures r <==> Busy(cv)
  {
    for i := 0 to |cv.history|
      invariant forall h | h in cv.history[..i] :: h.completed || h.ended
    {
      if !cv.history[i].completed && !cv.history[i].ended { return true; }
    }
    for i := 0 to |cv.conditions|
      invariant forall c | c in cv.conditions[..i] :: !c.progressing || !c.holds
    {
      if cv.conditions[i].progressing && cv.conditions[i].holds { return true; }
    }
    r := false;
  }

  method GetCurrentVersion(cv: ClusterVersion) returns (r: Option<string>)
    ensures r == Running(cv.history)
  {
    for i := 0 to |cv.history|
      invariant Running(cv.history) == Running(cv.history[i..])
    {
      if cv.history[i].completed { return Some(cv.history[i].version); }
    }
    r := None;
  }

  // ---------------------------------------------------------------- comparing versions as the code does

  predicate BothParse(q: Request, running: string) { q.parse(q.spec).Some? && q.parse(running).Some? }

  /** `a` is strictly newer than `b`, when both parse. */
  predicate Newer(q: Request, a: string, b: string) {
    q.parse(a).Some? && q.parse(b).Some? && Compare(q.parse(a).value, q.parse(b).value) == 1
  }

  predicate AtDesired(q: Request, running: string) {
    if BothParse(q, running) then Compare(q.parse(q.spec).value, q.parse(running).value) == 0 else q.spec == running
  }

  // ---------------------------------------------------------------- one pass as a step

  datatype Write = NoWrite | Push(update: Update) | Clear

  /**
   * Which calls of a pass get through: the clients and the progress, the status message, the running version, the
   * target; then, for a write, the ClusterVersion again, the image digest, and the update.
   */
  datatype Luck = Luck(ready: bool, described: bool, version: bool, target: bool, fetched: bool, resolved: bool, stored: bool)

  datatype Pass = Pass(luck: Luck, write: Write)

  /** The update the controller wants, and the code's test of whether it is already asked for. */
  function Wanted(q: Request): Update {
    if q.ga then Update(q.spec, "", false) else Update("", q.image, true)
  }

  predicate AskedFor(q: Request, desired: Option<Update>) {
    desired.Some? && if q.ga then desired.value.version == q.spec else desired.value.image == q.image
  }

  function Written(desired: Option<Update>, w: Write): Option<Update> {
    match w
    case NoWrite => desired
    case Push(u) => Some(u)
    case Clear => None
  }

  /** The pass managed to read the running version. */
  predicate Reads(cv: ClusterVersion, luck: Luck) {
    luck.ready && luck.described && luck.version && Running(cv.history).Some?
  }

  /** Nothing under way, the version neither reached nor asked for yet, and not known to be no upgrade. */
  ghost predicate MayPush(q: Request, cv: ClusterVersion, running: string) {
    && !Busy(cv) && !AtDesired(q, running) && !AskedFor(q, cv.desired)
    && (BothParse(q, running) ==> Newer(q, q.spec, running))
  }

  /** An update under way that is not ours, nor one that ours beats, under a policy that forbids it. */
  ghost predicate Foreign(q: Request, cv: ClusterVersion, running: string) {
    && Busy(cv) && !(cv.target <= q.spec) && !Newer(q, q.spec, running) && !Newer(q, running, q.spec)
    && !q.policy.Unrestricted?
  }

  ghost predicate MayClear(q: Request, cv: ClusterVersion, running: string) {
    Foreign(q, cv, running) && cv.desired.Some?
  }

  predicate PushGetsThrough(q: Request, luck: Luck) {
    luck.target && luck.fetched && (q.ga || luck.resolved) && luck.stored
  }

  predicate ClearGetsThrough(cv: ClusterVersion, luck: Luck) {
    luck.target && luck.fetched && (cv.desired.Some? ==> luck.stored)
  }

  /** What the pass writes: a push or a clear, whenever it may and the calls get through. */
  ghost predicate WritesAsItShould(q: Request, cv: ClusterVersion, p: Pass) {
    var running := Running(cv.history);
    && (p.write.Push? <==> Reads(cv, p.luck) && MayPush(q, cv, running.value) && PushGetsThrough(q, p.luck))
    && (p.write.Push? ==> p.write.update == Wanted(q))
    && (p.write.Clear? <==> Reads(cv, p.luck) && MayClear(q, cv, running.value) && ClearGetsThrough(cv, p.luck))
  }

  /** The condition after a pass that read the running version. */
  ghost predicate Reported(q: Request, cv: ClusterVersion, running: string, luck: Luck, before: Completed, after: Completed) {
    if Newer(q, running, q.spec) then after == False(Drift)
    else if Busy(cv) then
      after == False(if Foreign(q, cv, running) && ClearGetsThrough(cv, luck) then Blocked else InProgress)
    else after == Deferred(q, running, false, before)
  }

  /** The deferred condition write. */
  function Deferred(q: Request, status: string, busy: bool, before: Completed): Completed {
    if busy then False(InProgress)
    else if !AtDesired(q, status) then False(UpgradeFailed)
    else if before.False? then True else before
  }

  ghost predicate PassStep(q: Request, w: World, p: Pass, w': World) {
    && w'.cv == w.cv.(desired := Written(w.cv.desired, p.write))
    && WritesAsItShould(q, w.cv, p)
    && if Reads(w.cv, p.luck)
       then Running(w.cv.history) == Some(w'.status) && Reported(q, w.cv, w'.status, p.luck, w.completed, w'.completed)
       else w'.status == w.status && w'.completed == Deferred(q, w.status, p.luck.ready && Busy(w.cv), w.completed)
  }

  /** After a pass that read the running version the condition is False exactly when something is under way or amiss. */
  lemma ConditionTellsTheTruth(q: Request, w: World, p: Pass, w': World)
    requires PassStep(q, w, p, w') && Reads(w.cv, p.luck)
    ensures w'.completed.False? <==> Busy(w.cv) || Differs(q, Running(w.cv.history).value)
    ensures w'.completed == False(Drift) <==> Ahead(q, Running(w.cv.history).value)
  {
    var running := Running(w.cv.history).value;
    if BothParse(q, running) { CompareMeaning(q.parse(q.spec).value, q.parse(running).value); }
    AheadMeaning(q, running);
  }

  /** Other than wanted: as versions where both parse, as text where they do not. */
  ghost predicate Differs(q: Request, running: string) {
    match (q.parse(q.spec), q.parse(running))
    case (Some(v), Some(w)) => v != w
    case _ => q.spec != running
  }

  /** What runs is a later version than what is wanted. */
  ghost predicate Ahead(q: Request, running: string) {
    match (q.parse(q.spec), q.parse(running))
    case (Some(v), Some(w)) => Precedes(v, w)
    case _ => false
  }

  /** What runs is an earlier version than what is wanted, or the two cannot be compared. */
  ghost predicate MayLag(q: Request, running: string) {
    match (q.parse(q.spec), q.parse(running))
    case (Some(v), Some(w)) => Precedes(w, v)
    case _ => q.spec != running
  }

  lemma AheadMeaning(q: Request, running: string)
    ensures Newer(q, running, q.spec) <==> Ahead(q, running)
  {
    if BothParse(q, running) { CompareMeaning(q.parse(running).value, q.parse(q.spec).value); }
  }

  lemma DiffersMeaning(q: Request, running: string)
    ensures AtDesired(q, running) <==> !Differs(q, running)
  {
    if BothParse(q, running) { CompareMeaning(q.parse(q.spec).value, q.parse(running).value); }
  }

  lemma NewerMeaning(q: Request, running: string)
    requires !AtDesired(q, running) && (BothParse(q, running) ==> Newer(q, q.spec, running))
    ensures MayLag(q, running)
  {
    if BothParse(q, running) { CompareMeaning(q.parse(q.spec).value, q.parse(running).value); }
  }

  /** The code's last test before a push, that the spec is not newer, is never met: what is ahead or reached was handled. */
  lemma LastTestNeverMet(q: Request, running: string)
    requires BothParse(q, running) && !Newer(q, running, q.spec) && !AtDesired(q, running)
    ensures Newer(q, q.spec, running)
  {
    PrecedenceTotal();
    var v, w := q.parse(q.spec).value, q.parse(running).value;
    assert Compare(w, v) == -Compare(v, w) && -1 <= Compare(v, w) <= 1;
  }

  /** Some pass over this world, its calls all getting through, writes. */
  ghost predicate CanWrite(q: Request, w: World) {
    exists p, w' :: PassStep(q, w, p, w') && p.write != NoWrite
  }

  /** That is so exactly when the guard of one of the two writing branches holds. */
  lemma WritePossibleExactlyWhen(q: Request, w: World)
    ensures CanWrite(q, w) <==>
            Running(w.cv.history).Some? &&
              (MayPush(q, w.cv, Running(w.cv.history).value) || MayClear(q, w.cv, Running(w.cv.history).value))
  {
    if Running(w.cv.history).Some? {
      var running := Running(w.cv.history).value;
      if MayPush(q, w.cv, running) || MayClear(q, w.cv, running) {
        var all := Luck(true, true, true, true, true, true, true);
        var p := Pass(all, if MayPush(q, w.cv, running) then Push(Wanted(q)) else Clear);
        var completed := if Newer(q, running, q.spec) then False(Drift)
                         else if Busy(w.cv) then False(if Foreign(q, w.cv, running) then Blocked else InProgress)
                         else Deferred(q, running, false, w.completed);
        var w' := World(w.cv.(desired := Written(w.cv.desired, p.write)), running, completed);
        assert PassStep(q, w, p, w');
      }
    }
  }

  // ---------------------------------------------------------------- runs

  /** A controller pass, or the cluster moving on: everything but spec.desiredUpdate may change. */
  datatype Label = ByController(pass: Pass) | ByCluster

  ghost predicate Step(q: Request, w: World, l: Label, w': World) {
    match l
    case ByController(p) => PassStep(q, w, p, w')
    case ByCluster => w'.cv.desired == w.cv.desired && w'.status == w.status && w'.completed == w.completed
  }

  ghost predicate Run(q: Request, ws: seq<World>, ls: seq<Label>) {
    |ws| == |ls| + 1 && forall i {:trigger ls[i]} | 0 <= i < |ls| :: Step(q, ws[i], ls[i], ws[i + 1])
  }

  ghost predicate Pushes(l: Label) { l.ByController? && l.pass.write.Push? }

  ghost predicate Clears(l: Label) { l.ByController? && l.pass.write.Clear? }

  /** Pushed and not cleared since: the request stands. */
  lemma {:induction false} RequestStands(q: Request, ws: seq<World>, ls: seq<Label>, i: nat, j: nat)
    requires Run(q, ws, ls) && i < j <= |ls| && Pushes(ls[i])
    requires forall k | i < k < j :: !Clears(ls[k])
    ensures AskedFor(q, ws[j].cv.desired)
  {
    assert Step(q, ws[j - 1], ls[j - 1], ws[j]);
    if i < j - 1 {
      RequestStands(q, ws, ls, i, j - 1);
    }
  }

  /** For a fixed request the controller writes the same desiredUpdate again only after clearing it. */
  lemma NoSecondPushWithoutClear(q: Request, ws: seq<World>, ls: seq<Label>, i: nat, j: nat)
    requires Run(q, ws, ls) && i < j < |ls| && Pushes(ls[i]) && Pushes(ls[j])
    ensures exists k :: i < k < j && Clears(ls[k])
  {
    assert Step(q, ws[j], ls[j], ws[j + 1]);
    if forall k | i < k < j :: !Clears(ls[k]) {
      RequestStands(q, ws, ls, i, j);
    }
  }

  /** Every push is an upgrade: strictly newer than what runs, and never while an upgrade is under way. */
  lemma PushesOnlyUpgrades(q: Request, ws: seq<World>, ls: seq<Label>, i: nat)
    requires Run(q, ws, ls) && i < |ls| && Pushes(ls[i])
    ensures Running(ws[i].cv.history).Some? && !Busy(ws[i].cv) && MayLag(q, Running(ws[i].cv.history).value)
    ensures ls[i].pass.write.update == if q.ga then Update(q.spec, "", false) else Update("", q.image, true)
  {
    assert Step(q, ws[i], ls[i], ws[i + 1]);
    NewerMeaning(q, Running(ws[i].cv.history).value);
  }

  /** Only a foreign update under way is ever cleared, never under the Unrestricted policy, and not one that our version beats. */
  lemma ClearsOnlyForeignUpdates(q: Request, ws: seq<World>, ls: seq<Label>, i: nat)
    requires Run(q, ws, ls) && i < |ls| && Clears(ls[i])
    ensures !q.policy.Unrestricted? && Busy(ws[i].cv) && !(ws[i].cv.target <= q.spec) && ws[i].cv.desired.Some?
    ensures Running(ws[i].cv.history).Some? && !Newer(q, q.spec, Running(ws[i].cv.history).value)
    ensures ws[i + 1].cv.desired.None? && ws[i + 1].completed.False?
  {
    assert Step(q, ws[i], ls[i], ws[i + 1]);
  }

  /** Whatever completed last is never older than what had completed before, and it parses. */
  ghost predicate NeverRollsBack(q: Request, ws: seq<World>) {
    && q.parse(q.spec).Some?
    && (forall i | 0 <= i < |ws| :: Running(ws[i].cv.history).Some? ==> q.parse(Running(ws[i].cv.history).value).Some?)
    && (forall i, j | 0 <= i <= j < |ws| && Running(ws[i].cv.history).Some? && Running(ws[j].cv.history).Some? ::
          !Newer(q, Running(ws[i].cv.history).value, Running(ws[j].cv.history).value))
  }

  /** The cluster works towards what it was asked for: a busy cluster that was asked for our update names it. */
  ghost predicate Obeys(q: Request, w: World) {
    AskedFor(q, w.cv.desired) && Busy(w.cv) ==> w.cv.target <= q.spec
  }

  /** Cleared, and nothing written since: nothing is asked for. */
  lemma {:induction false} StaysCleared(q: Request, ws: seq<World>, ls: seq<Label>, i: nat, j: nat)
    requires Run(q, ws, ls) && i < j <= |ls| && Clears(ls[i])
    requires forall k | i < k < j :: !Pushes(ls[k])
    ensures ws[j].cv.desired.None?
  {
    assert Step(q, ws[j - 1], ls[j - 1], ws[j]);
    if i < j - 1 {
      StaysCleared(q, ws, ls, i, j - 1);
    }
  }

  /** What was cleared is never followed by a push: what runs is at least what is wanted, and stays so. */
  lemma NoPushAfterClear(q: Request, ws: seq<World>, ls: seq<Label>, i: nat, j: nat)
    requires Run(q, ws, ls) && i < j < |ls| && Clears(ls[i]) && NeverRollsBack(q, ws)
    ensures !Pushes(ls[j])
  {
    assert Step(q, ws[i], ls[i], ws[i + 1]) && Step(q, ws[j], ls[j], ws[j + 1]);
    PrecedenceTotal();
    assert Compare(q.parse(q.spec).value, q.parse(ws[i + 1].status).value) <= 0;
  }

  ghost predicate Writes(l: Label) { Pushes(l) || Clears(l) }

  /**
   * For a fixed request, while nobody else touches desiredUpdate, versions never roll back and the cluster
   * works towards what it was asked for, the controller writes the ClusterVersion at most once.
   */
  lemma WritesAtMostOnce(q: Request, ws: seq<World>, ls: seq<Label>, i: nat, j: nat)
    requires Run(q, ws, ls) && NeverRollsBack(q, ws) && (forall w | w in ws :: Obeys(q, w))
    requires i < j < |ls| && Writes(ls[i])
    ensures !Writes(ls[j])
  {
    if Writes(ls[j]) {
      var n := FirstWriteAfter(ls, i, j);
      assert Step(q, ws[n], ls[n], ws[n + 1]);
      assert ws[n] in ws;
      if Pushes(ls[i]) {
        RequestStands(q, ws, ls, i, n);
      } else {
        NoPushAfterClear(q, ws, ls, i, n);
        StaysCleared(q, ws, ls, i, n);
      }
    }
  }

  // ---------------------------------------------------------------- exactly when at most one write

  /** Under the Unrestricted policy the controller writes at most once, whatever the cluster does. */
  lemma UnrestrictedWritesOnce(q: Request, ws: seq<World>, ls: seq<Label>, i: nat, j: nat)
    requires Run(q, ws, ls) && q.policy.Unrestricted? && i < j < |ls| && Writes(ls[i])
    ensures !Writes(ls[j])
  {
    forall k | 0 <= k < |ls| ensures !Clears(ls[k]) { assert Step(q, ws[k], ls[k], ws[k + 1]); }
    if Pushes(ls[j]) { NoSecondPushWithoutClear(q, ws, ls, i, j); }
  }

  /** After a write, until the next one, a pass can write exactly when the guard of the other branch holds. */
  lemma NextWriteExactlyWhen(q: Request, ws: seq<World>, ls: seq<Label>, i: nat, j: nat)
    requires Run(q, ws, ls) && i < j <= |ls| && Writes(ls[i]) && forall k | i < k < j :: !Writes(ls[k])
    ensures CanWrite(q, ws[j]) <==>
            Running(ws[j].cv.history).Some? &&
              if Pushes(ls[i]) then MayClear(q, ws[j].cv, Running(ws[j].cv.history).value)
              else MayPush(q, ws[j].cv, Running(ws[j].cv.history).value)
  {
    WritePossibleExactlyWhen(q, ws[j]);
    if Pushes(ls[i]) { RequestStands(q, ws, ls, i, j); } else { StaysCleared(q, ws, ls, i, j); }
  }

  /** A running version from which the wanted one would be pushed. */
  ghost predicate PushableFrom(q: Request, running: string) {
    !AtDesired(q, running) && (BothParse(q, running) ==> Newer(q, q.spec, running))
  }

  /** A cluster that runs `running` and is asked for nothing; and one that has reached the spec and left for another version. */
  function Waiting(running: string): ClusterVersion {
    ClusterVersion([History(true, running, true)], [], running, None)
  }

  function Astray(q: Request): ClusterVersion {
    ClusterVersion([History(true, q.spec, true)], [Condition(true, true)], q.spec + "-other", Some(Wanted(q)))
  }

  lemma WaitingIsPushed(q: Request, running: string)
    requires PushableFrom(q, running)
    ensures !Busy(Waiting(running)) && MayPush(q, Waiting(running), running)
  {
  }

  lemma AstrayIsCleared(q: Request)
    requires !q.policy.Unrestricted?
    ensures Busy(Astray(q)) && MayClear(q, Astray(q), q.spec) && Running(Astray(q).history) == Some(q.spec)
  {
    var cv := Astray(q);
    assert cv.conditions[0] in cv.conditions;
    PrecedenceTotal();
  }

  /** Under any other policy, wherever something can be pushed, there is a run that writes twice: a push, then a clear. */
  lemma WritesTwice(q: Request, running: string) returns (ws: seq<World>, ls: seq<Label>)
    requires !q.policy.Unrestricted? && PushableFrom(q, running)
    ensures Run(q, ws, ls) && |ls| == 3 && Pushes(ls[0]) && Clears(ls[2])
    ensures !Obeys(q, ws[2])
  {
    var all := Luck(true, true, true, true, true, true, true);
    var cv, astray := Waiting(running), Astray(q);
    WaitingIsPushed(q, running);
    AstrayIsCleared(q);
    var w0 := World(cv, running, Unset);
    var w1 := World(cv.(desired := Some(Wanted(q))), running, False(UpgradeFailed));
    var w2 := World(astray, running, False(UpgradeFailed));
    var w3 := World(astray.(desired := None), q.spec, False(Blocked));
    ls := [ByController(Pass(all, Push(Wanted(q)))), ByCluster, ByController(Pass(all, Clear))];
    PrecedenceTotal();
    assert Step(q, w0, ls[0], w1);
    assert Step(q, w2, ls[2], w3);
    ws := [w0, w1, w2, w3];
  }

  ghost predicate AlwaysWritesAtMostOnce(q: Request) {
    forall ws, ls, i, j :: Run(q, ws, ls) && 0 <= i < j < |ls| && Writes(ls[i]) ==> !Writes(ls[j])
  }

  /** For a fixed request the controller writes at most once in every run exactly when the policy is Unrestricted or nothing can be pushed. */
  lemma AtMostOneWriteExactlyWhen(q: Request)
    ensures AlwaysWritesAtMostOnce(q) <==> q.policy.Unrestricted? || forall running :: !PushableFrom(q, running)
  {
    if q.policy.Unrestricted? {
      forall ws, ls, i, j | Run(q, ws, ls) && 0 <= i < j < |ls| && Writes(ls[i]) ensures !Writes(ls[j]) {
        UnrestrictedWritesOnce(q, ws, ls, i, j);
      }
    } else if running :| PushableFrom(q, running) {
      var ws, ls := WritesTwice(q, running);
      assert Writes(ls[0]) && Writes(ls[2]);
    } else {
      forall ws, ls, i, j | Run(q, ws, ls) && 0 <= i < j < |ls| && Writes(ls[i]) ensures !Writes(ls[j]) {
        OnlyClears(q, ws, ls, i, j);
      }
    }
  }

  lemma OnlyClears(q: Request, ws: seq<World>, ls: seq<Label>, i: nat, j: nat)
    requires Run(q, ws, ls) && i < j < |ls| && Writes(ls[i]) && forall running :: !PushableFrom(q, running)
    ensures !Writes(ls[j])
  {
    forall k | 0 <= k < |ls| ensures !Pushes(ls[k]) {
      assert Step(q, ws[k], ls[k], ws[k + 1]);
      if Pushes(ls[k]) { assert PushableFrom(q, Running(ws[k].cv.history).value); }
    }
    StaysCleared(q, ws, ls, i, j);
    assert Step(q, ws[j], ls[j], ws[j + 1]);
  }

  lemma FirstWriteAfter(ls: seq<Label>, i: nat, j: nat) returns (n: nat)
    requires i < j < |ls| && Writes(ls[j])
    ensures i < n <= j && Writes(ls[n]) && forall k | i < k < n :: !Writes(ls[k])
  {
    n := i + 1;
    while !Writes(ls[n])
      invariant i < n <= j && forall k | i < k < n :: !Writes(ls[k])
      decreases j - n
    {
      n := n + 1;
    }
  }

  // ---------------------------------------------------------------- the driver as code

  /** How the pass returns; what the deferred condition write still has to know. */
  datatype Exit = Exit(failed: bool, busy: bool, handled: bool)

  /**
   * The pass ends in an error when a read before the version fails, or, unless the version runs ahead, the read of
   * the target, or the write of a due update. That no version has completed yet, or that a clear fails, is none.
   */
  ghost predicate Fails(q: Request, cv: ClusterVersion, luck: Luck) {
    || !luck.ready || !luck.described
    || (Reads(cv, luck) && !Ahead(q, Running(cv.history).value)
        && (!luck.target
            || (!Busy(cv) && Differs(q, Running(cv.history).value)
                && !(luck.fetched && (q.ga || luck.resolved) && (AskedFor(q, cv.desired) || luck.stored)))))
  }

  function Stored(w: Write): seq<Write> { if w.NoWrite? then [] else [w] }

  class Driver {
    const request: Request
    var cv: ClusterVersion
    var status: string
    var completed: Completed

    /** Every update of the ClusterVersion that was stored, in order. */
    ghost var writes: seq<Write>

    ghost function View(): World
      reads this
    {
      World(cv, status, completed)
    }

    constructor (request: Request, w: World)
      ensures View() == w && this.request == request && writes == []
    {
      writes := [];
      this.request := request;
      cv, status, completed := w.cv, w.status, w.completed;
    }

    /** Stores the ClusterVersion with another desiredUpdate. */
    method Store(desired: Option<Update>)
      modifies this`cv, this`writes
      ensures cv == old(cv).(desired := desired)
      ensures writes == old(writes) + [if desired.Some? then Push(desired.value) else Clear]
    {
      cv := cv.(desired := desired);
      writes := writes + [if desired.Some? then Push(desired.value) else Clear];
    }

    /** Writes spec.desiredUpdate unless it is already what the code tests for. */
    method UpdateDesiredUpdate(luck: Luck) returns (r: Outcome, ghost wrote: Write)
      modifies this`cv, this`writes
      ensures writes == old(writes) + Stored(wrote)
      ensures cv == old(cv).(desired := Written(old(cv).desired, wrote))
      ensures wrote == if luck.fetched && (request.ga || luck.resolved) && !AskedFor(request, old(cv).desired) && luck.stored
                       then Push(Wanted(request)) else NoWrite
      ensures r.Ok? ==> AskedFor(request, cv.desired)
      ensures r.Ok? <==> luck.fetched && (request.ga || luck.resolved) && (AskedFor(request, old(cv).desired) || luck.stored)
    {
      wrote := NoWrite;
      if !luck.fetched { return Err, wrote; }
      if request.ga {
        if cv.desired.None? || cv.desired.value.version != request.spec {
          if !luck.stored { return Err, wrote; }
          Store(Some(Update(request.spec, "", false)));
          return Ok, Push(Wanted(request));
        }
        return Ok, wrote;
      }
      if !luck.resolved { return Err, wrote; }
      if cv.desired.None? || cv.desired.value.image != request.image {
        if !luck.stored { return Err, wrote; }
        Store(Some(Update("", request.image, true)));
        return Ok, Push(Wanted(request));
      }
      r := Ok;
    }

    method ClearDesiredUpdate(luck: Luck) returns (r: Outcome, ghost wrote: Write)
      modifies this`cv, this`writes
      ensures writes == old(writes) + Stored(wrote)
      ensures cv == old(cv).(desired := Written(old(cv).desired, wrote))
      ensures wrote == if luck.fetched && old(cv).desired.Some? && luck.stored then Clear else NoWrite
      ensures r.Ok? <==> luck.fetched && (old(cv).desired.Some? ==> luck.stored)
    {
      wrote := NoWrite;
      if !luck.fetched { return Err, wrote; }
      if cv.desired.None? { return Ok, wrote; }
      if !luck.stored { return Err, wrote; }
      Store(None);
      return Ok, Clear;
    }

    /** The body of the pass, up to the point where deferred work runs. */
    method Decide(luck: Luck) returns (x: Exit, ghost write: Write)
      modifies this
      ensures writes == old(writes) + Stored(write)
      ensures cv == old(cv).(desired := Written(old(cv).desired, write))
      ensures WritesAsItShould(request, old(cv), Pass(luck, write))
      ensures x.busy <==> luck.ready && Busy(old(cv))
      ensures x.failed <==> Fails(request, old(cv), luck)
      ensures if Reads(old(cv), luck) then Running(old(cv).history) == Some(status) else status == old(status) && !x.handled
      ensures !x.handled ==> completed == old(completed)
      ensures Reads(old(cv), luck) ==>
                if Newer(request, status, request.spec) then x.handled && completed == False(Drift)
                else if Foreign(request, old(cv), status) && ClearGetsThrough(old(cv), luck) then x.handled && completed == False(Blocked)
                else !x.handled
    {
      write := NoWrite;
      x := Exit(true, false, false);
      if !luck.ready { return; }
      var busy := IsUpdateInProgress(cv);
      x := Exit(true, busy, false);
      if !luck.described { return; }
      if !luck.version { return Exit(false, busy, false), write; }
      var current := GetCurrentVersion(cv);
      if current.None? { return Exit(false, busy, false), write; }
      status := current.value;
      AheadMeaning(request, status);
      DiffersMeaning(request, status);
      var spec, running := request.parse(request.spec), request.parse(status);
      PrecedenceTotal();
      if spec.Some? && running.Some? && Compare(running.value, spec.value) == 1 {
        completed := False(Drift);
        return Exit(false, busy, true), write;
      }
      if !luck.target { return; }
      var ours := request.spec[..if |cv.target| <= |request.spec| then |cv.target| else 0] == cv.target;
      assert ours <==> cv.target <= request.spec;
      var specIsNewer := spec.Some? && running.Some? && Compare(spec.value, running.value) == 1;
      if busy && !ours && !specIsNewer {
        if !request.policy.Unrestricted? {
          var cleared;
          cleared, write := ClearDesiredUpdate(luck);
          if cleared.Err? { return Exit(false, busy, false), write; }
          completed := False(Blocked);
          return Exit(false, busy, true), write;
        }
      }
      if busy { return Exit(false, busy, false), write; }
      if AtDesired(request, status) { return Exit(false, busy, false), write; }
      if spec.Some? && running.Some? && Compare(spec.value, running.value) != 1 {
        return Exit(false, busy, false), write;
      }
      var pushed;
      pushed, write := UpdateDesiredUpdate(luck);
      return Exit(pushed.Err?, busy, false), write;
    }

    /**
     * One pass, with the deferred condition write on every path: exactly what `PassStep` says for the calls that got
     * through, and the label's write, if there is one, is the only one stored.
     */
    method UpgradeWorkloadCluster(luck: Luck) returns (failed: bool, ghost p: Pass)
      modifies this
      ensures p.luck == luck && PassStep(request, old(View()), p, View())
      ensures writes == old(writes) + Stored(p.write) && |writes| <= |old(writes)| + 1
      ensures failed <==> Fails(request, old(cv), luck)
      ensures p.write.Push? ==> MayLag(request, status)
      ensures Reads(old(cv), luck) ==> (completed == False(Drift) <==> Ahead(request, status))
    {
      var x;
      ghost var write;
      x, write := Decide(luck);
      p := Pass(luck, write);
      if write.Push? { NewerMeaning(request, status); }
      AheadMeaning(request, status);
      failed := x.failed;
      if x.handled { return; }
      if x.busy || !AtDesired(request, status) {
        completed := False(if x.busy then InProgress else UpgradeFailed);
        return;
      }
      if completed.False? { completed := True; }
    }
  }
}
