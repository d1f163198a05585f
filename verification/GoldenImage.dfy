/**
 * Provisioning of the RHCOS golden image, controlplane/internal/kubevirt/rhcos_image.go: a URL job, a
 * ConfigMap, a volume claim, an import job and a cooldown stamp, one small step per pass.
 * Time is in nanoseconds.
 */
module GoldenImage {
  import opened Basics

  const SECOND := 1_000_000_000
  const COOLDOWN := 300 * SECOND

  /**
   * A job's outcome so far, the text it carries (what the URL job wrote, or the URL to import), and the claim an
   * import job fills.
   */
  datatype Job = Job(succeeded: bool, failed: bool, text: string, claim: nat)

  /** The stored time of the last failure, to the whole second, or text that is no time. */
  datatype Stamp = Seconds(t: int) | Garbage

  /** A claim has an identity; one that is created anew under the same name has a new one, the next. */
  datatype World = World(ready: bool, stamp: Option<Stamp>, url: Option<string>, urlJob: Option<Job>, pvc: Option<nat>,
                         nextClaim: nat, importJob: Option<Job>, now: int)

  ghost predicate Resolved(w: World) { w.url.Some? && w.url.value != "" }

  // ---------------------------------------------------------------- one pass

  /** How the URL stage went. */
  datatype UrlAct =
    | FromMap(url: string)
    | FromJob(url: string)
    | UrlJobCreated
    | UrlJobDropped
    | NoUrl

  datatype Act =
    | Nothing
    | PvcCreated
    | ImportCreated(url: string)
    | MarkedReady
    | Retried(at: int, stored: bool)

  datatype Pass = Pass(urlAct: UrlAct, act: Act)

  ghost predicate UrlStep(w: World, u: UrlAct, w': World) {
    && w'.ready == w.ready && w'.stamp == w.stamp && w'.pvc == w.pvc && w'.nextClaim == w.nextClaim
    && w'.importJob == w.importJob && w'.now == w.now
    && match u
       case FromMap(url) => w.url == Some(url) && url != "" && w'.url == w.url && w'.urlJob == w.urlJob
       case FromJob(url) =>
         && w.urlJob.Some? && w.urlJob.value.succeeded && w.urlJob.value.text == url && url != ""
         && w'.urlJob == w.urlJob && w'.url == if w.url.None? then Some(url) else w.url
       case UrlJobCreated => w.urlJob.None? && w'.url == w.url && w'.urlJob == Some(Job(false, false, "", 0))
       case UrlJobDropped =>
         && w.urlJob.Some? && (w.urlJob.value.succeeded || w.urlJob.value.failed) && w'.url == w.url
         && w'.urlJob in {None, w.urlJob}
       case NoUrl => w'.url == w.url && w'.urlJob == w.urlJob
  }

  function UrlOf(u: UrlAct): Option<string> {
    if u.FromMap? || u.FromJob? then Some(u.url) else None
  }

  function ToSeconds(now: int): int { now / SECOND }

  predicate CooldownElapsed(stamp: Option<Stamp>, now: int) {
    stamp.Some? && stamp.value.Seconds? ==> now - stamp.value.t * SECOND > COOLDOWN
  }

  ghost predicate ActStep(w: World, url: Option<string>, a: Act, w': World) {
    && w'.url == w.url && w'.urlJob == w.urlJob && w'.now >= w.now
    && match a
       case Nothing => w' == w.(now := w'.now)
       case PvcCreated => url.Some? && w.pvc.None? && w' == w.(pvc := Some(w.nextClaim), nextClaim := w.nextClaim + 1, now := w'.now)
       case ImportCreated(u) =>
         && url == Some(u) && w.pvc.Some? && w.importJob.None?
         && w' == w.(importJob := Some(Job(false, false, u, w.pvc.value)), now := w'.now)
       case MarkedReady =>
         && url.Some? && w.pvc.Some? && w.importJob.Some? && w.importJob.value.succeeded
         && w' == w.(ready := true, now := w'.now)
       case Retried(at, stored) =>
         && url.Some? && w.pvc.Some? && w.importJob.Some? && !w.importJob.value.succeeded && w.importJob.value.failed
         && w.now <= at <= w'.now && CooldownElapsed(w.stamp, at)
         && w'.importJob in {None, w.importJob} && w'.pvc == w.pvc && w'.nextClaim == w.nextClaim && w'.ready == w.ready
         && if stored then w'.stamp.Some? && w'.stamp.value.Seconds? && at < (w'.stamp.value.t + 1) * SECOND <= w'.now + SECOND
            else w'.stamp == w.stamp
  }

  ghost predicate PassStep(w: World, p: Pass, w': World) {
    && (w.ready ==> p == Pass(NoUrl, Nothing))
    && exists mid :: UrlStep(w, p.urlAct, mid) && ActStep(mid, UrlOf(p.urlAct), p.act, w')
  }

  predicate SameJob(a: Job, b: Job) { a.text == b.text && a.claim == b.claim }

  /** Everybody else: jobs finish or expire, objects are deleted, time passes. Only passes create objects. */
  ghost predicate OthersStep(w: World, w': World) {
    && w'.ready == w.ready && w'.stamp == w.stamp && w'.now >= w.now
    && (w'.url == w.url || w'.url.None?)
    && (w'.urlJob.Some? ==> w.urlJob.Some?) && (w'.pvc == w.pvc || w'.pvc.None?) && w'.nextClaim >= w.nextClaim
    && (w'.importJob.Some? ==> w.importJob.Some? && SameJob(w.importJob.value, w'.importJob.value))
  }

  datatype Label = ByController(pass: Pass) | ByOthers

  ghost predicate Step(w: World, l: Label, w': World) {
    match l
    case ByController(p) => PassStep(w, p, w')
    case ByOthers => OthersStep(w, w')
  }

  ghost predicate Run(ws: seq<World>, ls: seq<Label>) {
    |ws| == |ls| + 1 && forall i {:trigger ls[i]} | 0 <= i < |ls| :: Step(ws[i], ls[i], ws[i + 1])
  }

  ghost predicate Empty(w: World) { !w.ready && w.url.None? && w.urlJob.None? && w.pvc.None? && w.importJob.None? }

  // ---------------------------------------------------------------- milestones in order

  /** URL job, URL, claim, import job, ready: the five things that happen, in this order. */
  ghost predicate Milestone(l: Label, k: nat) {
    && l.ByController?
    && match k
       case 1 => l.pass.urlAct.UrlJobCreated?
       case 2 => l.pass.urlAct.FromJob?
       case 3 => l.pass.act.PvcCreated?
       case 4 => l.pass.act.ImportCreated?
       case 5 => l.pass.act.MarkedReady?
       case _ => false
  }

  /** Milestone `k` happened among the first `n` steps, and the ones before it before it (the claim perhaps in the URL's own pass). */
  ghost predicate Reached(ls: seq<Label>, n: nat, k: nat)
    requires n <= |ls|
    decreases k
  {
    k == 0 || exists i :: 0 <= i < n && Milestone(ls[i], k) && Reached(ls, if k == 3 then i + 1 else i, k - 1)
  }

  lemma {:induction false} ReachedLater(ls: seq<Label>, n: nat, m: nat, k: nat)
    requires n <= m <= |ls| && Reached(ls, n, k)
    ensures Reached(ls, m, k)
  {
  }

  lemma {:induction false} ReachedNow(ls: seq<Label>, n: nat, k: nat)
    requires n < |ls| && k > 0 && Milestone(ls[n], k) && Reached(ls, if k == 3 then n + 1 else n, k - 1)
    ensures Reached(ls, n + 1, k)
  {
  }

  /** Everything that exists was reached in order. */
  ghost predicate Explained(w: World, ls: seq<Label>, n: nat)
    requires n <= |ls|
  {
    && (w.urlJob.Some? ==> Reached(ls, n, 1))
    && (Resolved(w) ==> Reached(ls, n, 2))
    && (w.pvc.Some? ==> Reached(ls, n, 3))
    && (w.importJob.Some? ==> Reached(ls, n, 4))
    && (w.ready ==> Reached(ls, n, 5))
  }

  /** A milestone at this step was reached, if the one before it was, and what was reached stays so. */
  lemma {:induction false} MilestoneNow(ls: seq<Label>, n: nat, k: nat)
    requires n < |ls| && 1 <= k <= 5
    ensures Reached(ls, n, k) ==> Reached(ls, n + 1, k)
    ensures Milestone(ls[n], k) && Reached(ls, if k == 3 then n + 1 else n, k - 1) ==> Reached(ls, n + 1, k)
  {
    if Reached(ls, n, k) { ReachedLater(ls, n, n + 1, k); }
    else if Milestone(ls[n], k) && Reached(ls, if k == 3 then n + 1 else n, k - 1) { ReachedNow(ls, n, k); }
  }

  lemma {:induction false} PassKeepsExplained(w: World, ls: seq<Label>, n: nat, w': World)
    requires n < |ls| && Explained(w, ls, n) && ls[n].ByController? && PassStep(w, ls[n].pass, w')
    ensures Explained(w', ls, n + 1)
  {
    assert Reached(ls, n, 0);
    MilestoneNow(ls, n, 1);
    MilestoneNow(ls, n, 2);
    MilestoneNow(ls, n, 3);
    MilestoneNow(ls, n, 4);
    MilestoneNow(ls, n, 5);
  }

  lemma {:induction false} OthersKeepExplained(w: World, ls: seq<Label>, n: nat, w': World)
    requires n < |ls| && Explained(w, ls, n) && OthersStep(w, w')
    ensures Explained(w', ls, n + 1)
  {
    forall k | 1 <= k <= 5 && Reached(ls, n, k) ensures Reached(ls, n + 1, k) { ReachedLater(ls, n, n + 1, k); }
  }

  lemma {:induction false} MilestonesInOrder(ws: seq<World>, ls: seq<Label>, n: nat)
    requires Run(ws, ls) && Empty(ws[0]) && n <= |ls|
    ensures Explained(ws[n], ls, n)
  {
    if n > 0 {
      MilestonesInOrder(ws, ls, n - 1);
      assert Step(ws[n - 1], ls[n - 1], ws[n]);
      if ls[n - 1].ByController? {
        PassKeepsExplained(ws[n - 1], ls, n - 1, ws[n]);
      } else {
        OthersKeepExplained(ws[n - 1], ls, n - 1, ws[n]);
      }
    }
  }

  /**
   * From nothing, the image is called ready only after the URL job was created, its URL read, a claim
   * created, an import job created on a claim and one seen succeeded, in this order.
   */
  lemma {:induction false} ReadyOnlyAfterImport(ws: seq<World>, ls: seq<Label>, n: nat) returns (job: nat, url: nat, claim: nat, load: nat, mark: nat)
    requires Run(ws, ls) && Empty(ws[0]) && n <= |ls| && ws[n].ready
    ensures job < url <= claim < load < mark < n
    ensures Milestone(ls[job], 1) && Milestone(ls[url], 2) && Milestone(ls[claim], 3)
    ensures Milestone(ls[load], 4) && ws[load].pvc.Some? && UrlOf(ls[load].pass.urlAct) == Some(ls[load].pass.act.url)
    ensures Milestone(ls[mark], 5) && ws[mark].importJob.Some? && ws[mark].importJob.value.succeeded
  {
    MilestonesInOrder(ws, ls, n);
    load, mark := LastTwo(ls, n);
    job, url, claim := FirstThree(ls, load);
    assert Step(ws[load], ls[load], ws[load + 1]) && Step(ws[mark], ls[mark], ws[mark + 1]);
    WhatMilestonesNeed(ws[load], ls[load], ws[load + 1]);
    WhatMilestonesNeed(ws[mark], ls[mark], ws[mark + 1]);
  }

  lemma {:induction false} FirstThree(ls: seq<Label>, n: nat) returns (job: nat, url: nat, claim: nat)
    requires n <= |ls| && Reached(ls, n, 3)
    ensures job < url <= claim < n && Milestone(ls[job], 1) && Milestone(ls[url], 2) && Milestone(ls[claim], 3)
  {
    claim := Earlier(ls, n, 3);
    url := Earlier(ls, claim + 1, 2);
    job := Earlier(ls, url, 1);
  }

  lemma {:induction false} LastTwo(ls: seq<Label>, n: nat) returns (load: nat, mark: nat)
    requires n <= |ls| && Reached(ls, n, 5)
    ensures load < mark < n && Milestone(ls[load], 4) && Milestone(ls[mark], 5) && Reached(ls, load, 3)
  {
    mark := Earlier(ls, n, 5);
    load := Earlier(ls, mark, 4);
  }

  lemma {:induction false} Earlier(ls: seq<Label>, n: nat, k: nat) returns (i: nat)
    requires n <= |ls| && k > 0 && Reached(ls, n, k)
    ensures i < n && Milestone(ls[i], k) && Reached(ls, if k == 3 then i + 1 else i, k - 1)
  {
    i :| 0 <= i < n && Milestone(ls[i], k) && Reached(ls, if k == 3 then i + 1 else i, k - 1);
  }

  lemma WhatMilestonesNeed(w: World, l: Label, w': World)
    requires l.ByController? && PassStep(w, l.pass, w')
    ensures Milestone(l, 4) ==> w.pvc.Some? && UrlOf(l.pass.urlAct) == Some(l.pass.act.url)
    ensures Milestone(l, 5) ==> w.importJob.Some? && w.importJob.value.succeeded
  {
  }

  // ---------------------------------------------------------------- whether the ready claim is the filled one

  ghost predicate CreatesClaim(l: Label) { l.ByController? && l.pass.act.PvcCreated? }

  ghost predicate CreatesImport(l: Label) { l.ByController? && l.pass.act.ImportCreated? }

  /** An import job was created by the last pass that created one, on the claim that stood then. */
  lemma {:induction false} JobOrigin(ws: seq<World>, ls: seq<Label>, n: nat) returns (load: nat)
    requires Run(ws, ls) && Empty(ws[0]) && n <= |ls| && ws[n].importJob.Some?
    ensures load < n && CreatesImport(ls[load]) && forall k | load < k < n :: !CreatesImport(ls[k])
    ensures ws[load].pvc == Some(ws[n].importJob.value.claim)
  {
    assert Step(ws[n - 1], ls[n - 1], ws[n]);
    if CreatesImport(ls[n - 1]) {
      load := n - 1;
    } else {
      load := JobOrigin(ws, ls, n - 1);
    }
  }

  lemma {:induction false} ClaimsAreCounted(ws: seq<World>, ls: seq<Label>, n: nat)
    requires Run(ws, ls) && Empty(ws[0]) && n <= |ls|
    ensures ws[n].pvc.Some? ==> ws[n].pvc.value < ws[n].nextClaim
  {
    if n > 0 {
      ClaimsAreCounted(ws, ls, n - 1);
      assert Step(ws[n - 1], ls[n - 1], ws[n]);
    }
  }

  /** A claim stays the one it was until it is gone, and what is created afterwards is another. */
  lemma {:induction false} ClaimSince(ws: seq<World>, ls: seq<Label>, load: nat, n: nat)
    requires Run(ws, ls) && Empty(ws[0]) && load < n <= |ls| && ws[load].pvc.Some? && CreatesImport(ls[load])
    ensures var c := ws[load].pvc.value;
            && c < ws[n].nextClaim
            && (ws[n].pvc.Some? ==> ws[n].pvc.value >= c)
            && (ws[n].pvc.Some? ==> (ws[n].pvc.value == c <==> forall k | load < k < n :: !CreatesClaim(ls[k])))
  {
    ClaimsAreCounted(ws, ls, n - 1);
    assert Step(ws[n - 1], ls[n - 1], ws[n]);
    if load < n - 1 { ClaimSince(ws, ls, load, n - 1); }
  }

  /**
   * When the image is called ready, the claim that stands is the one that the succeeded job was created on exactly
   * when no pass has created a claim since that job was.
   */
  lemma ReadyClaimIsTheFilledOne(ws: seq<World>, ls: seq<Label>, mark: nat) returns (load: nat)
    requires Run(ws, ls) && Empty(ws[0]) && mark < |ls| && Milestone(ls[mark], 5)
    ensures load < mark && CreatesImport(ls[load]) && forall k | load < k < mark :: !CreatesImport(ls[k])
    ensures ws[mark].importJob.Some? && ws[mark].importJob.value.succeeded && ws[mark].pvc.Some?
    ensures ws[mark].pvc.value == ws[mark].importJob.value.claim <==> forall k | load < k < mark :: !CreatesClaim(ls[k])
  {
    assert Step(ws[mark], ls[mark], ws[mark + 1]);
    load := JobOrigin(ws, ls, mark);
    ClaimSince(ws, ls, load, mark);
  }

  /** It can be another: a filled claim is deleted, the next pass creates a new one, and the one after calls it ready. */
  lemma OldJobNewClaim(w: World, url: string) returns (ws: seq<World>, ls: seq<Label>)
    requires !w.ready && w.url == Some(url) && url != "" && w.pvc.Some? && w.pvc.value < w.nextClaim
    requires w.importJob.Some? && w.importJob.value.succeeded && w.importJob.value.claim == w.pvc.value
    ensures Run(ws, ls) && |ls| == 3 && ws[0] == w
    ensures ws[3].ready && ws[3].importJob == w.importJob && ws[3].pvc.Some? && ws[3].pvc != w.pvc
  {
    var gone := w.(pvc := None);
    var anew := w.(pvc := Some(w.nextClaim), nextClaim := w.nextClaim + 1);
    var ready := anew.(ready := true);
    ls := [ByOthers, ByController(Pass(FromMap(url), PvcCreated)), ByController(Pass(FromMap(url), MarkedReady))];
    assert UrlStep(gone, FromMap(url), gone) && ActStep(gone, Some(url), PvcCreated, anew);
    assert UrlStep(anew, FromMap(url), anew) && ActStep(anew, Some(url), MarkedReady, ready);
    ws := [w, gone, anew, ready];
    assert Step(ws[0], ls[0], ws[1]) && Step(ws[1], ls[1], ws[2]) && Step(ws[2], ls[2], ws[3]);
  }

  // ---------------------------------------------------------------- retries keep their distance

  ghost predicate Retries(l: Label) { l.ByController? && l.pass.act.Retried? }

  lemma {:induction false} TimeGoesOn(ws: seq<World>, ls: seq<Label>, i: nat, j: nat)
    requires Run(ws, ls) && i <= j <= |ls|
    ensures ws[i].now <= ws[j].now
  {
    if i < j {
      TimeGoesOn(ws, ls, i, j - 1);
      assert Step(ws[j - 1], ls[j - 1], ws[j]);
    }
  }

  /** A stored stamp is replaced only by later ones. */
  lemma {:induction false} StampRemains(ws: seq<World>, ls: seq<Label>, i: nat, j: nat)
    requires Run(ws, ls) && i < j <= |ls| && Retries(ls[i]) && ls[i].pass.act.stored
    ensures ws[j].stamp.Some? && ws[j].stamp.value.Seconds?
    ensures (ws[j].stamp.value.t + 1) * SECOND > ls[i].pass.act.at
  {
    assert Step(ws[j - 1], ls[j - 1], ws[j]);
    if i < j - 1 {
      StampRemains(ws, ls, i, j - 1);
      if Retries(ls[j - 1]) {
        TimeGoesOn(ws, ls, i + 1, j - 1);
        assert Step(ws[i], ls[i], ws[i + 1]);
      }
    }
  }

  /** If the first one's stamp was stored, two retry deletions are more than 299 seconds apart. */
  lemma {:induction false} RetriesKeepDistance(ws: seq<World>, ls: seq<Label>, i: nat, j: nat)
    requires Run(ws, ls) && i < j < |ls| && Retries(ls[i]) && Retries(ls[j]) && ls[i].pass.act.stored
    ensures ls[j].pass.act.at - ls[i].pass.act.at > 299 * SECOND
  {
    StampRemains(ws, ls, i, j);
    assert Step(ws[j], ls[j], ws[j + 1]);
  }

  /** The truncation is real: a stamp taken just before a full second lets a retry through after 299 seconds and a bit. */
  lemma JustOver299Seconds(start: int)
    requires start % SECOND == SECOND - 1
    ensures CooldownElapsed(Some(Seconds(ToSeconds(start))), start + 299 * SECOND + 2)
  {
    assert start == ToSeconds(start) * SECOND + SECOND - 1;
  }

  // ---------------------------------------------------------------- the code

  /**
   * Which calls of a pass get through: of the URL stage, reading the ConfigMap, the job and its pod, deleting the
   * job, storing the ConfigMap, creating the job; then reading and creating the claim, reading the import job,
   * storing the mark, deleting the import job, storing the stamp, finding the importer image, creating the job.
   */
  datatype Luck = Luck(mapRead: bool, jobRead: bool, podRead: bool, jobDeleted: bool, mapStored: bool, jobCreated: bool,
                       claimRead: bool, claimCreated: bool, importRead: bool, marked: bool, importDeleted: bool,
                       stampStored: bool, imageFound: bool, importCreated: bool)

  const Lucky := Luck(true, true, true, true, true, true, true, true, true, true, true, true, true, true)

  /** What the URL stage does. */
  ghost function UrlDue(w: World, luck: Luck): UrlAct {
    if luck.mapRead && Resolved(w) then FromMap(w.url.value)
    else if !luck.jobRead then NoUrl
    else if w.urlJob.None? then if luck.jobCreated then UrlJobCreated else NoUrl
    else
      var j := w.urlJob.value;
      if j.succeeded && luck.podRead && j.text != "" then
        if w.url.None? && !luck.mapStored then NoUrl else FromJob(j.text)
      else if j.succeeded || j.failed then UrlJobDropped
      else NoUrl
  }

  /** And the step after it: the claim first, then the import, then the mark or a retry. */
  ghost predicate TakesWhatIsDue(w: World, luck: Luck, p: Pass) {
    if UrlOf(p.urlAct).None? || !luck.claimRead then p.act == Nothing
    else if w.pvc.None? then p.act == if luck.claimCreated then PvcCreated else Nothing
    else if !luck.importRead then p.act == Nothing
    else if w.importJob.None? then
      p.act == if luck.imageFound && luck.importCreated then ImportCreated(UrlOf(p.urlAct).value) else Nothing
    else if w.importJob.value.succeeded then p.act == if luck.marked then MarkedReady else Nothing
    else if w.importJob.value.failed then
      && (p.act.Retried? || p.act.Nothing?) && (CooldownElapsed(w.stamp, w.now) ==> p.act.Retried?)
      && (p.act.Retried? ==> p.act.stored == luck.stampStored)
    else p.act == Nothing
  }

  class Provisioner {
    var ready: bool
    var stamp: Option<Stamp>
    var url: Option<string>
    var urlJob: Option<Job>
    var pvc: Option<nat>
    var nextClaim: nat
    var importJob: Option<Job>
    var now: int

    ghost function View(): World
      reads this
    {
      World(ready, stamp, url, urlJob, pvc, nextClaim, importJob, now)
    }

    constructor (now: int)
      ensures Empty(View()) && stamp.None? && this.now == now
    {
      ready, stamp, url, urlJob, pvc, nextClaim, importJob, this.now := false, None, None, None, None, 0, None, now;
    }

    /** The clock only moves forward. */
    method Clock() returns (t: int)
      modifies this`now
      ensures t == now >= old(now)
    {
      var later: int := *;
      if later > now { now := later; }
      t := now;
    }

    method IsJobFailureCooldownElapsed() returns (r: bool)
      modifies this`now
      ensures now >= old(now) && r == CooldownElapsed(stamp, now)
      ensures r <==> stamp.None? || stamp.value.Garbage? || now - stamp.value.t * 1_000_000_000 > 300 * 1_000_000_000
    {
      if stamp.None? { return true; }
      if stamp.value.Garbage? { return true; }
      var t := Clock();
      r := t - stamp.value.t * SECOND > COOLDOWN;
    }

    /** Finds the URL in the ConfigMap or in a finished job, or moves the job one step on. */
    method EnsureUrlResolved(luck: Luck) returns (r: Option<string>, ghost u: UrlAct)
      modifies this`url, this`urlJob
      ensures UrlStep(old(View()), u, View()) && r == UrlOf(u)
      ensures u == UrlDue(old(View()), luck) && (u.UrlJobDropped? ==> urlJob == if luck.jobDeleted then None else old(urlJob))
      ensures luck == Lucky ==>
                if old(url).Some? && old(url).value != "" then r == old(url) && urlJob == old(urlJob)
                else if old(urlJob).None? then r.None? && urlJob.Some?
                else if old(urlJob).value.succeeded && old(urlJob).value.text != "" then r == Some(old(urlJob).value.text)
                else r.None? && (urlJob.None? <==> old(urlJob).value.succeeded || old(urlJob).value.failed)
    {
      u := NoUrl;
      if luck.mapRead && url.Some? && url.value != "" { return url, FromMap(url.value); }
      if !luck.jobRead { return None, u; }
      if urlJob.Some? {
        if urlJob.value.succeeded {
          var text := urlJob.value.text;
          if !luck.podRead || text == "" {
            if luck.jobDeleted { urlJob := None; }
            return None, UrlJobDropped;
          }
          if url.None? {
            if !luck.mapStored { return None, u; }
            url := Some(text);
          }
          return Some(text), FromJob(text);
        }
        if urlJob.value.failed {
          if luck.jobDeleted { urlJob := None; }
          return None, UrlJobDropped;
        }
        return None, u;
      }
      if !luck.jobCreated { return None, u; }
      urlJob := Some(Job(false, false, "", 0));
      return None, UrlJobCreated;
    }

    /** A failed import: at most one deletion per cooldown, and the stamp only if the update is stored. */
    method RetryImport(ghost url: string, luck: Luck) returns (ghost a: Act)
      requires pvc.Some? && importJob.Some? && !importJob.value.succeeded && importJob.value.failed
      modifies this`importJob, this`stamp, this`now
      ensures ActStep(old(View()), Some(url), a, View())
      ensures CooldownElapsed(old(stamp), old(now)) ==> a.Retried?
      ensures a.Nothing? || a.Retried?
      ensures a.Retried? ==> a.stored == luck.stampStored && importJob == if luck.importDeleted then None else old(importJob)
    {
      var elapsed := IsJobFailureCooldownElapsed();
      if !elapsed { return Nothing; }
      var at := Clock();
      if luck.importDeleted { importJob := None; }
      var t := Clock();
      if luck.stampStored { stamp := Some(Seconds(ToSeconds(t))); }
      return Retried(at, luck.stampStored);
    }

    /**
     * One pass: at most one object is created or deleted beyond the URL stage, and exactly the step is taken that is
     * due, the calls that get through being given.
     */
    method EnsureGoldenPvc(versionKnown: bool, luck: Luck) returns (r: bool, ghost p: Pass)
      modifies this
      ensures PassStep(old(View()), p, View())
      ensures r <==> ready
      ensures if versionKnown && !old(ready) then p.urlAct == UrlDue(old(View()), luck) && TakesWhatIsDue(old(View()), luck, p)
              else p == Pass(NoUrl, Nothing)
      ensures p.act.Retried? ==> importJob == if luck.importDeleted then None else old(importJob)
    {
      p := Pass(NoUrl, Nothing);
      if ready || !versionKnown {
        Idle(View());
        return ready, p;
      }
      var url;
      ghost var u;
      url, u := EnsureUrlResolved(luck);
      p := Pass(u, Nothing);
      ghost var mid := View();
      r := false;
      assert ActStep(mid, url, Nothing, View());
      if url.None? { return; }
      if !luck.claimRead { return; }
      if pvc.None? {
        if !luck.claimCreated { return; }
        pvc, nextClaim := Some(nextClaim), nextClaim + 1;
        p := Pass(u, PvcCreated);
        assert ActStep(mid, url, PvcCreated, View());
        return;
      }
      if !luck.importRead { return; }
      if importJob.Some? {
        if importJob.value.succeeded {
          if !luck.marked { return; }
          ready := true;
          p := Pass(u, MarkedReady);
          assert ActStep(mid, url, MarkedReady, View());
          return true, p;
        }
        if importJob.value.failed {
          ghost var a := RetryImport(url.value, luck);
          p := Pass(u, a);
          assert ActStep(mid, url, a, View());
        }
        return;
      }
      if !luck.imageFound { return; }
      if !luck.importCreated { return; }
      importJob := Some(Job(false, false, url.value, pvc.value));
      p := Pass(u, ImportCreated(url.value));
      assert ActStep(mid, url, ImportCreated(url.value), View());
    }
  }

  lemma Idle(w: World)
    ensures PassStep(w, Pass(NoUrl, Nothing), w)
  {
    assert UrlStep(w, NoUrl, w) && ActStep(w, None, Nothing, w);
  }
}
