/** Reading one file out of a layered image, pkg/containers/extractor.go. */
module ImageFiles {
  import opened Basics

  type Bytes = seq<bv8>

  /** What an archive entry is; anything that is no symbolic link is read as a file. */
  datatype Node = File(content: Bytes) | Link(target: string)

  datatype Entry = Entry(name: string, node: Node)

  /** The entries of one layer's archive, in archive order. */
  type Layer = seq<Entry>

  datatype Lookup = Found(content: Bytes) | NotFound | TooManyLinks | ReadError

  const MaxLinks: nat := 5

  // ---------------------------------------------------------------- the flattened image

  function PathOf(e: Entry): string { "/" + e.name }

  /** One layer as a file system: the first entry with a path counts. */
  function Files(layer: Layer): map<string, Node> {
    if layer == [] then map[] else Files(layer[1..])[PathOf(layer[0]) := layer[0].node]
  }

  /** All layers, the oldest first, laid over each other. */
  function Flatten(layers: seq<Layer>): map<string, Node> {
    if layers == [] then map[] else Flatten(layers[..|layers| - 1]) + Files(layers[|layers| - 1])
  }

  function Get(files: map<string, Node>, path: string): Option<Node> {
    if path in files then Some(files[path]) else None
  }

  /** No entry of the layer has the path. */
  predicate Lacks(layer: Layer, path: string) { forall k :: 0 <= k < |layer| ==> "/" + layer[k].name != path }

  lemma {:induction false} FirstEntryCounts(layer: Layer, path: string, j: nat)
    requires j <= |layer| && Lacks(layer[..j], path)
    requires j < |layer| ==> PathOf(layer[j]) == path
    ensures Get(Files(layer), path) == if j < |layer| then Some(layer[j].node) else None
  {
    if j > 0 {
      assert layer[..j][0] == layer[0] && layer[1..][..j - 1] == layer[..j][1..];
      FirstEntryCounts(layer[1..], path, j - 1);
    }
  }

  /** The flattened image shows the first entry of the newest layer that has the path at all. */
  lemma {:induction false} NewestLayerCounts(layers: seq<Layer>, path: string, i: nat, j: nat)
    requires i < |layers| && j < |layers[i]| && "/" + layers[i][j].name == path && Lacks(layers[i][..j], path)
    requires forall l :: i < l < |layers| ==> Lacks(layers[l], path)
    ensures Get(Flatten(layers), path) == Some(layers[i][j].node)
  {
    var last := |layers| - 1;
    if i == last {
      FirstEntryCounts(layers[i], path, j);
    } else {
      assert layers[last][..|layers[last]|] == layers[last];
      FirstEntryCounts(layers[last], path, |layers[last]|);
      NewestLayerCounts(layers[..last], path, i, j);
    }
  }

  /** And it shows nothing where no layer has the path. */
  lemma {:induction false} NoLayerNoFile(layers: seq<Layer>, path: string)
    requires forall l :: 0 <= l < |layers| ==> Lacks(layers[l], path)
    ensures Get(Flatten(layers), path) == None
  {
    if layers != [] {
      var last := |layers| - 1;
      assert layers[last][..|layers[last]|] == layers[last];
      FirstEntryCounts(layers[last], path, |layers[last]|);
      NoLayerNoFile(layers[..last], path);
    }
  }

  /** An absolute target stands as it is; `join` says where a relative one leads from the link's directory. */
  function Resolve(join: (string, string) -> string, path: string, target: string): string {
    if "/" <= target then target else join(path, target)
  }

  /** The file behind a path, over at most `links` symbolic links. */
  function Chase(join: (string, string) -> string, files: map<string, Node>, path: string, links: nat): Lookup
    decreases links
  {
    match Get(files, path)
    case None => NotFound
    case Some(File(content)) => Found(content)
    case Some(Link(target)) =>
      if links == 0 then TooManyLinks else Chase(join, files, Resolve(join, path, target), links - 1)
  }

  /** The path one arrives at after following exactly `hops` links. */
  function Hop(join: (string, string) -> string, files: map<string, Node>, path: string, hops: nat): Option<string>
    decreases hops
  {
    if hops == 0 then Some(path)
    else match Get(files, path)
         case Some(Link(target)) => Hop(join, files, Resolve(join, path, target), hops - 1)
         case _ => None
  }

  /** The node that stands `hops` links away. */
  function NodeAfter(join: (string, string) -> string, files: map<string, Node>, path: string, hops: nat): Option<Node> {
    match Hop(join, files, path, hops)
    case Some(p) => Get(files, p)
    case None => None
  }

  /** Some chain of at most `links` links ends at a file with this content. */
  ghost predicate WithinReach(join: (string, string) -> string, files: map<string, Node>, path: string, links: nat, content: Bytes) {
    exists n: nat :: n <= links && NodeAfter(join, files, path, n) == Some(File(content))
  }

  /** A lookup finds exactly the file that ends a chain of few enough links, and gives up exactly on longer chains. */
  lemma {:induction false} ChaseFollowsTheChain(join: (string, string) -> string, files: map<string, Node>, path: string, links: nat)
    ensures forall content: Bytes ::
              Chase(join, files, path, links) == Found(content) <==> WithinReach(join, files, path, links, content)
    ensures Chase(join, files, path, links) == TooManyLinks <==> Hop(join, files, path, links + 1).Some?
    ensures Chase(join, files, path, links) != ReadError
    decreases links
  {
    match Get(files, path) {
      case None =>
        assert forall n: nat :: NodeAfter(join, files, path, n).None?;
      case Some(File(c)) =>
        assert NodeAfter(join, files, path, 0) == Some(File(c));
        assert forall n: nat :: n > 0 ==> NodeAfter(join, files, path, n).None?;
      case Some(Link(target)) =>
        var next := Resolve(join, path, target);
        assert forall n: nat :: n > 0 ==> NodeAfter(join, files, path, n) == NodeAfter(join, files, next, n - 1);
        assert forall n: nat :: NodeAfter(join, files, next, n) == NodeAfter(join, files, path, n + 1);
        assert NodeAfter(join, files, path, 0) == Some(Link(target));
        if links > 0 { ChaseFollowsTheChain(join, files, next, links - 1); }
    }
  }

  /** An absolute target is where a link leads, whatever the link's directory; a relative one leads on from there. */
  lemma LinksLead(join: (string, string) -> string, files: map<string, Node>, path: string, target: string)
    requires path in files && files[path] == Link(target)
    ensures Hop(join, files, path, 1) == Some(if target != "" && target[0] == '/' then target else join(path, target))
  {
    assert Hop(join, files, Resolve(join, path, target), 0) == Some(Resolve(join, path, target));
  }

  lemma {:induction false} HopsAddUp(join: (string, string) -> string, files: map<string, Node>, path: string, m: nat, n: nat)
    ensures Hop(join, files, path, m + n) == match Hop(join, files, path, m)
                                             case Some(p) => Hop(join, files, p, n)
                                             case None => None
    decreases m
  {
    if m > 0 {
      match Get(files, path)
      case Some(Link(target)) => HopsAddUp(join, files, Resolve(join, path, target), m - 1, n);
      case _ =>
    }
  }

  /** Links that come back to where they started can be followed for ever. */
  lemma {:induction false} CyclesNeverEnd(join: (string, string) -> string, files: map<string, Node>, path: string, period: nat, n: nat)
    requires period > 0 && Hop(join, files, path, period) == Some(path)
    ensures Hop(join, files, path, n).Some?
    decreases n
  {
    if n <= period {
      HopsAddUp(join, files, path, n, period - n);
    } else {
      HopsAddUp(join, files, path, period, n - period);
      CyclesNeverEnd(join, files, path, period, n - period);
    }
  }

  /** A path that leads into a cycle is given up on, however long the links are followed. */
  lemma CyclesAreRefused(join: (string, string) -> string, files: map<string, Node>, path: string, lead: nat, period: nat, links: nat)
    requires var p := Hop(join, files, path, lead);
             period > 0 && p.Some? && Hop(join, files, p.value, period) == p
    ensures Chase(join, files, path, links) == TooManyLinks
  {
    var p := Hop(join, files, path, lead).value;
    var more := links + 1;
    if more >= lead {
      CyclesNeverEnd(join, files, p, period, more - lead);
      HopsAddUp(join, files, path, lead, more - lead);
    } else {
      HopsAddUp(join, files, path, more, lead - more);
    }
    ChaseFollowsTheChain(join, files, path, links);
  }

  // ---------------------------------------------------------------- the scan

  datatype Header = Entered(e: Entry) | EndOfArchive | Broken

  /** A read that can fail, by how many links were followed before it, which layer it is in, and which entry. */
  datatype Site =
    | Listing(depth: nat)
    | Opening(depth: nat, layer: nat)
    | Heading(depth: nat, layer: nat, entry: nat)
    | Copying(depth: nat, layer: nat)
    | Closing(depth: nat, layer: nat)

  /** Where the first entry with the path stands, or the number of entries if there is none. */
  function FirstAt(layer: Layer, path: string): (r: nat)
    ensures r <= |layer| && Lacks(layer[..r], path) && (r < |layer| ==> PathOf(layer[r]) == path)
  {
    if layer == [] || PathOf(layer[0]) == path then 0 else 1 + FirstAt(layer[1..], path)
  }

  ghost predicate HeadingFails(fails: Site -> bool, depth: nat, i: nat, layer: Layer, path: string) {
    exists n: nat :: n <= FirstAt(layer, path) && fails(Heading(depth, i, n))
  }

  /** A layer with no newer one that has the path. */
  ghost predicate Visited(layers: seq<Layer>, path: string, i: nat) {
    i < |layers| && forall k :: i < k < |layers| ==> Get(Files(layers[k]), path).None?
  }

  /** Some read of the layer fails on the way: opening, any header up to the entry, then its content or closing. */
  ghost predicate LayerFails(fails: Site -> bool, depth: nat, i: nat, layer: Layer, path: string) {
    || fails(Opening(depth, i)) || HeadingFails(fails, depth, i, layer, path)
    || match Get(Files(layer), path)
       case None => fails(Closing(depth, i))
       case Some(File(_)) => fails(Copying(depth, i))
       case Some(Link(_)) => false
  }

  /** A search meets a read that fails, in this image or behind the link it follows. */
  ghost predicate MeetsFailure(join: (string, string) -> string, layers: seq<Layer>, path: string, depth: nat, fails: Site -> bool)
    decreases MaxLinks + 1 - depth
  {
    depth <= MaxLinks &&
      ( fails(Listing(depth)) || SomeLayerFails(layers, path, depth, fails)
      || match Get(Flatten(layers), path)
         case Some(Link(target)) => MeetsFailure(join, layers, Resolve(join, path, target), depth + 1, fails)
         case _ => false)
  }

  /** The reader of a layer's archive, positioned before the next entry. */
  class TarReader {
    const layer: Layer
    var pos: nat

    constructor (layer: Layer)
      ensures this.layer == layer && pos == 0
    {
      this.layer := layer;
      pos := 0;
    }

    /** The next entry, the end of the archive, or an error. */
    method Next(broken: bool) returns (header: Header)
      modifies this`pos
      ensures match header
              case Entered(e) => !broken && pos == old(pos) + 1 && pos <= |layer| && e == layer[old(pos)]
              case EndOfArchive => !broken && pos == old(pos) && |layer| <= pos
              case Broken => broken && pos == old(pos)
    {
      if broken { return Broken; }
      if pos >= |layer| { return EndOfArchive; }
      pos := pos + 1;
      header := Entered(layer[pos - 1]);
    }
  }

  lemma FirstAtFrom(layer: Layer, path: string, n: nat)
    requires n <= |layer| && Lacks(layer[..n], path)
    ensures n <= FirstAt(layer, path) && (n < |layer| && PathOf(layer[n]) == path ==> FirstAt(layer, path) == n)
    ensures n == |layer| ==> FirstAt(layer, path) == n
  {
    var f := FirstAt(layer, path);
    assert forall k :: 0 <= k < n ==> layer[..n][k] == layer[k];
    assert forall k :: 0 <= k < f ==> layer[..f][k] == layer[k];
  }

  /** Reads a layer's archive up to the first entry with the path. */
  method ScanLayer(layer: Layer, path: string, depth: nat, i: nat, fails: Site -> bool) returns (hit: Header)
    ensures hit.Broken? <==> HeadingFails(fails, depth, i, layer, path)
    ensures match hit
            case Entered(e) => Get(Files(layer), path) == Some(e.node)
            case EndOfArchive => Get(Files(layer), path) == None
            case Broken => true
  {
    var tr := new TarReader(layer);
    while true
      invariant tr.layer == layer && tr.pos <= |layer| && Lacks(layer[..tr.pos], path)
      invariant forall n :: 0 <= n < tr.pos ==> !fails(Heading(depth, i, n))
      decreases |layer| - tr.pos
    {
      ghost var n := tr.pos;
      FirstAtFrom(layer, path, n);
      hit := tr.Next(fails(Heading(depth, i, tr.pos)));
      if !hit.Entered? {
        if hit.EndOfArchive? { assert layer[..n] == layer; FirstEntryCounts(layer, path, |layer|); }
        return;
      }
      if PathOf(hit.e) == path {
        FirstEntryCounts(layer, path, n);
        return;
      }
      assert layer[..n + 1] == layer[..n] + [layer[n]];
    }
  }

  /** Opens a layer, reads it up to the entry, and then its content, or to the end, and closes it. */
  method ReadLayer(layer: Layer, path: string, depth: nat, i: nat, fails: Site -> bool) returns (hit: Header)
    ensures hit.Broken? <==> LayerFails(fails, depth, i, layer, path)
    ensures match hit
            case Entered(e) => Get(Files(layer), path) == Some(e.node)
            case EndOfArchive => Get(Files(layer), path) == None
            case Broken => true
  {
    if fails(Opening(depth, i)) { return Broken; }
    FirstAtMeaning(layer, path);
    hit := ScanLayer(layer, path, depth, i, fails);
    match hit {
      case Broken =>
      case EndOfArchive => if fails(Closing(depth, i)) { return Broken; }
      case Entered(e) => if e.node.File? && fails(Copying(depth, i)) { return Broken; }
    }
  }

  lemma FirstAtMeaning(layer: Layer, path: string)
    ensures Get(Files(layer), path) == if FirstAt(layer, path) < |layer| then Some(layer[FirstAt(layer, path)].node) else None
  {
    FirstEntryCounts(layer, path, FirstAt(layer, path));
  }

  /** Some layer of those a search visits fails. */
  ghost predicate SomeLayerFails(layers: seq<Layer>, path: string, depth: nat, fails: Site -> bool) {
    exists i: nat :: Visited(layers, path, i) && LayerFails(fails, depth, i, layers[i], path)
  }

  /** The layers from `i` on have been read without a failure, and none has the path. */
  ghost predicate Passed(layers: seq<Layer>, path: string, depth: nat, fails: Site -> bool, i: nat) {
    forall k :: i <= k < |layers| ==> Get(Files(layers[k]), path).None? && !LayerFails(fails, depth, k, layers[k], path)
  }

  /** What the layer below tells about the whole search. */
  lemma NextLayer(layers: seq<Layer>, path: string, depth: nat, fails: Site -> bool, i: nat)
    requires i < |layers| && Passed(layers, path, depth, fails, i + 1)
    ensures LayerFails(fails, depth, i, layers[i], path) ==> SomeLayerFails(layers, path, depth, fails)
    ensures !LayerFails(fails, depth, i, layers[i], path) && Get(Files(layers[i]), path).Some? ==> !SomeLayerFails(layers, path, depth, fails)
    ensures !LayerFails(fails, depth, i, layers[i], path) && Get(Files(layers[i]), path).None? ==> Passed(layers, path, depth, fails, i)
  {
    assert Visited(layers, path, i);
  }

  lemma FlattenedLayer(layers: seq<Layer>, path: string, i: nat)
    requires i < |layers|
    ensures Get(Flatten(layers[..i + 1]), path) ==
              if Get(Files(layers[i]), path).Some? then Get(Files(layers[i]), path) else Get(Flatten(layers[..i]), path)
  {
    assert layers[..i + 1][..i] == layers[..i];
  }

  /** Looks through the layers, the newest first, up to one that has the path. */
  method SearchLayers(layers: seq<Layer>, path: string, depth: nat, fails: Site -> bool) returns (hit: Header)
    ensures hit.Broken? <==> SomeLayerFails(layers, path, depth, fails)
    ensures match hit
            case Entered(e) => Get(Flatten(layers), path) == Some(e.node)
            case EndOfArchive => Get(Flatten(layers), path) == None
            case Broken => true
  {
    var i := |layers|;
    assert layers[..i] == layers;
    while i > 0
      invariant i <= |layers| && Passed(layers, path, depth, fails, i)
      invariant Get(Flatten(layers), path) == Get(Flatten(layers[..i]), path)
    {
      i := i - 1;
      FlattenedLayer(layers, path, i);
      NextLayer(layers, path, depth, fails, i);
      hit := ReadLayer(layers[i], path, depth, i, fails);
      if !hit.EndOfArchive? { return; }
    }
    hit := EndOfArchive;
  }

  /**
   * The search, starting over at the target of a link it meets. It answers what the flattened image answers,
   * except for a read error, and that exactly when it meets a failing read.
   */
  method Extract(join: (string, string) -> string, layers: seq<Layer>, path: string, depth: nat, fails: Site -> bool)
    returns (r: Lookup)
    ensures r == ReadError <==> MeetsFailure(join, layers, path, depth, fails)
    ensures r != ReadError && depth <= MaxLinks ==> r == Chase(join, Flatten(layers), path, MaxLinks - depth)
    ensures depth > MaxLinks ==> r == TooManyLinks
    decreases MaxLinks + 1 - depth
  {
    if depth > MaxLinks { return TooManyLinks; }
    if fails(Listing(depth)) { return ReadError; }
    var hit := SearchLayers(layers, path, depth, fails);
    match hit {
      case Broken => r := ReadError;
      case EndOfArchive => r := NotFound;
      case Entered(e) =>
        match e.node
        case Link(target) => r := Extract(join, layers, Resolve(join, path, target), depth + 1, fails);
        case File(content) => r := Found(content);
    }
  }

  /** The exported entry: an image must be there, and the search starts with no link followed. */
  method ExtractFileFromImage(join: (string, string) -> string, image: Option<seq<Layer>>, path: string, fails: Site -> bool)
    returns (r: Lookup)
    ensures r == ReadError <==> image.None? || MeetsFailure(join, image.value, path, 0, fails)
    ensures image.Some? && r != ReadError ==> r == Chase(join, Flatten(image.value), path, 5)
    ensures r.Found? ==> image.Some? && WithinReach(join, Flatten(image.value), path, 5, r.content)
    ensures image.Some? && r == TooManyLinks ==> Hop(join, Flatten(image.value), path, 6).Some?
  {
    if image.None? { return ReadError; }
    r := Extract(join, image.value, path, 0, fails);
    ChaseFollowsTheChain(join, Flatten(image.value), path, MaxLinks);
  }
}
