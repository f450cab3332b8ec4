/**
 * The three path selectors: the pass-by path given literally, the minimum
 * latency path (networkx's `shortest_path` weighted by `delay`) and the
 * maximum bandwidth path (the first widest candidate among all simple paths).
 */
module PathSelection {
  import opened Wrappers
  import opened Graphs
  import opened SwitchIds
  import opened SimplePaths

  // ---------------------------------------------------------------- pass-by

  function Reverse<T>(s: seq<T>): (r: seq<T>)
    ensures |r| == |s|
  {
    seq(|s|, i requires 0 <= i < |s| => s[|s| - 1 - i])
  }

  /** The objective's switch list with every element stringified. */
  function StrPath(switches: seq<SwitchRef>): (r: Path)
    ensures |r| == |switches|
  {
    seq(|switches|, i requires 0 <= i < |switches| => Str(switches[i]))
  }

  /** The loop that stringifies a switch list into a path, element by element. */
  method Stringify(switches: seq<SwitchRef>) returns (path: Path)
    ensures |path| == |switches|
    ensures forall i :: 0 <= i < |switches| ==> path[i] == Str(switches[i])
  {
    path := [];
    for i := 0 to |switches|
      invariant |path| == i
      invariant forall k :: 0 <= k < i ==> path[k] == Str(switches[k])
    {
      path := path + [Str(switches[i])];
    }
  }

  /** Stringifying the reversed switch list reverses the forward path. */
  lemma PassByReverseIsReversal(switches: seq<SwitchRef>)
    ensures StrPath(Reverse(switches)) == Reverse(StrPath(switches))
    ensures Reverse(Reverse(StrPath(switches))) == StrPath(switches)
  {
  }

  // ------------------------------------------------------------ min latency

  /** Index of the first least element (a left-to-right scan keeping strict improvements). */
  function FirstMinIndex(xs: seq<nat>): (k: nat)
    requires |xs| > 0
    ensures k < |xs|
    ensures forall j :: 0 <= j < |xs| ==> xs[k] <= xs[j]
    ensures forall j :: 0 <= j < k ==> xs[k] < xs[j]
  {
    if |xs| == 1 then 0
    else
      var k := FirstMinIndex(xs[..|xs| - 1]);
      if xs[|xs| - 1] < xs[k] then |xs| - 1 else k
  }

  function Delays(g: Graph, ps: seq<Path>): (r: seq<nat>)
    requires WellFormed(g)
    requires forall q :: q in ps ==> IsPath(g, q)
    ensures |r| == |ps|
    ensures forall i :: 0 <= i < |ps| ==> r[i] == Delay(g, ps[i])
  {
    if ps == [] then []
    else
      assert forall q :: q in ps[..|ps| - 1] ==> q in ps;
      Delays(g, ps[..|ps| - 1]) + [Delay(g, ps[|ps| - 1])]
  }

  /**
   * `shortest_path(topo, source, target, weight='delay')`: an error for an
   * endpoint outside the topology, the one-node path when source and target
   * coincide, otherwise the first simple path of least total delay, or an
   * error when the target is unreachable.
   */
  function ShortestPath(g: Graph, src: Node, dst: Node): (r: Result<Path, PathError>)
    requires WellFormed(g)
    ensures r.Ok? ==> Walk(g, r.value, src, dst)
  {
    if src !in g.succ then Err(NodeNotFound(src))
    else if dst !in g.succ then Err(NodeNotFound(dst))
    else if src == dst then Ok([src])
    else
      var ps := Extensions(g, [src], dst);
      if ps == [] then Err(NoPath(src, dst))
      else Ok(ps[FirstMinIndex(Delays(g, ps))])
  }

  /** The selected path is no longer, in delay, than any walk between the endpoints. */
  lemma ShortestPathIsShortest(g: Graph, src: Node, dst: Node, w: Path)
    requires WellFormed(g) && Walk(g, w, src, dst)
    ensures ShortestPath(g, src, dst).Ok?
    ensures Delay(g, ShortestPath(g, src, dst).value) <= Delay(g, w)
  {
    if src != dst {
      var s := Shortcut(g, w);
      assert |s| >= 2;
      assert s[..1] == [src];
      ExtensionsComplete(g, [src], dst, s);
      var ps := Extensions(g, [src], dst);
      var k :| 0 <= k < |ps| && ps[k] == s;
      assert Delays(g, ps)[k] == Delay(g, s);
    }
  }

  /** Path selection fails exactly when no walk joins the endpoints. */
  lemma ShortestPathFailsIffUnreachable(g: Graph, src: Node, dst: Node)
    requires WellFormed(g)
    ensures ShortestPath(g, src, dst).Err? <==> !exists w :: Walk(g, w, src, dst)
  {
    if w :| Walk(g, w, src, dst) {
      ShortestPathIsShortest(g, src, dst, w);
    }
  }

  // ---------------------------------------------------------- max bandwidth

  /** One entry of the app's candidate list: a path and its bottleneck. */
  datatype Candidate = Candidate(path: Path, bottleneck: nat)

  /** Python's `max(candidates, key=bottleneck)`: the first candidate of greatest key. */
  function FirstMaxIndex(cs: seq<Candidate>): (k: nat)
    requires |cs| > 0
    ensures k < |cs|
    ensures forall j :: 0 <= j < |cs| ==> cs[j].bottleneck <= cs[k].bottleneck
    ensures forall j :: 0 <= j < k ==> cs[j].bottleneck < cs[k].bottleneck
  {
    if |cs| == 1 then 0
    else
      var k := FirstMaxIndex(cs[..|cs| - 1]);
      if cs[|cs| - 1].bottleneck > cs[k].bottleneck then |cs| - 1 else k
  }

  /** The candidate list built from the enumerated paths. */
  function Candidates(g: Graph, ps: seq<Path>): (r: seq<Candidate>)
    requires WellFormed(g)
    requires forall q :: q in ps ==> IsPath(g, q)
    ensures |r| == |ps|
    ensures forall i :: 0 <= i < |ps| ==> r[i] == Candidate(ps[i], Bottleneck(g, ps[i]))
  {
    if ps == [] then []
    else
      assert forall q :: q in ps[..|ps| - 1] ==> q in ps;
      Candidates(g, ps[..|ps| - 1]) + [Candidate(ps[|ps| - 1], Bottleneck(g, ps[|ps| - 1]))]
  }

  /**
   * The max-bandwidth selection: enumerate the simple paths, then take the
   * first of greatest bottleneck; `max` of no candidates is an error.
   */
  function WidestPath(g: Graph, src: Node, dst: Node): (r: Result<Path, PathError>)
    requires WellFormed(g)
    ensures r.Ok? ==> SimplePath(g, r.value, src, dst) && |r.value| >= 2
  {
    match AllSimplePaths(g, src, dst)
    case Err(e) => Err(e)
    case Ok(ps) =>
      if ps == [] then Err(EmptyCandidates)
      else
        var cs := Candidates(g, ps);
        Ok(cs[FirstMaxIndex(cs)].path)
  }

  /** The scan of one candidate path for its bottleneck. */
  method PathBottleneck(g: Graph, p: Path) returns (minBw: nat)
    requires WellFormed(g) && IsPath(g, p)
    ensures minBw == Bottleneck(g, p)
  {
    minBw := Sentinel;
    for n := 0 to |p| - 1
      invariant IsPath(g, p[..n + 1])
      invariant minBw == Bottleneck(g, p[..n + 1])
    {
      var bw := g.links[(p[n], p[n + 1])].bw;
      assert IsPath(g, p[..n + 2]);
      assert p[..n + 2][..n + 1] == p[..n + 1];
      if bw < minBw {
        minBw := bw;
      }
    }
    assert p[..|p|] == p;
  }

  /** The app's max-bandwidth loop: build the candidate list, then take `max`. */
  method MaxBandwidthPath(g: Graph, src: Node, dst: Node) returns (r: Result<Path, PathError>)
    requires WellFormed(g)
    ensures r == WidestPath(g, src, dst)
  {
    var found := AllSimplePaths(g, src, dst);
    if found.Err? {
      return Err(found.error);
    }
    var paths := found.value;
    var candidates: seq<Candidate> := [];
    for i := 0 to |paths|
      invariant forall q :: q in paths[..i] ==> q in paths
      invariant candidates == Candidates(g, paths[..i])
    {
      var minBw := PathBottleneck(g, paths[i]);
      candidates := candidates + [Candidate(paths[i], minBw)];
      assert paths[..i + 1][..i] == paths[..i];
      assert forall q :: q in paths[..i + 1] ==> q in paths;
    }
    assert paths[..|paths|] == paths;
    if candidates == [] {
      return Err(EmptyCandidates);
    }
    var best := candidates[FirstMaxIndex(candidates)];
    return Ok(best.path);
  }

  /** No simple path between the endpoints has a larger bottleneck than the selected one. */
  lemma WidestPathIsWidest(g: Graph, src: Node, dst: Node, q: Path)
    requires WellFormed(g) && SimplePath(g, q, src, dst) && |q| >= 2
    ensures WidestPath(g, src, dst).Ok?
    ensures Bottleneck(g, q) <= Bottleneck(g, WidestPath(g, src, dst).value)
  {
    AllSimplePathsComplete(g, src, dst, q);
    var ps := AllSimplePaths(g, src, dst).value;
    var cs := Candidates(g, ps);
    var k :| 0 <= k < |ps| && ps[k] == q;
    assert cs[k].bottleneck == Bottleneck(g, q);
  }

  /** The selected path is the first enumerated candidate that attains the widest bottleneck. */
  lemma WidestPathIsFirst(g: Graph, src: Node, dst: Node)
    requires WellFormed(g) && WidestPath(g, src, dst).Ok?
    ensures AllSimplePaths(g, src, dst).Ok?
    ensures var ps, p := AllSimplePaths(g, src, dst).value, WidestPath(g, src, dst).value;
            exists k :: 0 <= k < |ps| && ps[k] == p
                        && forall j :: 0 <= j < k ==> Bottleneck(g, ps[j]) < Bottleneck(g, p)
  {
    var ps := AllSimplePaths(g, src, dst).value;
    var cs := Candidates(g, ps);
    var k := FirstMaxIndex(cs);
    assert ps[k] == WidestPath(g, src, dst).value;
  }

  /** Selection fails exactly when no simple path of at least one edge joins the endpoints. */
  lemma WidestPathFailsIffNoCandidate(g: Graph, src: Node, dst: Node)
    requires WellFormed(g)
    ensures WidestPath(g, src, dst).Err? <==> !exists q :: SimplePath(g, q, src, dst) && |q| >= 2
  {
    if q :| SimplePath(g, q, src, dst) && |q| >= 2 {
      WidestPathIsWidest(g, src, dst, q);
    }
  }
}
