/**
 * The topology the traffic-engineering app reads: switches as nodes, each edge
 * carrying the integer attributes `delay` and `bw`. Successor lists keep the
 * adjacency order of the topology, which fixes the order in which simple paths
 * are enumerated.
 */
module Graphs {

  type Node = string
  type Path = seq<Node>

  /** The `delay` and `bw` attributes of one edge. */
  datatype Link = Link(delay: nat, bw: nat)

  datatype Graph = Graph(succ: map<Node, seq<Node>>, links: map<(Node, Node), Link>)

  /** Why a path could not be selected (the exceptions the path calls raise). */
  datatype PathError =
    | NodeNotFound(node: Node)      // an endpoint is not a node of the topology
    | NoPath(src: Node, dst: Node)  // shortest path: the target is unreachable
    | EmptyCandidates               // `max` over an empty candidate list

  /** Starting value of the bottleneck scan, and the bottleneck of a one-node path. */
  const Sentinel: nat := 1000000000

  /** Every successor is a node, and every edge carries its attributes. */
  predicate WellFormed(g: Graph) {
    forall u, v :: u in g.succ && v in g.succ[u] ==> v in g.succ && (u, v) in g.links
  }

  predicate Edge(g: Graph, u: Node, v: Node) {
    u in g.succ && v in g.succ[u]
  }

  predicate Distinct(p: Path) {
    forall i, j :: 0 <= i < j < |p| ==> p[i] != p[j]
  }

  /** A non-empty sequence of nodes, consecutive ones joined by an edge (a walk). */
  predicate IsPath(g: Graph, p: Path) {
    && |p| >= 1
    && (forall i :: 0 <= i < |p| ==> p[i] in g.succ)
    && (forall i :: 0 <= i < |p| - 1 ==> Edge(g, p[i], p[i + 1]))
  }

  predicate Walk(g: Graph, p: Path, src: Node, dst: Node) {
    IsPath(g, p) && p[0] == src && p[|p| - 1] == dst
  }

  predicate SimplePath(g: Graph, p: Path, src: Node, dst: Node) {
    Walk(g, p, src, dst) && Distinct(p)
  }

  function EdgeLink(g: Graph, u: Node, v: Node): Link
    requires WellFormed(g) && Edge(g, u, v)
  {
    g.links[(u, v)]
  }

  /** Total `delay` of a path: the weight networkx's shortest path minimises. */
  function Delay(g: Graph, p: Path): nat
    requires WellFormed(g) && IsPath(g, p)
    decreases |p|
  {
    if |p| <= 1 then 0 else EdgeLink(g, p[0], p[1]).delay + Delay(g, p[1..])
  }

  /**
   * Bottleneck of a path as the app's scan computes it: start from the sentinel
   * and lower it to each edge's `bw` in turn, first edge first.
   */
  function Bottleneck(g: Graph, p: Path): (r: nat)
    requires WellFormed(g) && IsPath(g, p)
    ensures r <= Sentinel
    ensures |p| >= 2 ==> r <= EdgeLink(g, p[0], p[1]).bw
    decreases |p|
  {
    if |p| <= 1 then Sentinel
    else
      var soFar := Bottleneck(g, p[..|p| - 1]);
      var bw := EdgeLink(g, p[|p| - 2], p[|p| - 1]).bw;
      if bw < soFar then bw else soFar
  }

  /** The bottleneck is the least `bw` on the path, capped at the sentinel. */
  lemma {:induction false} BottleneckIsMinimum(g: Graph, p: Path)
    requires WellFormed(g) && IsPath(g, p)
    ensures Bottleneck(g, p) <= Sentinel
    ensures forall n :: 0 <= n < |p| - 1 ==> Bottleneck(g, p) <= EdgeLink(g, p[n], p[n + 1]).bw
    ensures Bottleneck(g, p) == Sentinel
            || exists n :: 0 <= n < |p| - 1 && Bottleneck(g, p) == EdgeLink(g, p[n], p[n + 1]).bw
  {
    if |p| > 1 {
      var q := p[..|p| - 1];
      BottleneckIsMinimum(g, q);
    }
  }

  /** Joining a path that ends at x with one that starts at x gives a path. */
  lemma JoinIsPath(g: Graph, a: Path, b: Path)
    requires IsPath(g, a) && IsPath(g, b) && a[|a| - 1] == b[0]
    ensures IsPath(g, a + b[1..])
  {
    var w := a + b[1..];
    forall i | 0 <= i < |w| - 1
      ensures Edge(g, w[i], w[i + 1])
    {
      if i < |a| - 1 {
        assert w[i] == a[i] && w[i + 1] == a[i + 1];
      } else {
        assert w[i] == b[i - |a| + 1] && w[i + 1] == b[i - |a| + 2];
      }
    }
  }

  /** The delay of a path splits at any of its nodes. */
  lemma {:induction false} DelaySplit(g: Graph, p: Path, k: nat)
    requires WellFormed(g) && IsPath(g, p) && k < |p|
    ensures IsPath(g, p[..k + 1]) && IsPath(g, p[k..])
    ensures Delay(g, p) == Delay(g, p[..k + 1]) + Delay(g, p[k..])
  {
    assert IsPath(g, p[..k + 1]);
    assert IsPath(g, p[k..]);
    if k > 0 {
      var tail := p[1..];
      DelaySplit(g, tail, k - 1);
      assert tail[..k] == p[..k + 1][1..];
      assert tail[k - 1..] == p[k..];
    }
  }

  /**
   * Cutting the cycle `w[i..j]` out of a walk whose nodes i and j agree leaves
   * a walk between the same endpoints with no larger delay.
   */
  lemma CutCycle(g: Graph, w: Path, i: nat, j: nat)
    requires WellFormed(g) && IsPath(g, w)
    requires i < j < |w| && w[i] == w[j]
    ensures var cut := w[..i + 1] + w[j..][1..];
            && IsPath(g, cut) && cut[0] == w[0] && cut[|cut| - 1] == w[|w| - 1]
            && Delay(g, cut) <= Delay(g, w)
  {
    var head, rest := w[..i + 1], w[j..];
    DelaySplit(g, w, i);
    DelaySplit(g, w[i..], j - i);
    assert w[i..][j - i..] == rest;
    var cut := head + rest[1..];
    JoinIsPath(g, head, rest);
    DelaySplit(g, cut, i);
    assert cut[..i + 1] == head;
    assert cut[i..] == rest;
  }

  /** Cutting `w[i+1..j]` out of a sequence leaves only nodes of the sequence. */
  lemma CutKeepsNodes(w: Path, i: nat, j: nat)
    requires i < j < |w|
    ensures forall x :: x in w[..i + 1] + w[j..][1..] ==> x in w
  {
    var cut := w[..i + 1] + w[j..][1..];
    forall k | 0 <= k < |cut|
      ensures cut[k] in w
    {
      if k <= i {
        assert cut[k] == w[k];
      } else {
        assert cut[k] == w[k - i + j];
      }
    }
  }

  /**
   * Cutting the cycles out of a walk leaves a simple path between the same
   * endpoints whose delay is no larger (delays are non-negative).
   */
  lemma {:induction false} Shortcut(g: Graph, w: Path) returns (s: Path)
    requires WellFormed(g) && IsPath(g, w)
    ensures SimplePath(g, s, w[0], w[|w| - 1])
    ensures forall k :: 0 <= k < |s| ==> s[k] in w
    ensures Delay(g, s) <= Delay(g, w)
    decreases |w|
  {
    if Distinct(w) {
      return w;
    }
    var i, j :| 0 <= i < j < |w| && w[i] == w[j];
    var shorter := w[..i + 1] + w[j..][1..];
    CutCycle(g, w, i, j);
    CutKeepsNodes(w, i, j);
    s := Shortcut(g, shorter);
    forall k | 0 <= k < |s|
      ensures s[k] in w
    {
      assert s[k] in shorter;
    }
  }
}
