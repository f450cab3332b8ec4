/**
 * Enumeration of all simple paths between two switches, in the order a
 * depth-first search over the successor lists finds them: a visited node is
 * skipped, reaching the target yields the path and is never extended further,
 * and a source equal to the target yields nothing.
 */
module SimplePaths {
  import opened Wrappers
  import opened Graphs

  function Elems(p: Path): set<Node> {
    set x | x in p
  }

  /** All simple paths to `dst` that extend the simple path `p`, in search order. */
  function Extensions(g: Graph, p: Path, dst: Node): (r: seq<Path>)
    requires WellFormed(g) && IsPath(g, p) && Distinct(p)
    ensures forall q :: q in r ==> |q| > |p| && q[..|p|] == p && SimplePath(g, q, p[0], dst)
    decreases g.succ.Keys - Elems(p), 1, 0
  {
    Branches(g, p, g.succ[p[|p| - 1]], dst)
  }

  /** The paths found through each successor in `kids`, in their order. */
  function Branches(g: Graph, p: Path, kids: seq<Node>, dst: Node): (r: seq<Path>)
    requires WellFormed(g) && IsPath(g, p) && Distinct(p)
    requires forall k :: k in kids ==> Edge(g, p[|p| - 1], k)
    ensures forall q :: q in r ==> |q| > |p| && q[..|p|] == p && SimplePath(g, q, p[0], dst)
    decreases g.succ.Keys - Elems(p), 0, |kids|
  {
    if kids == [] then []
    else
      assert kids[0] in kids;
      assert forall k :: k in kids[1..] ==> k in kids;
      Branch(g, p, kids[0], dst) + Branches(g, p, kids[1..], dst)
  }

  /** The paths found by stepping from the end of `p` to its successor `c`. */
  function Branch(g: Graph, p: Path, c: Node, dst: Node): (r: seq<Path>)
    requires WellFormed(g) && IsPath(g, p) && Distinct(p)
    requires Edge(g, p[|p| - 1], c)
    ensures forall q :: q in r ==> |q| > |p| && q[..|p|] == p && SimplePath(g, q, p[0], dst)
    decreases g.succ.Keys - Elems(p), 0, 0
  {
    if c in p then []
    else
      var next := p + [c];
      assert next[..|p|] == p;
      assert IsPath(g, next) && Distinct(next);
      assert Elems(next) == Elems(p) + {c};
      if c == dst then [next] else Extensions(g, next, dst)
  }

  /**
   * networkx's `all_simple_paths`: an error for an endpoint that is not a
   * node, nothing when source and target coincide, otherwise the search from
   * the source.
   */
  function AllSimplePaths(g: Graph, src: Node, dst: Node): (r: Result<seq<Path>, PathError>)
    requires WellFormed(g)
    ensures r.Err? <==> src !in g.succ || dst !in g.succ
    ensures r.Ok? ==> forall q :: q in r.value ==> SimplePath(g, q, src, dst) && |q| >= 2
  {
    if src !in g.succ then Err(NodeNotFound(src))
    else if dst !in g.succ then Err(NodeNotFound(dst))
    else if src == dst then Ok([])
    else Ok(Extensions(g, [src], dst))
  }

  lemma {:induction false} BranchesContain(g: Graph, p: Path, kids: seq<Node>, dst: Node, c: Node, q: Path)
    requires WellFormed(g) && IsPath(g, p) && Distinct(p)
    requires forall k :: k in kids ==> Edge(g, p[|p| - 1], k)
    requires c in kids && q in Branch(g, p, c, dst)
    ensures q in Branches(g, p, kids, dst)
    decreases |kids|
  {
    if kids[0] != c {
      assert forall k :: k in kids[1..] ==> k in kids;
      BranchesContain(g, p, kids[1..], dst, c, q);
    }
  }

  /** Every simple path to `dst` through the prefix `p` is found by the search. */
  lemma {:induction false} ExtensionsComplete(g: Graph, p: Path, dst: Node, q: Path)
    requires WellFormed(g) && IsPath(g, p) && Distinct(p)
    requires SimplePath(g, q, p[0], dst) && |q| > |p| && q[..|p|] == p
    ensures q in Extensions(g, p, dst)
    decreases |q| - |p|
  {
    var last, c := p[|p| - 1], q[|p|];
    assert q[|p| - 1] == last;
    assert Edge(g, last, c);
    assert c !in p by {
      forall i | 0 <= i < |p| ensures p[i] != c {
        assert p[i] == q[i];
      }
    }
    var next := p + [c];
    assert q[..|p| + 1] == next;
    if c == dst {
      assert |q| == |p| + 1;
      assert q == next;
    } else {
      assert IsPath(g, next) && Distinct(next);
      ExtensionsComplete(g, next, dst, q);
    }
    BranchesContain(g, p, g.succ[last], dst, c, q);
  }

  /** `all_simple_paths` yields every simple path of at least one edge. */
  lemma AllSimplePathsComplete(g: Graph, src: Node, dst: Node, q: Path)
    requires WellFormed(g)
    requires SimplePath(g, q, src, dst) && |q| >= 2
    ensures AllSimplePaths(g, src, dst).Ok? && q in AllSimplePaths(g, src, dst).value
  {
    assert q[|q| - 1] != q[0];
    assert q[..1] == [src];
    ExtensionsComplete(g, [src], dst, q);
  }
}
