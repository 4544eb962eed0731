/** Finite directed graphs, as far as the compiler's orderings need them. */
module Graphs {

  /** Nodes are 0..n-1. */
  datatype Graph = Graph(n: nat, edge: (nat, nat) -> bool)

  ghost predicate Path(g: Graph, p: seq<nat>) {
    && |p| > 0
    && (forall k :: 0 <= k < |p| ==> p[k] < g.n)
    && (forall k :: 0 <= k < |p| - 1 ==> g.edge(p[k], p[k + 1]))
  }

  ghost predicate Cycle(g: Graph, p: seq<nat>) {
    Path(g, p) && |p| >= 2 && p[0] == p[|p| - 1]
  }

  ghost predicate Acyclic(g: Graph) {
    !exists p :: Cycle(g, p)
  }

  ghost predicate Distinct(p: seq<nat>) {
    forall i, j :: 0 <= i < j < |p| ==> p[i] != p[j]
  }

  /** Every node comes after all its successors. */
  ghost predicate Layered(g: Graph, order: seq<nat>) {
    Distinct(order) &&
    forall k: nat, w: nat :: k < |order| && w < g.n && g.edge(order[k], w) ==> w in order[..k]
  }

  lemma {:induction false} DistinctFits(p: seq<nat>, s: set<nat>)
    requires Distinct(p) && forall k :: 0 <= k < |p| ==> p[k] in s
    ensures |p| <= |s|
  {
    if p != [] {
      var n := |p| - 1;
      DistinctFits(p[..n], s - {p[n]});
    }
  }

  lemma {:induction false} Below(n: nat) returns (s: set<nat>)
    ensures |s| == n && forall v :: v in s <==> 0 <= v < n
  {
    if n == 0 { s := {}; } else {
      var r := Below(n - 1);
      s := r + {n - 1};
    }
  }

  lemma DistinctBelow(p: seq<nat>, n: nat)
    requires Distinct(p) && forall k :: 0 <= k < |p| ==> p[k] < n
    ensures |p| <= n
  {
    var s := Below(n);
    DistinctFits(p, s);
  }

  /** Along a path through a layered order the positions go down. */
  lemma {:induction false} PathDescends(g: Graph, order: seq<nat>, p: seq<nat>, k: nat) returns (i: nat, j: nat)
    requires Layered(g, order) && Path(g, p) && k < |p| && p[0] in order
    ensures i < |order| && j < |order| && order[i] == p[0] && order[j] == p[k] && j + k <= i
    decreases k
  {
    if k == 0 {
      i :| 0 <= i < |order| && order[i] == p[0];
      j := i;
    } else {
      var l;
      i, l := PathDescends(g, order, p, k - 1);
      assert g.edge(p[k - 1], p[k - 1 + 1]);
      assert p[k] in order[..l];
      j :| 0 <= j < l && order[..l][j] == p[k];
    }
  }

  /** A layered order of all nodes that have successors excludes cycles. */
  lemma LayeredAcyclic(g: Graph, order: seq<nat>)
    requires Layered(g, order)
    requires forall u: nat, v: nat :: u < g.n && v < g.n && g.edge(u, v) ==> u in order
    ensures Acyclic(g)
  {
    forall p ensures !Cycle(g, p) {
      if Cycle(g, p) {
        assert g.edge(p[0], p[0 + 1]);
        var i, j := PathDescends(g, order, p, |p| - 1);
        assert false;
      }
    }
  }

  /** A path that comes back to one of its nodes closes a cycle. */
  lemma PathCloses(g: Graph, p: seq<nat>, v: nat)
    requires Path(g, p) && v in p && g.edge(p[|p| - 1], v)
    ensures !Acyclic(g)
  {
    var k :| 0 <= k < |p| && p[k] == v;
    var c := p[k..] + [v];
    assert Cycle(g, c);
  }

  ghost predicate Continues(g: Graph, s: set<nat>, u: nat) {
    u < g.n && exists v: nat :: v in s && g.edge(u, v)
  }

  /** If every node of a nonempty set has a successor in the set, there is a cycle. */
  lemma StuckHasCycle(g: Graph, s: set<nat>)
    requires s != {} && forall u :: u in s ==> Continues(g, s, u)
    ensures !Acyclic(g)
  {
    var u :| u in s;
    assert Continues(g, s, u);
    WalkOn(g, s, [u]);
  }

  lemma Successor(g: Graph, s: set<nat>, u: nat) returns (v: nat)
    requires Continues(g, s, u)
    ensures v in s && g.edge(u, v)
  {
    v :| v in s && g.edge(u, v);
  }

  lemma PathGrows(g: Graph, p: seq<nat>, v: nat)
    requires Path(g, p) && v < g.n && g.edge(p[|p| - 1], v)
    ensures Path(g, p + [v])
  {
  }

  lemma {:induction false} WalkOn(g: Graph, s: set<nat>, p: seq<nat>)
    requires forall u :: u in s ==> Continues(g, s, u)
    requires Path(g, p) && Distinct(p) && forall k :: 0 <= k < |p| ==> p[k] in s
    ensures !Acyclic(g)
    decreases |s| - |p|
  {
    var v := Successor(g, s, p[|p| - 1]);
    if v in p {
      PathCloses(g, p, v);
    } else {
      assert Continues(g, s, v);
      PathGrows(g, p, v);
      hide Path, Continues, Acyclic;
      DistinctFits(p + [v], s);
      WalkOn(g, s, p + [v]);
    }
  }
}
