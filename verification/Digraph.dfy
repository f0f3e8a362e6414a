/** Finite directed graphs, walks, reachability and cycles: the vocabulary in which the
    crate-split planner and the process-tree walk are specified. */
module Digraph {

  // Adjacency sets, as the planner keeps them: a vertex that is no key has no successors.
  type Graph<V> = map<V, set<V>>

  function Succ<V>(g: Graph<V>, v: V): set<V> {
    if v in g then g[v] else {}
  }

  // Keys and everything they point at.
  function Vertices<V>(g: Graph<V>): set<V> {
    g.Keys + set u, w | u in g && w in g[u] :: w
  }

  ghost predicate Walk<V>(g: Graph<V>, p: seq<V>, x: V, y: V) {
    && |p| > 0 && p[0] == x && p[|p| - 1] == y
    && forall i :: 0 <= i < |p| - 1 ==> p[i + 1] in Succ(g, p[i])
  }

  ghost predicate Reach<V(!new)>(g: Graph<V>, x: V, y: V) {
    exists p :: Walk(g, p, x, y)
  }

  ghost predicate Mutual<V(!new)>(g: Graph<V>, x: V, y: V) {
    Reach(g, x, y) && Reach(g, y, x)
  }

  // Some walk of at least one edge leads from x back to x.
  ghost predicate OnCycle<V(!new)>(g: Graph<V>, x: V) {
    exists w :: w in Succ(g, x) && Reach(g, w, x)
  }

  ghost predicate Acyclic<V(!new)>(g: Graph<V>) {
    forall x :: !OnCycle(g, x)
  }

  ghost predicate LoopFree<V(!new)>(g: Graph<V>) {
    forall x :: x !in Succ(g, x)
  }

  ghost predicate Closed<V>(g: Graph<V>, s: set<V>) {
    forall x, w :: x in s && w in Succ(g, x) ==> w in s
  }

  lemma ReachSelf<V(!new)>(g: Graph<V>, x: V)
    ensures Reach(g, x, x)
  {
    assert Walk(g, [x], x, x);
  }

  lemma ReachEdge<V(!new)>(g: Graph<V>, x: V, y: V)
    requires y in Succ(g, x)
    ensures Reach(g, x, y)
  {
    assert Walk(g, [x, y], x, y);
  }

  lemma ReachTrans<V(!new)>(g: Graph<V>, x: V, y: V, z: V)
    requires Reach(g, x, y) && Reach(g, y, z)
    ensures Reach(g, x, z)
  {
    var p :| Walk(g, p, x, y);
    var q :| Walk(g, q, y, z);
    assert Walk(g, p + q[1..], x, z);
  }

  // A walk never leaves a closed set.
  lemma {:induction false} WalkStays<V(!new)>(g: Graph<V>, s: set<V>, p: seq<V>, x: V, y: V)
    requires Closed(g, s) && x in s && Walk(g, p, x, y)
    ensures y in s
    decreases |p|
  {
    if |p| > 1 {
      assert p[0 + 1] in Succ(g, p[0]);
      assert Walk(g, p[1..], p[1], y);
      WalkStays(g, s, p[1..], p[1], y);
    }
  }

  lemma ReachStays<V(!new)>(g: Graph<V>, s: set<V>, x: V, y: V)
    requires Closed(g, s) && x in s && Reach(g, x, y)
    ensures y in s
  {
    var p :| Walk(g, p, x, y);
    WalkStays(g, s, p, x, y);
  }

  lemma ReachFirstStep<V(!new)>(g: Graph<V>, x: V, y: V) returns (w: V)
    requires Reach(g, x, y) && x != y
    ensures w in Succ(g, x) && Reach(g, w, y)
  {
    var p :| Walk(g, p, x, y);
    assert p[0 + 1] in Succ(g, p[0]);
    assert Walk(g, p[1..], p[1], y);
    w := p[1];
  }

  // The edges g has inside c are also edges of h, and no walk to y leaves c and comes back.
  ghost predicate Carries<V(!new)>(g: Graph<V>, h: Graph<V>, c: set<V>, y: V) {
    forall a, b :: a in c && b in Succ(g, a) && Reach(g, b, y) ==> b in c && b in Succ(h, a)
  }

  lemma {:induction false} WalkCarries<V(!new)>(g: Graph<V>, h: Graph<V>, c: set<V>, p: seq<V>, x: V, y: V)
    requires Carries(g, h, c, y) && x in c && Walk(g, p, x, y)
    ensures Reach(h, x, y)
    decreases |p|
  {
    if |p| == 1 {
      ReachSelf(h, x);
    } else {
      assert p[0 + 1] in Succ(g, p[0]);
      assert Walk(g, p[1..], p[1], y);
      assert Reach(g, p[1], y);
      hide Reach;
      assert p[1] in c && p[1] in Succ(h, x);
      WalkCarries(g, h, c, p[1..], p[1], y);
      ReachEdge(h, x, p[1]);
      ReachTrans(h, x, p[1], y);
    }
  }

  lemma ReachCarries<V(!new)>(g: Graph<V>, h: Graph<V>, c: set<V>, x: V, y: V)
    requires Carries(g, h, c, y) && x in c && Reach(g, x, y)
    ensures Reach(h, x, y)
  {
    var p :| Walk(g, p, x, y);
    WalkCarries(g, h, c, p, x, y);
  }

  ghost predicate Subgraph<V(!new)>(h: Graph<V>, g: Graph<V>) {
    forall a, b :: b in Succ(h, a) ==> b in Succ(g, a)
  }

  lemma ReachSubgraph<V(!new)>(h: Graph<V>, g: Graph<V>, x: V, y: V)
    requires Subgraph(h, g) && Reach(h, x, y)
    ensures Reach(g, x, y)
  {
    var p :| Walk(h, p, x, y);
    assert Walk(g, p, x, y);
  }

  // Distinct members: a listing of a set.
  predicate Distinct<V(==)>(s: seq<V>) {
    forall i, j :: 0 <= i < j < |s| ==> s[i] != s[j]
  }

  function Elems<V>(s: seq<V>): set<V> {
    set x | x in s
  }

  lemma {:induction false} DistinctSize<V>(s: seq<V>)
    requires Distinct(s)
    ensures |Elems(s)| == |s|
  {
    if s != [] {
      DistinctSize(s[1..]);
      assert Elems(s) == {s[0]} + Elems(s[1..]);
    }
  }
}
