/** Weighted dependency graphs, vertex orders and the back-edges an order leaves
    (scripts/analyze_root_crate.py, the feedback arc set report). */
module Feedback {
  import opened Digraph
  import opened Sums

  // For every module its references into the cycle, with the number of referencing lines.
  type Weighted<V> = map<V, map<V, nat>>

  function Skeleton<V>(out: Weighted<V>): Graph<V> {
    map u | u in out :: out[u].Keys
  }

  predicate Edge<V>(out: Weighted<V>, u: V, v: V) {
    u in out && v in out[u]
  }

  // Exactly the vertices `nodes`, and edges stay among them.
  predicate WellFormed<V>(out: Weighted<V>, nodes: set<V>) {
    nodes == out.Keys && forall u :: u in out ==> out[u].Keys <= nodes
  }

  function W<V>(out: Weighted<V>, u: V, v: V): nat {
    if Edge(out, u, v) then out[u][v] else 0
  }

  // Weight from u into the set t, and from the set t into v.
  ghost function OutW<V(!new)>(out: Weighted<V>, u: V, t: set<V>): int {
    Sum(t, v => W(out, u, v))
  }

  ghost function InW<V(!new)>(out: Weighted<V>, t: set<V>, v: V): int {
    Sum(t, u => W(out, u, v))
  }

  // Weight of all edges inside t.
  ghost function Inner<V(!new)>(out: Weighted<V>, t: set<V>): int {
    Sum(t, u => OutW(out, u, t))
  }

  ghost function Score<V(!new)>(out: Weighted<V>, t: set<V>, n: V): int {
    OutW(out, n, t) - InW(out, t, n)
  }

  // ---------------------------------------------------------------- orders

  predicate Before<V(==)>(order: seq<V>, v: V, u: V) {
    exists i, j :: 0 <= i < j < |order| && order[i] == v && order[j] == u
  }

  // An edge u -> v that points backwards.
  predicate Back<V(==)>(out: Weighted<V>, order: seq<V>, u: V, v: V) {
    Edge(out, u, v) && Before(order, v, u)
  }

  // Weight of the edges pointing backwards in `order`, target by target.
  ghost function BackWeight<V(!new)>(out: Weighted<V>, order: seq<V>): int {
    if order == [] then 0
    else InW(out, Elems(order[1..]), order[0]) + BackWeight(out, order[1..])
  }

  predicate Orders<V(==)>(order: seq<V>, nodes: set<V>) {
    Distinct(order) && Elems(order) == nodes
  }

  // What is left after cutting every back-edge.
  function Kept<V(==)>(out: Weighted<V>, order: seq<V>): Graph<V> {
    map u | u in out :: set v | v in out[u] && !Before(order, v, u)
  }

  // ---------------------------------------------------------------- sums over a vertex set

  lemma WeightNat<V(!new)>(out: Weighted<V>, t: set<V>, v: V)
    ensures OutW(out, v, t) >= 0 && InW(out, t, v) >= 0
  {
    SumNonNegative(t, u => W(out, u, v));
    SumNonNegative(t, u => W(out, v, u));
  }

  lemma InTake<V(!new)>(out: Weighted<V>, t: set<V>, p: V, v: V)
    requires p in t
    ensures InW(out, t, v) == W(out, p, v) + InW(out, t - {p}, v)
  {
    SumTake(t, u => W(out, u, v), p);
  }

  lemma OutTake<V(!new)>(out: Weighted<V>, t: set<V>, p: V, v: V)
    requires p in t
    ensures OutW(out, v, t) == W(out, v, p) + OutW(out, v, t - {p})
  {
    SumTake(t, u => W(out, v, u), p);
  }

  // Taking p out of t takes out its edges to and from the rest, and its loop.
  lemma InnerTake<V(!new)>(out: Weighted<V>, t: set<V>, p: V)
    requires p in t
    ensures Inner(out, t) == Inner(out, t - {p}) + OutW(out, p, t - {p}) + InW(out, t - {p}, p) + W(out, p, p)
  {
    var r := t - {p};
    SumTake(t, u => OutW(out, u, t), p);
    OutTake(out, t, p, p);
    forall u | u in r ensures OutW(out, u, t) == OutW(out, u, r) + W(out, u, p) {
      OutTake(out, t, p, u);
    }
    SumPlus(r, u => OutW(out, u, r), u => W(out, u, p), u => OutW(out, u, t));
  }

  lemma InnerShrinks<V(!new)>(out: Weighted<V>, t: set<V>, p: V)
    requires p in t
    ensures Inner(out, t - {p}) <= Inner(out, t)
  {
    InnerTake(out, t, p);
    WeightNat(out, t - {p}, p);
  }

  // Scores over a set sum to zero: every inner edge leaves once and enters once.
  lemma ScoresCancel<V(!new)>(out: Weighted<V>, t: set<V>)
    ensures Sum(t, n => Score(out, t, n)) == 0
  {
    var f: (V, V) -> int := (u, v) => W(out, u, v);
    SumSwap(t, t, f);
    forall u | u in t ensures Row(t, f, u) == OutW(out, u, t) {
      RowSame(t, f, u, v => W(out, u, v));
    }
    SumSame(t, u => Row(t, f, u), u => OutW(out, u, t));
    forall v | v in t ensures Column(t, f, v) == InW(out, t, v) {
      ColumnSame(t, f, v, u => W(out, u, v));
    }
    SumSame(t, v => Column(t, f, v), v => InW(out, t, v));
    SumPlus(t, n => Score(out, t, n), n => InW(out, t, n), n => OutW(out, n, t));
  }

  lemma BestScore<V(!new)>(out: Weighted<V>, t: set<V>, p: V)
    requires p in t && forall n :: n in t ==> Score(out, t, n) <= Score(out, t, p)
    ensures Score(out, t, p) >= 0
  {
    ScoresCancel(out, t);
    if Score(out, t, p) < 0 {
      SumNegative(t, n => Score(out, t, n));
    }
  }

  lemma NoneIn<V(!new)>(out: Weighted<V>, t: set<V>, v: V)
    requires forall u :: u in t ==> !Edge(out, u, v)
    ensures InW(out, t, v) == 0
  {
    SumZero(t, u => W(out, u, v));
  }

  // ---------------------------------------------------------------- cutting the back-edges

  lemma KeptForward<V(!new)>(out: Weighted<V>, order: seq<V>, i: nat, w: V)
    requires WellFormed(out, Elems(order)) && Distinct(order) && i < |order| && w in Succ(Kept(out, order), order[i])
    ensures exists j :: i <= j < |order| && order[j] == w
  {
  }

  // Cutting all back-edges of any order leaves no cycle except single-vertex loops.
  lemma KeptCycles<V(!new)>(out: Weighted<V>, order: seq<V>, x: V)
    requires WellFormed(out, Elems(order)) && Distinct(order)
    ensures OnCycle(Kept(out, order), x) <==> Edge(out, x, x)
  {
    var k := Kept(out, order);
    hide Reach, Kept, Succ, WellFormed;
    if OnCycle(k, x) {
      var w :| w in Succ(k, x) && Reach(k, w, x);
      assert x in Elems(order) by { KeptSource(out, order, x, w); }
      var i :| 0 <= i < |order| && order[i] == x;
      KeptForward(out, order, i, w);
      var j :| i <= j < |order| && order[j] == w;
      var later := set m | j <= m < |order| :: order[m];
      forall a, b | a in later && b in Succ(k, a) ensures b in later {
        var m :| j <= m < |order| && order[m] == a;
        KeptForward(out, order, m, b);
      }
      ReachStays(k, later, w, x);
      KeptSource(out, order, x, w);
    }
    if Edge(out, x, x) {
      KeptLoop(out, order, x);
      ReachSelf(k, x);
    }
  }

  lemma KeptSource<V(!new)>(out: Weighted<V>, order: seq<V>, x: V, w: V)
    requires w in Succ(Kept(out, order), x) && WellFormed(out, Elems(order))
    ensures x in Elems(order) && Edge(out, x, w)
  {
  }

  lemma KeptLoop<V(!new)>(out: Weighted<V>, order: seq<V>, x: V)
    requires Distinct(order) && Edge(out, x, x)
    ensures x in Succ(Kept(out, order), x)
  {
  }

  lemma SkeletonLoops<V(!new)>(out: Weighted<V>)
    ensures LoopFree(Skeleton(out)) <==> forall x :: !Edge(out, x, x)
  {
    forall x ensures x in Succ(Skeleton(out), x) <==> Edge(out, x, x) {
    }
  }

  lemma CuttingBreaksCycles<V(!new)>(out: Weighted<V>, order: seq<V>)
    requires WellFormed(out, Elems(order)) && Distinct(order)
    ensures Acyclic(Kept(out, order)) <==> LoopFree(Skeleton(out))
  {
    hide OnCycle, WellFormed, Kept, LoopFree, Edge;
    SkeletonLoops(out);
    forall x ensures OnCycle(Kept(out, order), x) <==> Edge(out, x, x) {
      KeptCycles(out, order, x);
    }
  }
}
