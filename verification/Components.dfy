/** What a listing of strongly connected components means, and what can be read off it
    (scripts/analyze_root_crate.py). */
module Components {
  import opened Digraph

  // ---------------------------------------------------------------- what the answer means

  ghost predicate IsComponent<V(!new)>(g: Graph<V>, c: seq<V>) {
    |c| > 0 && forall x, y :: x in c ==> (y in c <==> Mutual(g, x, y))
  }

  predicate Listed<V(==)>(result: seq<seq<V>>, x: V) {
    exists i :: 0 <= i < |result| && x in result[i]
  }

  predicate Disjoint<V(==)>(result: seq<seq<V>>) {
    forall i, j, x :: 0 <= i < j < |result| && x in result[i] ==> x !in result[j]
  }

  // Every edge out of a component leads to that component or to one listed before it.
  predicate LeavesFirst<V>(g: Graph<V>, result: seq<seq<V>>) {
    forall i, x, w :: 0 <= i < |result| && x in result[i] && w in Succ(g, x) ==> Listed(result[..i + 1], w)
  }

  ghost predicate GoodResult<V(!new)>(g: Graph<V>, result: seq<seq<V>>) {
    && (forall i :: 0 <= i < |result| ==> IsComponent(g, result[i]) && Distinct(result[i]))
    && Disjoint(result)
    && LeavesFirst(g, result)
  }

  // ---------------------------------------------------------------- what the answer tells

  ghost predicate IsAnswer<V(!new)>(g: Graph<V>, result: seq<seq<V>>) {
    (forall x :: Listed(result, x) <==> x in Vertices(g)) && GoodResult(g, result)
  }

  predicate Together<V(==)>(result: seq<seq<V>>, x: V, y: V) {
    exists i :: 0 <= i < |result| && x in result[i] && y in result[i]
  }

  // Two vertices share a component exactly when each reaches the other.
  lemma TogetherIffMutual<V(!new)>(g: Graph<V>, result: seq<seq<V>>, x: V, y: V)
    requires IsAnswer(g, result) && x in Vertices(g) && y in Vertices(g)
    ensures Together(result, x, y) <==> Mutual(g, x, y)
  {
  }

  lemma LowerListed<V>(result: seq<seq<V>>, i: nat, x: V)
    requires i < |result| && Listed(result[..i + 1], x)
    ensures exists j :: 0 <= j <= i && x in result[j]
  {
  }

  // Whatever a component reaches is listed no later than the component itself.
  lemma ReverseTopological<V(!new)>(g: Graph<V>, result: seq<seq<V>>, i: nat, j: nat, x: V, y: V)
    requires IsAnswer(g, result) && i < |result| && j < |result|
    requires x in result[i] && y in result[j] && Reach(g, x, y)
    ensures j <= i
  {
    hide Reach, IsComponent, Succ, Vertices, Listed, Distinct;
    var low := set k, z | 0 <= k <= i && z in result[k] :: z;
    forall a, w | a in low && w in Succ(g, a) ensures w in low {
      var k :| 0 <= k <= i && a in result[k];
      LowerListed(result, k, w);
    }
    ReachStays(g, low, x, y);
    var k :| 0 <= k <= i && y in result[k];
  }

  // A vertex lies on a cycle exactly when its component has a second member or it has a loop.
  lemma OnCycleIff<V(!new)>(g: Graph<V>, result: seq<seq<V>>, i: nat, x: V)
    requires IsAnswer(g, result) && i < |result| && x in result[i]
    ensures OnCycle(g, x) <==> |result[i]| > 1 || x in Succ(g, x)
  {
    hide Reach, LeavesFirst, Disjoint, Vertices, Succ, Listed;
    var c := result[i];
    assert IsComponent(g, c) && Distinct(c);
    if OnCycle(g, x) && x !in Succ(g, x) {
      var w :| w in Succ(g, x) && Reach(g, w, x);
      ReachEdge(g, x, w);
      assert Mutual(g, x, w);
    }
    if x in Succ(g, x) {
      ReachSelf(g, x);
    }
    if |c| > 1 {
      var y := if c[0] == x then c[1] else c[0];
      assert y in c && Mutual(g, x, y);
      var w := ReachFirstStep(g, x, y);
      ReachTrans(g, w, y, x);
    }
  }

  function Cycles<V>(sccs: seq<seq<V>>): seq<seq<V>> {
    if sccs == [] then []
    else if |sccs[0]| > 1 then [sccs[0]] + Cycles(sccs[1..])
    else Cycles(sccs[1..])
  }

  lemma {:induction false} CyclesMembers<V(!new)>(sccs: seq<seq<V>>, c: seq<V>)
    ensures c in Cycles(sccs) <==> c in sccs && |c| > 1
  {
    if sccs != [] {
      CyclesMembers(sccs[1..], c);
    }
  }

  // The report "(none: the in-root module graph is already a DAG)".
  lemma NoCyclesIffAcyclic<V(!new)>(g: Graph<V>, result: seq<seq<V>>)
    requires IsAnswer(g, result) && LoopFree(g)
    ensures Cycles(result) == [] <==> Acyclic(g)
  {
    hide Reach, GoodResult, Vertices, Succ, OnCycle;
    if Cycles(result) != [] {
      var c := Cycles(result)[0];
      CyclesMembers(result, c);
      var i :| 0 <= i < |result| && result[i] == c;
      OnCycleIff(g, result, i, c[0]);
    }
    forall x | Cycles(result) == [] ensures !OnCycle(g, x) {
      if x in Vertices(g) {
        assert Listed(result, x);
        var i :| 0 <= i < |result| && x in result[i];
        OnCycleIff(g, result, i, x);
        CyclesMembers(result, result[i]);
      } else {
        OutsideNoCycle(g, x);
      }
    }
  }

  lemma OutsideNoCycle<V(!new)>(g: Graph<V>, x: V)
    requires x !in Vertices(g)
    ensures !OnCycle(g, x)
  {
  }
}
