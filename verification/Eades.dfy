/** The greedy vertex order of Eades, Lin and Smyth (scripts/analyze_root_crate.py). */
module Eades {
  import opened Digraph
  import opened Sums
  import opened Feedback

  predicate IsSink<V>(out: Weighted<V>, t: set<V>, n: V) {
    forall v :: v in t ==> !Edge(out, n, v)
  }

  predicate IsSource<V>(out: Weighted<V>, t: set<V>, n: V) {
    forall u :: u in t ==> !Edge(out, u, n)
  }

  // Neither peeling rule applies any more.
  predicate Core<V>(out: Weighted<V>, t: set<V>) {
    forall n :: n in t ==> !IsSink(out, t, n) && !IsSource(out, t, n)
  }

  ghost predicate PickedFrom<V(!new)>(out: Weighted<V>, t: set<V>, p: V) {
    p in t && Core(out, t) && forall n :: n in t ==> Score(out, t, n) <= Score(out, t, p)
  }

  // ---------------------------------------------------------------- runs

  datatype How = Sink | Source | Pick

  // A vertex leaves the remainder `rest`, and by which rule.
  datatype Step<V> = Step(vertex: V, how: How, rest: set<V>)

  ghost predicate Legal<V(!new)>(out: Weighted<V>, s: Step<V>) {
    match s.how
    case Sink => s.vertex in s.rest && IsSink(out, s.rest, s.vertex)
    case Source => s.vertex in s.rest && IsSource(out, s.rest, s.vertex)
    case Pick => PickedFrom(out, s.rest, s.vertex)
  }

  function RestAfter<V>(nodes: set<V>, trace: seq<Step<V>>): set<V> {
    if trace == [] then nodes
    else var last := trace[|trace| - 1]; last.rest - {last.vertex}
  }

  // Every step takes, by a rule that applies, a vertex of what the steps before it left over.
  ghost predicate IsRun<V(!new)>(out: Weighted<V>, nodes: set<V>, trace: seq<Step<V>>) {
    trace == [] ||
    var k := |trace| - 1;
    IsRun(out, nodes, trace[..k]) && trace[k].rest == RestAfter(nodes, trace[..k]) && Legal(out, trace[k])
  }

  // Sources and picks, first one first; sinks, last one first.
  function LeftOf<V>(trace: seq<Step<V>>): seq<V> {
    if trace == [] then []
    else
      var k := |trace| - 1;
      LeftOf(trace[..k]) + if trace[k].how.Sink? then [] else [trace[k].vertex]
  }

  function RightOf<V>(trace: seq<Step<V>>): seq<V> {
    if trace == [] then []
    else
      var k := |trace| - 1;
      (if trace[k].how.Sink? then [trace[k].vertex] else []) + RightOf(trace[..k])
  }

  // A run that uses up all nodes, and the order it arranges them in.
  ghost predicate Yields<V(!new)>(out: Weighted<V>, nodes: set<V>, trace: seq<Step<V>>, order: seq<V>) {
    IsRun(out, nodes, trace) && RestAfter(nodes, trace) == {} && order == LeftOf(trace) + RightOf(trace)
  }

  ghost predicate IsGreedyOrder<V(!new)>(out: Weighted<V>, order: seq<V>) {
    exists trace :: Yields(out, Elems(order), trace, order)
  }

  // The vertices in the order they are placed.
  function Placed<V>(trace: seq<Step<V>>): seq<V> {
    if trace == [] then [] else Placed(trace[..|trace| - 1]) + [trace[|trace| - 1].vertex]
  }

  // Some step of the run picked v, by score, while u was still there.
  ghost predicate Excused<V(!new)>(trace: seq<Step<V>>, u: V, v: V) {
    exists i :: 0 <= i < |trace| && trace[i].how.Pick? && trace[i].vertex == v && u in trace[i].rest
  }

  // ---------------------------------------------------------------- what the loop keeps

  ghost predicate LeftOk<V(!new)>(out: Weighted<V>, trace: seq<Step<V>>, left: seq<V>, rest: set<V>) {
    && (forall i, j :: 0 <= i < j < |left| && Edge(out, left[j], left[i]) ==> Excused(trace, left[j], left[i]))
    && (forall i, u :: 0 <= i < |left| && u in rest && Edge(out, u, left[i]) ==> Excused(trace, u, left[i]))
  }

  ghost predicate RightOk<V>(out: Weighted<V>, right: seq<V>, remaining: set<V>) {
    && (forall i, j :: 0 <= i < j < |right| ==> !Edge(out, right[j], right[i]))
    && (forall j, v :: 0 <= j < |right| && v in remaining ==> !Edge(out, right[j], v))
  }

  // Weight entering the left part from anything placed, or still to be placed, after it.
  ghost function LeftWeight<V(!new)>(out: Weighted<V>, left: seq<V>, rest: set<V>): int {
    if left == [] then 0
    else InW(out, Elems(left[1..]) + rest, left[0]) + LeftWeight(out, left[1..], rest)
  }

  ghost predicate Placement<V>(nodes: set<V>, left: seq<V>, remaining: set<V>, right: seq<V>) {
    && Distinct(left + right)
    && remaining !! Elems(left + right)
    && remaining + Elems(left + right) == nodes
  }

  ghost predicate Greedy<V(!new)>(out: Weighted<V>, nodes: set<V>, trace: seq<Step<V>>, left: seq<V>, remaining: set<V>,
                                  right: seq<V>) {
    && Placement(nodes, left, remaining, right)
    && LeftOk(out, trace, left, remaining + Elems(right))
    && RightOk(out, right, remaining)
    && 2 * LeftWeight(out, left, remaining + Elems(right)) + Inner(out, remaining) <= Inner(out, nodes)
  }

  lemma ElemsAppend<V>(s: seq<V>, t: seq<V>)
    ensures Elems(s + t) == Elems(s) + Elems(t)
  {
  }

  lemma GreedyStart<V(!new)>(out: Weighted<V>, nodes: set<V>)
    ensures Greedy(out, nodes, [], [], nodes, [])
  {
  }

  lemma {:induction false} LeftWeightAppend<V(!new)>(out: Weighted<V>, left: seq<V>, n: V, rest: set<V>)
    requires n in rest
    ensures LeftWeight(out, left + [n], rest - {n}) == LeftWeight(out, left, rest) + InW(out, rest - {n}, n)
  {
    if left == [] {
      assert (left + [n])[1..] == [] && Elems((left + [n])[1..]) + (rest - {n}) == rest - {n};
    } else {
      assert (left + [n])[1..] == left[1..] + [n];
      ElemsAppend(left[1..], [n]);
      assert Elems([n]) == {n};
      assert Elems(left[1..] + [n]) + (rest - {n}) == Elems(left[1..]) + rest;
      LeftWeightAppend(out, left[1..], n, rest);
    }
  }

  lemma PlaceLeft<V>(nodes: set<V>, left: seq<V>, remaining: set<V>, right: seq<V>, n: V)
    requires Placement(nodes, left, remaining, right) && n in remaining
    ensures Placement(nodes, left + [n], remaining - {n}, right)
    ensures remaining + Elems(right) - {n} == (remaining - {n}) + Elems(right)
  {
    ElemsAppend(left, right);
    ElemsAppend(left + [n], right);
    ElemsAppend(left, [n]);
    var old' := left + right;
    var new' := left + [n] + right;
    forall i, j | 0 <= i < j < |new'| ensures new'[i] != new'[j] {
      var a := if i < |left| then i else i - 1;
      var b := if j < |left| then j else j - 1;
      if i == |left| {
        assert new'[j] == old'[b] && old'[b] in Elems(old');
      } else if j == |left| {
        assert new'[i] == old'[a] && old'[a] in Elems(old');
      } else {
        assert new'[i] == old'[a] && new'[j] == old'[b];
      }
    }
  }

  lemma PlaceRight<V>(nodes: set<V>, left: seq<V>, remaining: set<V>, right: seq<V>, n: V)
    requires Placement(nodes, left, remaining, right) && n in remaining
    ensures Placement(nodes, left, remaining - {n}, [n] + right)
    ensures remaining + Elems(right) == (remaining - {n}) + Elems([n] + right)
  {
    PlaceLeft(nodes, left, remaining, right, n);
    ElemsAppend([n], right);
    assert left + [n] + right == left + ([n] + right);
  }

  lemma ExcusedLater<V(!new)>(trace: seq<Step<V>>, s: Step<V>)
    ensures forall u, v :: Excused(trace, u, v) ==> Excused(trace + [s], u, v)
  {
    forall u, v | Excused(trace, u, v) ensures Excused(trace + [s], u, v) {
      var i :| 0 <= i < |trace| && trace[i].how.Pick? && trace[i].vertex == v && u in trace[i].rest;
      assert (trace + [s])[i] == trace[i];
    }
  }

  // A sink goes to the front of the right part.
  lemma SinkKeeps<V(!new)>(out: Weighted<V>, nodes: set<V>, trace: seq<Step<V>>, left: seq<V>, remaining: set<V>,
                           right: seq<V>, n: V)
    requires Greedy(out, nodes, trace, left, remaining, right) && n in remaining && IsSink(out, remaining, n)
    ensures Greedy(out, nodes, trace + [Step(n, Sink, remaining)], left, remaining - {n}, [n] + right)
  {
    hide Placement, LeftWeight, Edge, Inner, Excused;
    PlaceRight(nodes, left, remaining, right, n);
    InnerShrinks(out, remaining, n);
    ExcusedLater(trace, Step(n, Sink, remaining));
    assert forall j :: 0 < j < |right| + 1 ==> ([n] + right)[j] == right[j - 1];
  }

  lemma LeftOkAppend<V(!new)>(out: Weighted<V>, trace: seq<Step<V>>, s: Step<V>, left: seq<V>, n: V, rest: set<V>)
    requires LeftOk(out, trace, left, rest) && n in rest
    requires forall u :: u in rest - {n} && Edge(out, u, n) ==> Excused(trace + [s], u, n)
    ensures LeftOk(out, trace + [s], left + [n], rest - {n})
  {
    hide Excused, Edge;
    ExcusedLater(trace, s);
  }

  // Placing n at the end of the left part costs the weight entering it from `remaining`.
  lemma LeftKeeps<V(!new)>(out: Weighted<V>, nodes: set<V>, trace: seq<Step<V>>, s: Step<V>, left: seq<V>, remaining: set<V>,
                           right: seq<V>, n: V)
    requires Greedy(out, nodes, trace, left, remaining, right) && n in remaining
    requires forall u :: u in remaining - {n} && Edge(out, u, n) ==> Excused(trace + [s], u, n)
    requires InW(out, remaining - {n}, n) <= OutW(out, n, remaining - {n})
    ensures Greedy(out, nodes, trace + [s], left + [n], remaining - {n}, right)
  {
    hide Placement, LeftOk, LeftWeight, Inner, Excused, InW, OutW, Edge, W;
    var rest := remaining + Elems(right);
    PlaceLeft(nodes, left, remaining, right, n);
    RightHarmless(out, left, remaining, right, n);
    LeftOkAppend(out, trace, s, left, n, rest);
    LeftWeightAppend(out, left, n, rest);
    InnerTake(out, remaining, n);
  }

  lemma RightHarmless<V(!new)>(out: Weighted<V>, left: seq<V>, remaining: set<V>, right: seq<V>, n: V)
    requires RightOk(out, right, remaining) && n in remaining
    ensures forall u :: u in Elems(right) ==> !Edge(out, u, n)
    ensures InW(out, remaining + Elems(right) - {n}, n) == InW(out, remaining - {n}, n)
  {
    hide Edge;
    forall u | u in Elems(right) ensures !Edge(out, u, n) {
      var j :| 0 <= j < |right| && right[j] == u;
      assert !Edge(out, right[j], n);
    }
    SumSubset(remaining - {n}, remaining + Elems(right) - {n}, u => W(out, u, n));
  }

  lemma SourceKeeps<V(!new)>(out: Weighted<V>, nodes: set<V>, trace: seq<Step<V>>, left: seq<V>, remaining: set<V>,
                             right: seq<V>, n: V)
    requires Greedy(out, nodes, trace, left, remaining, right) && n in remaining && IsSource(out, remaining, n)
    ensures Greedy(out, nodes, trace + [Step(n, Source, remaining)], left + [n], remaining - {n}, right)
  {
    hide Greedy, Excused, Edge;
    NoneIn(out, remaining - {n}, n);
    WeightNat(out, remaining - {n}, n);
    LeftKeeps(out, nodes, trace, Step(n, Source, remaining), left, remaining, right, n);
  }

  lemma PickKeeps<V(!new)>(out: Weighted<V>, nodes: set<V>, trace: seq<Step<V>>, left: seq<V>, remaining: set<V>,
                           right: seq<V>, p: V)
    requires Greedy(out, nodes, trace, left, remaining, right) && PickedFrom(out, remaining, p)
    ensures Greedy(out, nodes, trace + [Step(p, Pick, remaining)], left + [p], remaining - {p}, right)
  {
    hide Greedy, Edge, Core, Score;
    PickExcuses(trace, Step(p, Pick, remaining));
    PickPays(out, remaining, p);
    LeftKeeps(out, nodes, trace, Step(p, Pick, remaining), left, remaining, right, p);
  }

  lemma PickExcuses<V(!new)>(trace: seq<Step<V>>, s: Step<V>)
    requires s.how.Pick?
    ensures forall u :: u in s.rest ==> Excused(trace + [s], u, s.vertex)
  {
    assert (trace + [s])[|trace|] == s;
  }

  lemma PickPays<V(!new)>(out: Weighted<V>, t: set<V>, p: V)
    requires PickedFrom(out, t, p)
    ensures InW(out, t - {p}, p) <= OutW(out, p, t - {p})
  {
    hide Core, InW, OutW;
    BestScore(out, t, p);
    OutTake(out, t, p, p);
    InTake(out, t, p, p);
  }

  // ---------------------------------------------------------------- what it returns

  lemma {:induction false} WeightSplits<V(!new)>(out: Weighted<V>, left: seq<V>, right: seq<V>)
    ensures BackWeight(out, left + right) == LeftWeight(out, left, Elems(right)) + BackWeight(out, right)
  {
    if left == [] {
      assert left + right == right;
    } else {
      assert (left + right)[1..] == left[1..] + right;
      ElemsAppend(left[1..], right);
      WeightSplits(out, left[1..], right);
    }
  }

  lemma {:induction false} RightFree<V(!new)>(out: Weighted<V>, right: seq<V>)
    requires RightOk(out, right, {})
    ensures BackWeight(out, right) == 0
  {
    if right != [] {
      hide Edge;
      forall u | u in Elems(right[1..]) ensures !Edge(out, u, right[0]) {
        var j :| 0 <= j < |right[1..]| && right[1..][j] == u;
        assert right[j + 1] == u;
      }
      NoneIn(out, Elems(right[1..]), right[0]);
      RightFree(out, right[1..]);
    }
  }

  lemma BackExcused<V(!new)>(out: Weighted<V>, trace: seq<Step<V>>, left: seq<V>, right: seq<V>, u: V, v: V)
    requires LeftOk(out, trace, left, Elems(right)) && RightOk(out, right, {}) && Back(out, left + right, u, v)
    ensures Excused(trace, u, v)
  {
    hide Excused, Edge;
    var order := left + right;
    var i, j :| 0 <= i < j < |order| && order[i] == v && order[j] == u;
    if i < |left| {
      assert left[i] == v;
      if j < |left| {
        assert left[j] == u;
      } else {
        assert u == right[j - |left|] && u in Elems(right);
      }
    }
  }

  lemma GreedyEnd<V(!new)>(out: Weighted<V>, nodes: set<V>, trace: seq<Step<V>>, left: seq<V>, right: seq<V>)
    requires Greedy(out, nodes, trace, left, {}, right)
    ensures Orders(left + right, nodes)
    ensures 2 * BackWeight(out, left + right) <= Inner(out, nodes)
    ensures forall u, v :: Back(out, left + right, u, v) ==> Excused(trace, u, v)
  {
    hide LeftOk, RightOk, LeftWeight, BackWeight, Excused, Back;
    assert {} + Elems(right) == Elems(right);
    WeightSplits(out, left, right);
    RightFree(out, right);
    InnerEmpty(out);
    forall u, v | Back(out, left + right, u, v) ensures Excused(trace, u, v) {
      BackExcused(out, trace, left, right, u, v);
    }
  }

  lemma InnerEmpty<V(!new)>(out: Weighted<V>)
    ensures Inner(out, {}) == 0
  {
  }

  // ---------------------------------------------------------------- every run

  lemma {:induction false} RunGreedy<V(!new)>(out: Weighted<V>, nodes: set<V>, trace: seq<Step<V>>)
    requires IsRun(out, nodes, trace)
    ensures Greedy(out, nodes, trace, LeftOf(trace), RestAfter(nodes, trace), RightOf(trace))
  {
    hide Greedy, IsSink, IsSource, PickedFrom;
    if trace == [] {
      GreedyStart(out, nodes);
    } else {
      var k := |trace| - 1;
      var past, s := trace[..k], trace[k];
      RunGreedy(out, nodes, past);
      assert past + [s] == trace;
      match s.how
      case Sink =>
        assert LeftOf(past) + [] == LeftOf(past);
        SinkKeeps(out, nodes, past, LeftOf(past), s.rest, RightOf(past), s.vertex);
      case Source =>
        assert [] + RightOf(past) == RightOf(past);
        SourceKeeps(out, nodes, past, LeftOf(past), s.rest, RightOf(past), s.vertex);
      case Pick =>
        assert [] + RightOf(past) == RightOf(past);
        PickKeeps(out, nodes, past, LeftOf(past), s.rest, RightOf(past), s.vertex);
    }
  }

  // Each node is placed by one step of the run, and by one only.
  lemma {:induction false} PlacedOnce<V(!new)>(out: Weighted<V>, nodes: set<V>, trace: seq<Step<V>>)
    requires IsRun(out, nodes, trace)
    ensures |Placed(trace)| == |trace| && forall i :: 0 <= i < |trace| ==> Placed(trace)[i] == trace[i].vertex
    ensures Distinct(Placed(trace)) && RestAfter(nodes, trace) <= nodes
    ensures Elems(Placed(trace)) == nodes - RestAfter(nodes, trace)
  {
    hide IsSink, IsSource, Core, Score;
    if trace != [] {
      var k := |trace| - 1;
      PlacedOnce(out, nodes, trace[..k]);
      ElemsAppend(Placed(trace[..k]), [trace[k].vertex]);
      assert trace[k].vertex !in Elems(Placed(trace[..k]));
    }
  }

  // Edges pointing back enter picked vertices only, and come from vertices left over by that pick.
  ghost predicate BackToPicks<V(!new)>(out: Weighted<V>, trace: seq<Step<V>>, order: seq<V>) {
    forall i, u :: 0 <= i < |trace| && Back(out, order, u, trace[i].vertex) ==>
                     trace[i].how.Pick? && u in trace[i].rest
  }

  lemma GreedyOrder<V(!new)>(out: Weighted<V>, nodes: set<V>, trace: seq<Step<V>>, order: seq<V>)
    requires Yields(out, nodes, trace, order)
    ensures Orders(order, nodes) && Orders(Placed(trace), nodes)
    ensures 2 * BackWeight(out, order) <= Inner(out, nodes)
    ensures BackToPicks(out, trace, order)
  {
    hide Greedy, IsRun, Legal, LeftOf, RightOf, BackWeight, Inner, Back;
    RunGreedy(out, nodes, trace);
    GreedyEnd(out, nodes, trace, LeftOf(trace), RightOf(trace));
    PlacedOnce(out, nodes, trace);
    forall i, u | 0 <= i < |trace| && Back(out, order, u, trace[i].vertex)
      ensures trace[i].how.Pick? && u in trace[i].rest
    {
      assert Excused(trace, u, trace[i].vertex);
      var k :| 0 <= k < |trace| && trace[k].how.Pick? && trace[k].vertex == trace[i].vertex && u in trace[k].rest;
      assert Placed(trace)[k] == Placed(trace)[i];
    }
  }

  lemma RunStep<V(!new)>(out: Weighted<V>, nodes: set<V>, trace: seq<Step<V>>, s: Step<V>)
    requires IsRun(out, nodes, trace) && s.rest == RestAfter(nodes, trace) && Legal(out, s)
    ensures IsRun(out, nodes, trace + [s]) && RestAfter(nodes, trace + [s]) == s.rest - {s.vertex}
    ensures LeftOf(trace + [s]) == if s.how.Sink? then LeftOf(trace) else LeftOf(trace) + [s.vertex]
    ensures RightOf(trace + [s]) == if s.how.Sink? then [s.vertex] + RightOf(trace) else RightOf(trace)
  {
    hide Legal;
    assert (trace + [s])[..|trace|] == trace;
  }

  // ---------------------------------------------------------------- the algorithm

  // Out-weight minus in-weight within `remaining`.
  method ScoreOf<V(==,!new)>(out: Weighted<V>, remaining: set<V>, n: V) returns (score: int)
    requires remaining <= out.Keys && n in remaining
    ensures score == Score(out, remaining, n)
  {
    var o, i := 0, 0;
    var todo := out[n].Keys;
    while todo != {}
      invariant todo <= out[n].Keys
      invariant o + OutW(out, n, todo * remaining) == OutW(out, n, out[n].Keys * remaining)
      decreases todo
    {
      var v :| v in todo;
      if v in remaining {
        OutTake(out, todo * remaining, v, n);
        assert (todo - {v}) * remaining == todo * remaining - {v};
        o := o + out[n][v];
      } else {
        assert (todo - {v}) * remaining == todo * remaining;
      }
      todo := todo - {v};
    }
    assert o == OutW(out, n, remaining) by {
      SumSubset(out[n].Keys * remaining, remaining, v => W(out, n, v));
    }
    todo := remaining;
    while todo != {}
      invariant todo <= remaining
      invariant i + InW(out, todo, n) == InW(out, remaining, n)
      decreases todo
    {
      var u :| u in todo;
      InTake(out, todo, u, n);
      if n in out[u] {
        i := i + out[u][n];
      }
      todo := todo - {u};
    }
    score := o - i;
  }

  // Any vertex of maximal score.
  method PickBest<V(==,!new)>(out: Weighted<V>, remaining: set<V>) returns (pick: V)
    requires remaining <= out.Keys && remaining != {}
    ensures pick in remaining && forall n :: n in remaining ==> Score(out, remaining, n) <= Score(out, remaining, pick)
  {
    hide Score;
    pick :| pick in remaining;
    var best := ScoreOf(out, remaining, pick);
    var todo := remaining - {pick};
    while todo != {}
      invariant todo <= remaining && pick in remaining && best == Score(out, remaining, pick)
      invariant forall n :: n in remaining - todo ==> Score(out, remaining, n) <= best
      decreases todo
    {
      var n :| n in todo;
      var score := ScoreOf(out, remaining, n);
      if score > best {
        pick, best := n, score;
      }
      todo := todo - {n};
    }
  }

  // What the loops keep: the variables are those of a run.
  ghost predicate Follows<V(!new)>(out: Weighted<V>, nodes: set<V>, trace: seq<Step<V>>, left: seq<V>, remaining: set<V>,
                                   right: seq<V>) {
    && IsRun(out, nodes, trace) && RestAfter(nodes, trace) == remaining
    && LeftOf(trace) == left && RightOf(trace) == right
  }

  // One pass moving sinks to the right.
  method PeelSinks<V(==,!new)>(out: Weighted<V>, ghost nodes: set<V>, ghost trace0: seq<Step<V>>, ghost left: seq<V>,
                               remaining0: set<V>, right0: seq<V>)
    returns (ghost trace: seq<Step<V>>, remaining: set<V>, right: seq<V>, changed: bool)
    requires remaining0 <= out.Keys && Follows(out, nodes, trace0, left, remaining0, right0)
    ensures Follows(out, nodes, trace, left, remaining, right)
    ensures if changed then remaining < remaining0
            else remaining == remaining0 && forall n :: n in remaining ==> !IsSink(out, remaining, n)
  {
    hide IsRun, RestAfter, LeftOf, RightOf, Edge;
    trace, remaining, right, changed := trace0, remaining0, right0, false;
    var todo := remaining;
    while todo != {}
      invariant todo <= remaining <= remaining0 && Follows(out, nodes, trace, left, remaining, right)
      invariant changed ==> remaining < remaining0
      invariant !changed ==> remaining == remaining0
      invariant !changed ==> forall n :: n in remaining - todo ==> !IsSink(out, remaining, n)
      decreases todo
    {
      var n :| n in todo;
      todo := todo - {n};
      if forall v :: v in out[n] ==> v !in remaining {
        assert IsSink(out, remaining, n) by { SinkTest(out, remaining, n); }
        RunStep(out, nodes, trace, Step(n, Sink, remaining));
        trace := trace + [Step(n, Sink, remaining)];
        right := [n] + right;
        remaining := remaining - {n};
        changed := true;
      } else {
        assert !IsSink(out, remaining, n) by { SinkTest(out, remaining, n); }
      }
    }
  }

  lemma SinkTest<V(!new)>(out: Weighted<V>, t: set<V>, n: V)
    requires n in out
    ensures IsSink(out, t, n) <==> forall v :: v in out[n] ==> v !in t
  {
  }

  // One pass moving sources to the left.
  method PeelSources<V(==,!new)>(out: Weighted<V>, nodes: set<V>, ghost trace0: seq<Step<V>>, left0: seq<V>,
                                 remaining0: set<V>, ghost right: seq<V>)
    returns (ghost trace: seq<Step<V>>, left: seq<V>, remaining: set<V>, changed: bool)
    requires WellFormed(out, nodes) && remaining0 <= nodes && Follows(out, nodes, trace0, left0, remaining0, right)
    ensures Follows(out, nodes, trace, left, remaining, right)
    ensures if changed then remaining < remaining0
            else remaining == remaining0 && forall n :: n in remaining ==> !IsSource(out, remaining, n)
  {
    hide IsRun, RestAfter, LeftOf, RightOf, Edge;
    trace, left, remaining, changed := trace0, left0, remaining0, false;
    var todo := remaining;
    while todo != {}
      invariant todo <= remaining <= remaining0 && Follows(out, nodes, trace, left, remaining, right)
      invariant changed ==> remaining < remaining0
      invariant !changed ==> remaining == remaining0
      invariant !changed ==> forall n :: n in remaining - todo ==> !IsSource(out, remaining, n)
      decreases todo
    {
      var n :| n in todo;
      todo := todo - {n};
      if forall u :: u in nodes ==> n in out[u] ==> u !in remaining {
        assert IsSource(out, remaining, n) by { SourceTest(out, nodes, remaining, n); }
        RunStep(out, nodes, trace, Step(n, Source, remaining));
        trace := trace + [Step(n, Source, remaining)];
        left := left + [n];
        remaining := remaining - {n};
        changed := true;
      } else {
        assert !IsSource(out, remaining, n) by { SourceTest(out, nodes, remaining, n); }
      }
    }
  }

  lemma SourceTest<V(!new)>(out: Weighted<V>, nodes: set<V>, t: set<V>, n: V)
    requires t <= nodes == out.Keys
    ensures IsSource(out, t, n) <==> forall u :: u in nodes ==> n in out[u] ==> u !in t
  {
  }

  // The greedy order; vertices are taken in any order, and any vertex of best score may be picked.
  method EadesOrder<V(==,!new)>(nodes: seq<V>, out: Weighted<V>) returns (order: seq<V>, ghost trace: seq<Step<V>>)
    requires WellFormed(out, Elems(nodes))
    ensures Yields(out, Elems(nodes), trace, order)
    ensures Orders(order, Elems(nodes)) && Orders(Placed(trace), Elems(nodes))
    ensures 2 * BackWeight(out, order) <= Inner(out, Elems(nodes))
    ensures BackToPicks(out, trace, order)
    ensures IsGreedyOrder(out, order)
  {
    hide IsRun, RestAfter, LeftOf, RightOf, Edge, Score, BackWeight, Inner, IsSink, IsSource, Distinct, BackToPicks;
    ghost var all := Elems(nodes);
    assert all == out.Keys;
    hide WellFormed, Elems;
    var remaining, left: seq<V>, right: seq<V> := Elems(nodes), [], [];
    trace := [];
    RunStart(out, all);
    while remaining != {}
      invariant Follows(out, all, trace, left, remaining, right) && remaining <= all == out.Keys
      decreases remaining
    {
      ghost var before := remaining;
      var changed := true;
      while changed
        invariant Follows(out, all, trace, left, remaining, right) && remaining <= before
        invariant !changed ==> Core(out, remaining)
        decreases remaining, changed
      {
        var sinks, sources;
        trace, remaining, right, sinks := PeelSinks(out, all, trace, left, remaining, right);
        trace, left, remaining, sources := PeelSources(out, Elems(nodes), trace, left, remaining, right);
        changed := sinks || sources;
      }
      if remaining == {} {
        break;
      }
      var pick := PickBest(out, remaining);
      RunStep(out, all, trace, Step(pick, Pick, remaining));
      trace := trace + [Step(pick, Pick, remaining)];
      left := left + [pick];
      remaining := remaining - {pick};
    }
    order := left + right;
    GreedyOrder(out, all, trace, order);
  }

  lemma RunStart<V(!new)>(out: Weighted<V>, nodes: set<V>)
    ensures Follows(out, nodes, [], [], nodes, [])
  {
  }

  // ---------------------------------------------------------------- consequences

  ghost predicate GoesOn<V>(g: Graph<V>, t: set<V>, n: V) {
    exists w :: w in t && w in Succ(g, n)
  }

  lemma NextOf<V>(g: Graph<V>, t: set<V>, n: V) returns (w: V)
    requires GoesOn(g, t, n)
    ensures w in t && w in Succ(g, n)
  {
    w :| w in t && w in Succ(g, n);
  }

  lemma WalkCloses<V(!new)>(g: Graph<V>, p: seq<V>, w: V)
    requires |p| > 0 && Walk(g, p, p[0], p[|p| - 1]) && w in Succ(g, p[|p| - 1]) && w in p
    ensures OnCycle(g, p[|p| - 1])
  {
    hide Succ;
    var i :| 0 <= i < |p| && p[i] == w;
    assert Walk(g, p[i..], w, p[|p| - 1]);
    assert Reach(g, w, p[|p| - 1]);
  }

  lemma WalkGrows<V(!new)>(g: Graph<V>, p: seq<V>, w: V)
    requires |p| > 0 && Walk(g, p, p[0], p[|p| - 1]) && w in Succ(g, p[|p| - 1]) && w !in p && Distinct(p)
    ensures Walk(g, p + [w], p[0], w) && Distinct(p + [w]) && Elems(p + [w]) == Elems(p) + {w}
  {
  }

  // In a set where everyone has a successor, keep walking until a vertex repeats.
  lemma {:induction false} Pursue<V(!new)>(g: Graph<V>, t: set<V>, p: seq<V>)
    requires forall n :: n in t ==> GoesOn(g, t, n)
    requires |p| > 0 && Distinct(p) && Elems(p) <= t && Walk(g, p, p[0], p[|p| - 1])
    ensures exists x :: x in t && OnCycle(g, x)
    decreases |t| - |p|
  {
    var last := p[|p| - 1];
    assert last in Elems(p);
    hide Walk, Distinct, Elems, OnCycle, Reach, Succ, GoesOn;
    var w := NextOf(g, t, last);
    if w in p {
      WalkCloses(g, p, w);
    } else {
      WalkGrows(g, p, w);
      DistinctSize(p + [w]);
      SubsetSize(Elems(p + [w]), t);
      Pursue(g, t, p + [w]);
    }
  }

  lemma {:induction false} SubsetSize<V>(s: set<V>, t: set<V>)
    requires s <= t
    ensures |s| <= |t|
  {
    assert t == s + (t - s);
  }

  lemma WalkOne<V>(g: Graph<V>, n: V)
    ensures Walk(g, [n], n, n)
  {
  }

  lemma NonSinkGoesOn<V(!new)>(out: Weighted<V>, t: set<V>, n: V)
    requires !IsSink(out, t, n)
    ensures GoesOn(Skeleton(out), t, n)
  {
  }

  // An acyclic graph never leaves a core, so nothing is ever picked.
  lemma NoCoreInDag<V(!new)>(out: Weighted<V>, t: set<V>)
    requires Acyclic(Skeleton(out)) && Core(out, t)
    ensures t == {}
  {
    hide OnCycle, Reach, Skeleton, IsSink, IsSource, Walk, GoesOn;
    if t != {} {
      var n :| n in t;
      assert Walk(Skeleton(out), [n], n, n) by { WalkOne(Skeleton(out), n); }
      forall m | m in t ensures GoesOn(Skeleton(out), t, m) {
        NonSinkGoesOn(out, t, m);
      }
      Pursue(Skeleton(out), t, [n]);
    }
  }

  lemma PickWasLegal<V(!new)>(out: Weighted<V>, nodes: set<V>, trace: seq<Step<V>>, i: nat)
    requires IsRun(out, nodes, trace) && i < |trace|
    ensures Legal(out, trace[i])
  {
    if i < |trace| - 1 {
      PickWasLegal(out, nodes, trace[..|trace| - 1], i);
    }
  }

  // A greedy order has no back-edge exactly when the graph, loops aside, was acyclic to begin with.
  lemma TopologicalIffDag<V(!new)>(out: Weighted<V>, order: seq<V>)
    requires WellFormed(out, Elems(order)) && IsGreedyOrder(out, order)
    requires LoopFree(Skeleton(out))
    ensures Acyclic(Skeleton(out)) <==> forall u, v :: !Back(out, order, u, v)
  {
    hide Reach, OnCycle, Core, Score, WellFormed, Before, IsRun, RestAfter, LeftOf, RightOf, BackWeight, Inner;
    var trace :| Yields(out, Elems(order), trace, order);
    GreedyOrder(out, Elems(order), trace, order);
    if Acyclic(Skeleton(out)) {
      forall u, v ensures !Back(out, order, u, v) {
        if Back(out, order, u, v) {
          DagHasNoBack(out, trace, order, u, v);
        }
      }
    }
    if forall u, v :: !Back(out, order, u, v) {
      CuttingBreaksCycles(out, order);
      NothingCut(out, order);
    }
  }

  lemma DagHasNoBack<V(!new)>(out: Weighted<V>, trace: seq<Step<V>>, order: seq<V>, u: V, v: V)
    requires Yields(out, Elems(order), trace, order) && Acyclic(Skeleton(out))
    requires Orders(Placed(trace), Elems(order)) && BackToPicks(out, trace, order)
    ensures !Back(out, order, u, v)
  {
    hide Core, Score, IsRun, RestAfter, LeftOf, RightOf, Acyclic, Edge;
    if Back(out, order, u, v) {
      PlacedOnce(out, Elems(order), trace);
      assert v in Elems(Placed(trace));
      var i :| 0 <= i < |Placed(trace)| && Placed(trace)[i] == v;
      assert Back(out, order, u, trace[i].vertex);
      PickWasLegal(out, Elems(order), trace, i);
      NoCoreInDag(out, trace[i].rest);
    }
  }

  lemma NothingCut<V(!new)>(out: Weighted<V>, order: seq<V>)
    requires forall u, v :: !Back(out, order, u, v)
    ensures Kept(out, order) == Skeleton(out)
  {
    hide Before;
    forall u | u in out ensures Kept(out, order)[u] == out[u].Keys {
      forall v | v in out[u] ensures !Before(order, v, u) {
        assert !Back(out, order, u, v);
      }
    }
  }
}
