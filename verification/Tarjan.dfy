/** Strongly connected components of the module graph (scripts/analyze_root_crate.py).

    `StrongConnect` is the recursive visit with its shared index, lowlink, on-stack and result
    tables.  Its invariant `Inv` is a predicate on snapshots of those tables; `gray` is the set
    of vertices whose visit is still in progress. */
module Tarjan {
  import opened Components
  import opened Digraph

  datatype State<V> = State(
    counter: nat,
    stack: seq<V>,
    onStack: map<V, bool>,
    index: map<V, nat>,
    lowlink: map<V, nat>,
    result: seq<seq<V>>)

  // ---------------------------------------------------------------- the invariant

  ghost predicate Numbered<V>(g: Graph<V>, s: State<V>) {
    && s.index.Keys <= Vertices(g)
    && s.lowlink.Keys == s.index.Keys == s.onStack.Keys
    && (forall x :: x in s.index ==> s.index[x] < s.counter)
  }

  // The stack lists vertices in visiting order.
  ghost predicate Ordered<V>(stack: seq<V>, index: map<V, nat>) {
    && (forall x :: x in stack ==> x in index)
    && (forall i, j :: 0 <= i < j < |stack| ==> index[stack[i]] < index[stack[j]])
  }

  // A visited vertex is on the stack or emitted, never both.
  ghost predicate Placed<V(!new)>(stack: seq<V>, onStack: map<V, bool>, index: map<V, nat>, result: seq<seq<V>>) {
    && (forall x :: x in index && x in onStack ==> (onStack[x] <==> x in stack))
    && (forall x :: x in index ==> (x in stack <==> !Listed(result, x)))
    && (forall x :: Listed(result, x) ==> x in index)
  }

  // A finished visit has seen all its successors.
  ghost predicate Finished<V>(g: Graph<V>, index: map<V, nat>, gray: set<V>) {
    forall x, w :: x in index && x !in gray && w in Succ(g, x) ==> w in index
  }

  // Everything on the stack reaches whatever lies above it ...
  ghost predicate Chained<V(!new)>(g: Graph<V>, stack: seq<V>) {
    forall i, j :: 0 <= i <= j < |stack| ==> Reach(g, stack[i], stack[j])
  }

  // ... and reaches down to a vertex still being visited.
  ghost predicate Anchor<V(!new)>(g: Graph<V>, index: map<V, nat>, gray: set<V>, y: V, x: V) {
    x in gray && x in index && y in index && index[x] <= index[y] && Reach(g, y, x)
  }

  ghost predicate Anchored<V(!new)>(g: Graph<V>, stack: seq<V>, index: map<V, nat>, gray: set<V>) {
    forall y :: y in stack ==> exists x :: Anchor(g, index, gray, y, x)
  }

  ghost predicate Inv<V(!new)>(g: Graph<V>, s: State<V>, gray: set<V>) {
    && Numbered(g, s)
    && Ordered(s.stack, s.index)
    && Placed(s.stack, s.onStack, s.index, s.result)
    && (forall x :: x in gray ==> x in s.stack)
    && Finished(g, s.index, gray)
    && Chained(g, s.stack)
    && Anchored(g, s.stack, s.index, gray)
    && GoodResult(g, s.result)
  }

  // What a visit leaves alone.
  ghost predicate Extends<V>(s: State<V>, t: State<V>) {
    && s.stack <= t.stack
    && s.result <= t.result
    && s.counter <= t.counter
    && (forall x :: x in s.index ==> x in t.index && t.index[x] == s.index[x])
    && (forall x :: x in s.lowlink ==> x in t.lowlink && t.lowlink[x] == s.lowlink[x])
    && (forall x :: x in t.index && x !in s.index ==> s.counter <= t.index[x])
  }

  ghost predicate LowWitness<V(!new)>(g: Graph<V>, stack: seq<V>, index: map<V, nat>, v: V, low: nat, y: V) {
    y in stack && y in index && index[y] == low && Reach(g, v, y)
  }

  // No edge from the stack at height n or above into `base` undercuts `low`.
  ghost predicate Bounded<V>(g: Graph<V>, stack: seq<V>, index: map<V, nat>, n: nat, base: seq<V>, low: nat) {
    forall i, y :: n <= i < |stack| && y in base && y in Succ(g, stack[i]) && y in index ==> low <= index[y]
  }

  // What a finished visit of v reports through lowlink[v].
  ghost predicate LowPost<V(!new)>(g: Graph<V>, s: State<V>, t: State<V>, v: V) {
    && v in t.index && v in t.lowlink
    && t.lowlink[v] <= t.index[v]
    && (v !in t.stack ==> t.lowlink[v] == t.index[v])
    && (v in t.stack ==> exists y :: LowWitness(g, t.stack, t.index, v, t.lowlink[v], y))
    && Bounded(g, t.stack, t.index, |s.stack|, s.stack, t.lowlink[v])
  }

  // The same in mid-visit, when the successors in `seen` have been dealt with.
  ghost predicate MidVisit<V(!new)>(g: Graph<V>, s: State<V>, t: State<V>, v: V, seen: set<V>) {
    && |s.stack| < |t.stack| && t.stack[|s.stack|] == v
    && v !in s.index && v in t.index && v in t.lowlink
    && t.lowlink[v] <= t.index[v]
    && (exists y :: LowWitness(g, t.stack, t.index, v, t.lowlink[v], y))
    && (forall w :: w in seen ==> w in t.index)
    && (forall w :: w in seen && w in s.stack && w in t.index ==> t.lowlink[v] <= t.index[w])
    && Bounded(g, t.stack, t.index, |s.stack| + 1, s.stack, t.lowlink[v])
  }

  // ---------------------------------------------------------------- opening a visit

  function Push<V>(s: State<V>, v: V): State<V> {
    s.(counter := s.counter + 1, stack := s.stack + [v], onStack := s.onStack[v := true],
       index := s.index[v := s.counter], lowlink := s.lowlink[v := s.counter])
  }

  lemma PushPlaced<V(!new)>(s: State<V>, v: V)
    requires v !in s.index && s.onStack.Keys == s.index.Keys
    requires Placed(s.stack, s.onStack, s.index, s.result) && Ordered(s.stack, s.index)
    ensures Placed(s.stack + [v], s.onStack[v := true], s.index[v := s.counter], s.result)
  {
  }

  lemma PushChained<V(!new)>(g: Graph<V>, s: State<V>, gray: set<V>, v: V)
    requires Chained(g, s.stack) && Anchored(g, s.stack, s.index, gray)
    requires forall x :: x in gray ==> Reach(g, x, v)
    ensures Chained(g, s.stack + [v])
  {
    hide Reach;
    var stack := s.stack + [v];
    forall i, j | 0 <= i <= j < |stack| ensures Reach(g, stack[i], stack[j]) {
      if i == |s.stack| {
        ReachSelf(g, v);
      } else if j == |s.stack| {
        var y := stack[i];
        assert y in s.stack;
        var x :| Anchor(g, s.index, gray, y, x);
        ReachTrans(g, y, x, v);
      }
    }
  }

  lemma PushAnchored<V(!new)>(g: Graph<V>, s: State<V>, gray: set<V>, v: V)
    requires Anchored(g, s.stack, s.index, gray) && v !in s.index && Ordered(s.stack, s.index)
    ensures Anchored(g, s.stack + [v], s.index[v := s.counter], gray + {v})
  {
    hide Reach;
    var index := s.index[v := s.counter];
    forall y | y in s.stack + [v] ensures exists x :: Anchor(g, index, gray + {v}, y, x) {
      if y == v {
        ReachSelf(g, v);
        assert Anchor(g, index, gray + {v}, y, v);
      } else {
        var x :| Anchor(g, s.index, gray, y, x);
        assert Anchor(g, index, gray + {v}, y, x);
      }
    }
  }

  lemma PushKeeps<V(!new)>(g: Graph<V>, s: State<V>, gray: set<V>, v: V)
    requires Inv(g, s, gray) && v in Vertices(g) && v !in s.index
    requires forall x :: x in gray ==> Reach(g, x, v)
    ensures Inv(g, Push(s, v), gray + {v})
  {
    hide GoodResult, Chained, Anchored, Placed;
    PushPlaced(s, v);
    PushChained(g, s, gray, v);
    PushAnchored(g, s, gray, v);
  }

  lemma PushStarts<V(!new)>(g: Graph<V>, s: State<V>, v: V)
    requires v !in s.index && v !in s.lowlink
    ensures MidVisit(g, s, Push(s, v), v, {}) && Extends(s, Push(s, v))
  {
    hide Reach;
    var t := Push(s, v);
    ReachSelf(g, v);
    assert t.stack[|s.stack|] == v;
    assert LowWitness(g, t.stack, t.index, v, t.lowlink[v], v);
  }

  // ---------------------------------------------------------------- handling one successor

  function Lower<V>(s: State<V>, v: V, k: nat): State<V>
    requires v in s.lowlink
  {
    s.(lowlink := s.lowlink[v := if k < s.lowlink[v] then k else s.lowlink[v]])
  }

  lemma LowerKeeps<V(!new)>(g: Graph<V>, s: State<V>, gray: set<V>, v: V, k: nat)
    requires Inv(g, s, gray) && v in s.lowlink
    ensures Inv(g, Lower(s, v, k), gray)
  {
    hide GoodResult, Chained, Anchored, Placed, Ordered, Finished, Vertices;
  }

  lemma LowerExtends<V>(s: State<V>, t: State<V>, v: V, k: nat)
    requires Extends(s, t) && v in t.lowlink && v !in s.lowlink
    ensures Extends(s, Lower(t, v, k))
  {
  }

  lemma ExtendsTrans<V>(s: State<V>, t: State<V>, u: State<V>)
    requires Extends(s, t) && Extends(t, u)
    ensures Extends(s, u)
  {
  }

  // The successor w was visited recursively, taking t to u.
  lemma AfterVisitWitness<V(!new)>(g: Graph<V>, t: State<V>, u: State<V>, v: V, w: V, low: nat)
    requires Extends(t, u) && LowPost(g, t, u, w) && w in Succ(g, v) && w !in t.index
    requires v in t.lowlink && v in t.index && t.lowlink[v] <= t.index[v] < t.counter
    requires exists y :: LowWitness(g, t.stack, t.index, v, t.lowlink[v], y)
    requires low == if u.lowlink[w] < u.lowlink[v] then u.lowlink[w] else u.lowlink[v]
    ensures exists y :: LowWitness(g, u.stack, u.index, v, low, y)
  {
    hide Reach, Bounded;
    if t.lowlink[v] <= u.lowlink[w] {
      var y :| LowWitness(g, t.stack, t.index, v, t.lowlink[v], y);
      assert LowWitness(g, u.stack, u.index, v, t.lowlink[v], y);
    } else {
      var y :| LowWitness(g, u.stack, u.index, w, u.lowlink[w], y);
      ReachEdge(g, v, w);
      ReachTrans(g, v, w, y);
      assert LowWitness(g, u.stack, u.index, v, u.lowlink[w], y);
    }
  }

  lemma AfterVisitBounded<V(!new)>(g: Graph<V>, n: nat, base: seq<V>, t: State<V>, u: State<V>, a: nat, b: nat, low: nat)
    requires Extends(t, u) && low <= a && low <= b
    requires Bounded(g, t.stack, t.index, n, base, a) && Bounded(g, u.stack, u.index, |t.stack|, t.stack, b)
    requires forall y :: y in base ==> y in t.stack && y in t.index
    ensures Bounded(g, u.stack, u.index, n, base, low)
  {
  }

  lemma AfterVisit<V(!new)>(g: Graph<V>, s: State<V>, t: State<V>, u: State<V>, v: V, w: V, seen: set<V>)
    requires MidVisit(g, s, t, v, seen) && Extends(s, t) && Extends(t, u) && LowPost(g, t, u, w)
    requires w in Succ(g, v) && w !in t.index
    requires forall x :: x in t.index ==> t.index[x] < t.counter
    requires Ordered(t.stack, t.index)
    ensures v in u.lowlink && MidVisit(g, s, Lower(u, v, u.lowlink[w]), v, seen + {w})
  {
    hide Reach, Bounded, Succ, LowWitness;
    var low := if u.lowlink[w] < u.lowlink[v] then u.lowlink[w] else u.lowlink[v];
    assert forall y :: y in s.stack ==> y in t.stack;
    AfterVisitWitness(g, t, u, v, w, low);
    AfterVisitBounded(g, |s.stack| + 1, s.stack, t, u, t.lowlink[v], u.lowlink[w], low);
  }

  // The successor w is on the stack already.
  lemma AfterStacked<V(!new)>(g: Graph<V>, s: State<V>, t: State<V>, v: V, w: V, seen: set<V>)
    requires MidVisit(g, s, t, v, seen)
    requires w in Succ(g, v) && w in t.index && w in t.stack
    ensures MidVisit(g, s, Lower(t, v, t.index[w]), v, seen + {w})
  {
    hide Reach;
    var r := Lower(t, v, t.index[w]);
    var low := r.lowlink[v];
    if low == t.lowlink[v] {
      var y :| LowWitness(g, t.stack, t.index, v, t.lowlink[v], y);
      assert LowWitness(g, r.stack, r.index, v, low, y);
    } else {
      ReachEdge(g, v, w);
      assert LowWitness(g, r.stack, r.index, v, low, w);
    }
  }

  // ---------------------------------------------------------------- closing a visit

  // All of v's successors are dealt with, so nothing from v upwards undercuts its lowlink.
  lemma AllBounded<V(!new)>(g: Graph<V>, s: State<V>, t: State<V>, v: V)
    requires MidVisit(g, s, t, v, Succ(g, v))
    ensures Bounded(g, t.stack, t.index, |s.stack|, s.stack, t.lowlink[v])
  {
  }

  lemma NowFinished<V(!new)>(g: Graph<V>, s: State<V>, t: State<V>, gray: set<V>, v: V)
    requires Finished(g, t.index, gray + {v}) && MidVisit(g, s, t, v, Succ(g, v))
    ensures Finished(g, t.index, gray)
  {
  }

  // v reaches below itself: whoever was anchored at v is anchored further down.
  lemma StaysAnchored<V(!new)>(g: Graph<V>, t: State<V>, gray: set<V>, v: V, z: V)
    requires Anchored(g, t.stack, t.index, gray + {v})
    requires v in t.index && z in t.index && z in t.stack && Reach(g, v, z) && t.index[z] < t.index[v]
    ensures Anchored(g, t.stack, t.index, gray)
  {
    hide Reach;
    forall y | y in t.stack ensures exists x :: Anchor(g, t.index, gray, y, x) {
      var x :| Anchor(g, t.index, gray + {v}, y, x);
      if x == v {
        var x' :| Anchor(g, t.index, gray + {v}, z, x');
        ReachTrans(g, y, v, z);
        ReachTrans(g, y, z, x');
        assert Anchor(g, t.index, gray, y, x');
      } else {
        assert Anchor(g, t.index, gray, y, x);
      }
    }
  }

  lemma StayOpen<V(!new)>(g: Graph<V>, s: State<V>, t: State<V>, gray: set<V>, v: V)
    requires Inv(g, t, gray + {v}) && MidVisit(g, s, t, v, Succ(g, v))
    requires t.lowlink[v] != t.index[v]
    ensures Inv(g, t, gray) && LowPost(g, s, t, v)
  {
    hide Reach, Placed, Chained, GoodResult, Ordered, Bounded, Finished, Anchored, Succ, Vertices;
    AllBounded(g, s, t, v);
    NowFinished(g, s, t, gray, v);
    var z :| LowWitness(g, t.stack, t.index, v, t.lowlink[v], z);
    StaysAnchored(g, t, gray, v, z);
  }

  // ---------------------------------------------------------------- emitting a component

  function Reversed<V>(s: seq<V>): (r: seq<V>)
    ensures |r| == |s|
  {
    seq(|s|, i requires 0 <= i < |s| => s[|s| - 1 - i])
  }

  lemma ReversedElems<V>(s: seq<V>, x: V)
    ensures x in Reversed(s) <==> x in s
  {
    if x in s {
      var i :| 0 <= i < |s| && s[i] == x;
      assert Reversed(s)[|s| - 1 - i] == x;
    }
  }

  function Cleared<V>(onStack: map<V, bool>, gone: seq<V>): map<V, bool> {
    map x | x in onStack :: onStack[x] && x !in gone
  }

  function Emit<V>(s: State<V>, n: nat): State<V>
    requires n <= |s.stack|
  {
    s.(stack := s.stack[..n],
       onStack := Cleared(s.onStack, s.stack[n..]),
       result := s.result + [Reversed(s.stack[n..])])
  }

  function Off<V>(s: State<V>, base: seq<V>): set<V> {
    set x | x in s.index && x !in base
  }

  // Emitted vertices only lead to emitted vertices.
  lemma EmittedClosed<V(!new)>(g: Graph<V>, t: State<V>, x: V, w: V)
    requires Placed(t.stack, t.onStack, t.index, t.result) && LeavesFirst(g, t.result)
    requires x in t.index && x !in t.stack && w in Succ(g, x)
    ensures w in t.index && w !in t.stack
  {
  }

  lemma DoneClosed<V(!new)>(g: Graph<V>, t: State<V>)
    requires Placed(t.stack, t.onStack, t.index, t.result) && LeavesFirst(g, t.result)
    ensures Closed(g, Off(t, t.stack))
  {
  }

  lemma StackIndex<V(!new)>(stack: seq<V>, index: map<V, nat>, n: nat, x: V)
    requires Ordered(stack, index) && n < |stack| && x in stack
    ensures x in index
    ensures x in stack[..n] <==> index[x] < index[stack[n]]
    ensures x in stack[..n] <==> x !in stack[n..]
  {
  }

  lemma PrefixMembers<V>(stack: seq<V>, n: nat)
    requires n <= |stack|
    ensures forall i :: 0 <= i < n ==> stack[i] in stack[..n]
  {
  }

  // v is the root of a component: from v upwards no edge leaves but to emitted vertices.
  ghost predicate AtRoot<V(!new)>(g: Graph<V>, s: State<V>, t: State<V>, gray: set<V>, v: V) {
    && Inv(g, t, gray + {v}) && MidVisit(g, s, t, v, Succ(g, v))
    && s.stack <= t.stack && s.result <= t.result
    && (forall x :: x in gray ==> x in s.stack)
    && t.lowlink[v] == t.index[v]
  }

  lemma RootShape<V(!new)>(g: Graph<V>, s: State<V>, t: State<V>, gray: set<V>, v: V)
    requires AtRoot(g, s, t, gray, v)
    ensures |s.stack| < |t.stack| && t.stack[..|s.stack|] == s.stack && t.stack[|s.stack|] == v
    ensures Ordered(t.stack, t.index) && Chained(g, t.stack) && Anchored(g, t.stack, t.index, gray + {v})
    ensures Placed(t.stack, t.onStack, t.index, t.result) && LeavesFirst(g, t.result)
    ensures forall x :: x in gray ==> x in s.stack
  {
    hide Reach, Succ, Vertices, Numbered, Chained, Ordered, Anchored, LowWitness, Placed, Finished, Bounded;
    hide IsComponent, Disjoint, LeavesFirst, Distinct;
  }

  lemma RegionStep<V(!new)>(g: Graph<V>, s: State<V>, t: State<V>, gray: set<V>, v: V, x: V, w: V)
    requires AtRoot(g, s, t, gray, v)
    requires x in t.index && x !in s.stack && w in Succ(g, x)
    ensures w in t.index && w !in s.stack
  {
    hide Reach, Succ, Vertices, Numbered, Chained, Anchored, LowWitness, Placed, IsComponent, Disjoint, LeavesFirst;
    var n := |s.stack|;
    assert t.stack[..n] == s.stack && t.stack[n] == v;
    if x in t.stack {
      hide GoodResult;
      AllBounded(g, s, t, v);
      NowFinished(g, s, t, gray, v);
      assert w in t.index;
      var i :| 0 <= i < |t.stack| && t.stack[i] == x;
      PrefixMembers(t.stack, n);
      if w in t.stack {
        StackIndex(t.stack, t.index, n, w);
      }
    } else {
      hide Ordered, Bounded, Finished;
      EmittedClosed(g, t, x, w);
      assert forall y :: y in s.stack ==> y in t.stack;
    }
  }

  lemma RegionClosed<V(!new)>(g: Graph<V>, s: State<V>, t: State<V>, gray: set<V>, v: V)
    requires AtRoot(g, s, t, gray, v)
    ensures Closed(g, Off(t, s.stack))
  {
    hide Succ, AtRoot;
    forall x, w | x in Off(t, s.stack) && w in Succ(g, x) ensures w in Off(t, s.stack) {
      RegionStep(g, s, t, gray, v, x, w);
    }
  }

  // From v upwards everything reaches v: its anchor cannot lie below v.
  lemma BackToRoot<V(!new)>(g: Graph<V>, s: State<V>, t: State<V>, gray: set<V>, v: V, x: V)
    requires AtRoot(g, s, t, gray, v) && x in t.stack && x !in s.stack
    ensures Reach(g, x, v)
  {
    hide Reach, AtRoot, Chained, Ordered, Placed, LeavesFirst, Closed;
    RootShape(g, s, t, gray, v);
    RegionClosed(g, s, t, gray, v);
    StackIndex(t.stack, t.index, 0, x);
    var y :| Anchor(g, t.index, gray + {v}, x, y);
    if y != v {
      ReachStays(g, Off(t, s.stack), x, y);
    }
  }

  lemma SegmentMutual<V(!new)>(g: Graph<V>, s: State<V>, t: State<V>, gray: set<V>, v: V, x: V)
    requires AtRoot(g, s, t, gray, v) && x in t.stack && x !in s.stack
    ensures Mutual(g, v, x)
  {
    hide Reach, AtRoot, Chained, Ordered, Anchored, Placed, LeavesFirst;
    BackToRoot(g, s, t, gray, v, x);
    RootShape(g, s, t, gray, v);
    ChainFrom(g, t.stack, |s.stack|, x);
  }

  lemma ChainFrom<V(!new)>(g: Graph<V>, stack: seq<V>, n: nat, x: V)
    requires Chained(g, stack) && n < |stack| && x in stack && x !in stack[..n]
    ensures Reach(g, stack[n], x)
  {
  }

  lemma MutualInSegment<V(!new)>(g: Graph<V>, s: State<V>, t: State<V>, gray: set<V>, v: V, x: V, y: V)
    requires AtRoot(g, s, t, gray, v) && x in t.stack && x !in s.stack && Mutual(g, x, y)
    ensures y in t.stack && y !in s.stack
  {
    hide Reach, AtRoot, Chained, Ordered, Anchored, Placed, LeavesFirst, Closed;
    RootShape(g, s, t, gray, v);
    RegionClosed(g, s, t, gray, v);
    StackIndex(t.stack, t.index, 0, x);
    ReachStays(g, Off(t, s.stack), x, y);
    DoneClosed(g, t);
    if y !in t.stack {
      ReachStays(g, Off(t, t.stack), y, x);
    }
  }

  lemma ComponentPair<V(!new)>(g: Graph<V>, s: State<V>, t: State<V>, gray: set<V>, v: V, x: V, y: V)
    requires AtRoot(g, s, t, gray, v) && x in t.stack && x !in s.stack
    ensures y in t.stack && y !in s.stack <==> Mutual(g, x, y)
  {
    hide AtRoot, Mutual;
    SegmentMutual(g, s, t, gray, v, x);
    if y in t.stack && y !in s.stack {
      SegmentMutual(g, s, t, gray, v, y);
      MutualTrans(g, x, v, y);
    }
    if Mutual(g, x, y) {
      MutualInSegment(g, s, t, gray, v, x, y);
    }
  }

  lemma SegmentIsComponent<V(!new)>(g: Graph<V>, s: State<V>, t: State<V>, gray: set<V>, v: V)
    requires AtRoot(g, s, t, gray, v)
    ensures IsComponent(g, Reversed(t.stack[|s.stack|..]))
  {
    hide Reach, AtRoot, Chained, Ordered, Anchored, Placed, LeavesFirst, Reversed, Mutual;
    RootShape(g, s, t, gray, v);
    SegmentMembers(t.stack, t.index, |s.stack|);
    forall x, y | x in t.stack && x !in s.stack ensures y in t.stack && y !in s.stack <==> Mutual(g, x, y) {
      ComponentPair(g, s, t, gray, v, x, y);
    }
  }

  lemma SegmentMembers<V(!new)>(stack: seq<V>, index: map<V, nat>, n: nat)
    requires Ordered(stack, index) && n < |stack|
    ensures |Reversed(stack[n..])| > 0
    ensures forall x :: x in Reversed(stack[n..]) <==> x in stack && x !in stack[..n]
  {
    hide Ordered, Reversed;
    forall x ensures x in Reversed(stack[n..]) <==> x in stack && x !in stack[..n] {
      ReversedElems(stack[n..], x);
      if x in stack {
        StackIndex(stack, index, n, x);
      }
    }
  }

  lemma MutualTrans<V(!new)>(g: Graph<V>, x: V, v: V, y: V)
    requires Mutual(g, v, x) && Mutual(g, v, y)
    ensures Mutual(g, x, y)
  {
    hide Reach;
    ReachTrans(g, x, v, y);
    ReachTrans(g, y, v, x);
  }

  lemma ListedAppend<V>(result: seq<seq<V>>, c: seq<V>, x: V)
    ensures Listed(result + [c], x) <==> Listed(result, x) || x in c
  {
    var r := result + [c];
    if Listed(result, x) {
      var i :| 0 <= i < |result| && x in result[i];
      assert x in r[i];
    }
    if x in c {
      assert x in r[|result|];
    }
  }

  lemma EmitPlaced<V(!new)>(t: State<V>, n: nat)
    requires Placed(t.stack, t.onStack, t.index, t.result) && Ordered(t.stack, t.index) && n < |t.stack|
    requires t.onStack.Keys == t.index.Keys
    ensures var u := Emit(t, n); Placed(u.stack, u.onStack, u.index, u.result) && u.onStack.Keys == u.index.Keys
  {
    var u := Emit(t, n);
    var comp := Reversed(t.stack[n..]);
    hide Listed, Ordered, Reversed;
    forall x
      ensures Listed(u.result, x) <==> Listed(t.result, x) || x in t.stack[n..]
      ensures x in t.stack ==> x in t.index && (x in t.stack[..n] <==> x !in t.stack[n..])
    {
      ListedAppend(t.result, comp, x);
      ReversedElems(t.stack[n..], x);
      if x in t.stack {
        StackIndex(t.stack, t.index, n, x);
      }
    }
  }

  lemma ReversedDistinct<V>(stack: seq<V>, index: map<V, nat>, n: nat)
    requires Ordered(stack, index) && n < |stack|
    ensures Distinct(Reversed(stack[n..]))
  {
  }

  lemma EmitLeavesFirst<V(!new)>(g: Graph<V>, result: seq<seq<V>>, c: seq<V>)
    requires LeavesFirst(g, result)
    requires forall x, w :: x in c && w in Succ(g, x) ==> Listed(result, w) || w in c
    ensures LeavesFirst(g, result + [c])
  {
    hide Listed, Succ;
    var r := result + [c];
    forall i, x, w | 0 <= i < |r| && x in r[i] && w in Succ(g, x) ensures Listed(r[..i + 1], w) {
      if i < |result| {
        assert r[i] == result[i] && r[..i + 1] == result[..i + 1];
      } else {
        assert r[..i + 1] == result + [c];
        ListedAppend(result, c, w);
      }
    }
  }

  lemma EmitDisjoint<V(!new)>(result: seq<seq<V>>, c: seq<V>)
    requires Disjoint(result)
    requires forall x :: x in c ==> !Listed(result, x)
    ensures Disjoint(result + [c])
  {
  }

  lemma EmitGood<V(!new)>(g: Graph<V>, s: State<V>, t: State<V>, gray: set<V>, v: V)
    requires AtRoot(g, s, t, gray, v) && GoodResult(g, t.result)
    ensures GoodResult(g, Emit(t, |s.stack|).result)
  {
    hide Reach, AtRoot, Chained, Ordered, Anchored, Reversed, IsComponent, Distinct, LeavesFirst, Disjoint, Listed;
    RootShape(g, s, t, gray, v);
    var n := |s.stack|;
    var c := Reversed(t.stack[n..]);
    SegmentIsComponent(g, s, t, gray, v);
    SegmentMembers(t.stack, t.index, n);
    ReversedDistinct(t.stack, t.index, n);
    forall x, w | x in c && w in Succ(g, x) ensures Listed(t.result, w) || w in c {
      StackIndex(t.stack, t.index, n, x);
      RegionStep(g, s, t, gray, v, x, w);
    }
    forall x | x in c ensures !Listed(t.result, x) {
      StackIndex(t.stack, t.index, n, x);
    }
    hide Placed, Succ;
    EmitLeavesFirst(g, t.result, c);
    EmitDisjoint(t.result, c);
  }

  lemma EmitAnchored<V(!new)>(g: Graph<V>, stack: seq<V>, index: map<V, nat>, gray: set<V>, n: nat)
    requires Ordered(stack, index) && n < |stack|
    requires Anchored(g, stack, index, gray + {stack[n]})
    ensures Anchored(g, stack[..n], index, gray)
  {
    hide Reach, Ordered;
    var v := stack[n];
    forall y | y in stack[..n] ensures exists x :: Anchor(g, index, gray, y, x) {
      assert y in stack;
      StackIndex(stack, index, n, y);
      StackIndex(stack, index, 0, v);
      var x :| Anchor(g, index, gray + {v}, y, x);
      assert Anchor(g, index, gray, y, x);
    }
  }

  lemma OrderedPrefix<V>(g: Graph<V>, stack: seq<V>, index: map<V, nat>, n: nat)
    requires Ordered(stack, index) && n < |stack|
    ensures Ordered(stack[..n], index)
  {
  }

  lemma ChainedPrefix<V(!new)>(g: Graph<V>, stack: seq<V>, n: nat)
    requires Chained(g, stack) && n < |stack|
    ensures Chained(g, stack[..n])
  {
  }

  lemma Close<V(!new)>(g: Graph<V>, s: State<V>, t: State<V>, gray: set<V>, v: V)
    requires AtRoot(g, s, t, gray, v) && Extends(s, t) && |s.stack| <= |t.stack|
    ensures Inv(g, Emit(t, |s.stack|), gray)
    ensures LowPost(g, s, Emit(t, |s.stack|), v) && Extends(s, Emit(t, |s.stack|))
  {
    hide Reach, Chained, Ordered, Anchored, Placed, GoodResult, Finished, Bounded, LowWitness, Reversed, Succ, Vertices;
    RootShape(g, s, t, gray, v);
    var n := |s.stack|;
    EmitPlaced(t, n);
    EmitGood(g, s, t, gray, v);
    EmitAnchored(g, t.stack, t.index, gray, n);
    OrderedPrefix(g, t.stack, t.index, n);
    ChainedPrefix(g, t.stack, n);
    NowFinished(g, s, t, gray, v);
    assert v !in s.stack by { StackIndex(t.stack, t.index, n, v); }
    assert Bounded(g, s.stack, t.index, n, s.stack, t.lowlink[v]) by { BoundedAtTop(g, s.stack, t.index, t.lowlink[v]); }
  }

  lemma BoundedAtTop<V(!new)>(g: Graph<V>, stack: seq<V>, index: map<V, nat>, low: nat)
    ensures Bounded(g, stack, index, |stack|, stack, low)
  {
  }

  // ---------------------------------------------------------------- the search itself

  lemma OpenFacts<V(!new)>(g: Graph<V>, s: State<V>, gray: set<V>, v: V)
    requires Inv(g, s, gray) && v in Vertices(g) && v !in s.index
    requires forall x :: x in gray ==> Reach(g, x, v)
    ensures Inv(g, Push(s, v), gray + {v})
    ensures MidVisit(g, s, Push(s, v), v, {}) && Extends(s, Push(s, v))
  {
    PushKeeps(g, s, gray, v);
    hide Ordered, Placed, Finished, Chained, Anchored, GoodResult, MidVisit, Extends, Reach;
    PushStarts(g, s, v);
  }

  lemma StartFacts<V(!new)>(g: Graph<V>, s: State<V>, gray: set<V>, v: V)
    requires Inv(g, s, gray) && v !in s.index
    ensures v !in s.lowlink
  {
  }

  lemma MidFacts<V(!new)>(g: Graph<V>, s: State<V>, t: State<V>, gray: set<V>, v: V, w: V, seen: set<V>)
    requires Inv(g, t, gray + {v}) && Extends(s, t) && MidVisit(g, s, t, v, seen) && w in Succ(g, v)
    requires forall x :: x in gray ==> Reach(g, x, v)
    ensures w in Vertices(g) && Vertices(g) - t.index.Keys < Vertices(g) - s.index.Keys
    ensures t.index.Keys == t.onStack.Keys == t.lowlink.Keys && v in t.index
    ensures forall x :: x in gray + {v} ==> Reach(g, x, w)
    ensures w in t.index && !t.onStack[w] ==> MidVisit(g, s, t, v, seen + {w})
  {
    hide Ordered, Finished, Chained, Anchored, GoodResult, Bounded, LowWitness, Reach, Listed;
    assert v in Vertices(g) - s.index.Keys;
    ReachEdge(g, v, w);
    forall x | x in gray ensures Reach(g, x, w) {
      ReachTrans(g, x, v, w);
    }
  }

  lemma Visited<V(!new)>(g: Graph<V>, s: State<V>, t: State<V>, u: State<V>, gray: set<V>, v: V, w: V, seen: set<V>)
    requires Inv(g, t, gray + {v}) && Extends(s, t) && MidVisit(g, s, t, v, seen) && w in Succ(g, v)
    requires w !in t.index && v !in s.lowlink
    requires Inv(g, u, gray + {v}) && Extends(t, u) && LowPost(g, t, u, w)
    ensures w in u.lowlink && v in u.lowlink
    ensures var r := Lower(u, v, u.lowlink[w]);
            Inv(g, r, gray + {v}) && Extends(s, r) && MidVisit(g, s, r, v, seen + {w})
  {
    hide Ordered, Placed, Finished, Chained, Anchored, GoodResult, Bounded, LowWitness, Reach, Succ, Vertices;
    AfterVisit(g, s, t, u, v, w, seen);
    hide MidVisit, LowPost, Extends;
    LowerKeeps(g, u, gray + {v}, v, u.lowlink[w]);
    ExtendsTrans(s, t, u);
    LowerExtends(s, u, v, u.lowlink[w]);
  }

  lemma Stacked<V(!new)>(g: Graph<V>, s: State<V>, t: State<V>, gray: set<V>, v: V, w: V, seen: set<V>)
    requires Inv(g, t, gray + {v}) && Extends(s, t) && MidVisit(g, s, t, v, seen) && w in Succ(g, v)
    requires w in t.index && w in t.onStack && t.onStack[w] && v in t.lowlink && v !in s.lowlink
    ensures var r := Lower(t, v, t.index[w]);
            Inv(g, r, gray + {v}) && Extends(s, r) && MidVisit(g, s, r, v, seen + {w})
  {
    hide MidVisit, Ordered, Finished, Chained, Anchored, GoodResult, Listed, Extends, Reach, Succ, Vertices;
    AfterStacked(g, s, t, v, w, seen);
    LowerKeeps(g, t, gray + {v}, v, t.index[w]);
    LowerExtends(s, t, v, t.index[w]);
  }

  lemma EndFacts<V(!new)>(g: Graph<V>, s: State<V>, t: State<V>, gray: set<V>, v: V)
    requires Inv(g, s, gray) && Inv(g, t, gray + {v}) && Extends(s, t) && MidVisit(g, s, t, v, Succ(g, v))
    ensures v in t.index && v in t.lowlink && t.index.Keys == t.onStack.Keys
    ensures |s.stack| < |t.stack|
    ensures forall m :: 0 <= m < |t.stack| && t.stack[m] == v ==> m == |s.stack|
    ensures t.stack[|s.stack|] == v
    ensures forall x :: x in t.stack ==> x in t.onStack
    ensures t.lowlink[v] == t.index[v] ==> AtRoot(g, s, t, gray, v)
  {
    hide Placed, Finished, Chained, Anchored, GoodResult, Bounded, LowWitness, Reach, Succ, Vertices;
  }

  lemma PopNone<V>(stack: seq<V>, onStack: map<V, bool>)
    ensures stack == stack[..|stack|]
    ensures Reversed(stack[|stack|..]) == [] && Cleared(onStack, stack[|stack|..]) == onStack
  {
  }

  lemma PopStep<V>(stack: seq<V>, onStack: map<V, bool>, m: nat)
    requires m < |stack| && stack[m] in onStack
    ensures Reversed(stack[m..]) == Reversed(stack[m + 1..]) + [stack[m]]
    ensures Cleared(onStack, stack[m..]) == Cleared(onStack, stack[m + 1..])[stack[m] := false]
    ensures stack[..m + 1][..m] == stack[..m]
  {
  }

  class Search<V(==,!new)> {
    var counter: nat
    var stack: seq<V>
    var onStack: map<V, bool>
    var index: map<V, nat>
    var lowlink: map<V, nat>
    var result: seq<seq<V>>

    ghost function Snap(): State<V>
      reads this
    {
      State(counter, stack, onStack, index, lowlink, result)
    }

    constructor ()
      ensures Snap() == State(0, [], map[], map[], map[], [])
    {
      counter, stack, onStack, index, lowlink, result := 0, [], map[], map[], map[], [];
    }

    method Open(v: V)
      modifies this
      ensures Snap() == Push(old(Snap()), v)
    {
      index := index[v := counter];
      lowlink := lowlink[v := counter];
      counter := counter + 1;
      stack := stack + [v];
      onStack := onStack[v := true];
    }

    method LowerTo(v: V, k: nat)
      requires v in lowlink
      modifies this`lowlink
      ensures Snap() == Lower(old(Snap()), v, k)
    {
      lowlink := lowlink[v := if k < lowlink[v] then k else lowlink[v]];
    }

    // Pops down to and including v, which sits at height n, and emits what was popped.
    method PopComponent(v: V, ghost n: nat)
      requires n < |stack| && stack[n] == v
      requires forall m :: 0 <= m < |stack| && stack[m] == v ==> m == n
      requires forall x :: x in stack ==> x in onStack
      modifies this
      ensures Snap() == Emit(old(Snap()), n)
    {
      ghost var whole, flags := stack, onStack;
      hide Reversed, Cleared;
      var comp: seq<V> := [];
      PopNone(whole, flags);
      while true
        invariant n < |stack| <= |whole| && stack == whole[..|stack|]
        invariant comp == Reversed(whole[|stack|..]) && onStack == Cleared(flags, whole[|stack|..])
        invariant Snap() == old(Snap()).(stack := stack, onStack := onStack)
        decreases |stack|
      {
        var w := stack[|stack| - 1];
        PopStep(whole, flags, |stack| - 1);
        stack := stack[..|stack| - 1];
        onStack := onStack[w := false];
        comp := comp + [w];
        if w == v {
          break;
        }
      }
      result := result + [comp];
    }

    // The order in which successors are taken is left open.
    method StrongConnect(g: Graph<V>, v: V, ghost gray: set<V>)
      requires Inv(g, Snap(), gray)
      requires v in Vertices(g) && v !in index
      requires forall x :: x in gray ==> Reach(g, x, v)
      modifies this
      ensures Inv(g, Snap(), gray)
      ensures Extends(old(Snap()), Snap())
      ensures LowPost(g, old(Snap()), Snap(), v)
      decreases Vertices(g) - index.Keys
    {
      hide Inv, MidVisit, LowPost, Extends, Vertices, Reach, Succ, AtRoot, Reversed;
      ghost var s := Snap();
      StartFacts(g, s, gray, v);
      OpenFacts(g, s, gray, v);
      Open(v);
      var todo := Succ(g, v);
      assert Succ(g, v) - todo == {};
      while todo != {}
        invariant Inv(g, Snap(), gray + {v})
        invariant Extends(s, Snap())
        invariant todo <= Succ(g, v) && MidVisit(g, s, Snap(), v, Succ(g, v) - todo)
        decreases todo
      {
        var w :| w in todo;
        ghost var t, seen := Snap(), Succ(g, v) - todo;
        MidFacts(g, s, t, gray, v, w, seen);
        if w !in index {
          StrongConnect(g, w, gray + {v});
          Visited(g, s, t, Snap(), gray, v, w, seen);
          LowerTo(v, lowlink[w]);
        } else if onStack[w] {
          Stacked(g, s, t, gray, v, w, seen);
          LowerTo(v, index[w]);
        }
        todo := todo - {w};
        assert Succ(g, v) - todo == seen + {w};
      }
      ghost var t, n := Snap(), |s.stack|;
      assert Succ(g, v) - todo == Succ(g, v);
      EndFacts(g, s, t, gray, v);
      if lowlink[v] == index[v] {
        PopComponent(v, n);
        Close(g, s, t, gray, v);
      } else {
        StayOpen(g, s, t, gray, v);
      }
    }
  }

  lemma EmptyInv<V(!new)>(g: Graph<V>)
    ensures Inv(g, State(0, [], map[], map[], map[], []), {})
  {
  }

  // With no visit in progress nothing is left on the stack.
  lemma NothingStacked<V(!new)>(g: Graph<V>, s: State<V>)
    requires Inv(g, s, {})
    ensures GoodResult(g, s.result)
    ensures forall x :: x in s.index <==> Listed(s.result, x)
    ensures s.index.Keys <= Vertices(g) && forall x, w :: x in s.index && w in Succ(g, x) ==> w in s.index
  {
  }

  lemma AllVisited<V>(g: Graph<V>, seen: set<V>)
    requires g.Keys <= seen && forall x, w :: x in seen && w in Succ(g, x) ==> w in seen
    ensures Vertices(g) <= seen
  {
  }

  // Tarjan's search over every key of the graph, in any order.
  method StronglyConnectedComponents<V(==,!new)>(g: Graph<V>) returns (result: seq<seq<V>>)
    ensures forall x :: Listed(result, x) <==> x in Vertices(g)
    ensures forall i :: 0 <= i < |result| ==> IsComponent(g, result[i]) && Distinct(result[i])
    ensures Disjoint(result)
    ensures LeavesFirst(g, result)
  {
    hide Inv, IsComponent, Distinct, Disjoint, LeavesFirst, Listed, Bounded, LowWitness, Reach;
    var search := new Search<V>();
    EmptyInv(g);
    var todo := g.Keys;
    while todo != {}
      invariant Inv(g, search.Snap(), {})
      invariant todo <= g.Keys && g.Keys - todo <= search.index.Keys
      decreases todo
    {
      var v :| v in todo;
      ghost var seen := search.index.Keys;
      if v !in search.index {
        search.StrongConnect(g, v, {});
        assert seen <= search.index.Keys && v in search.index;
      }
      todo := todo - {v};
    }
    NothingStacked(g, search.Snap());
    AllVisited(g, search.index.Keys);
    result := search.result;
  }
}
