/** The crate-split report: module graph, its cycles, and the edges to cut in the largest one
    (scripts/analyze_root_crate.py, `main`). */
module Planner {
  import opened Digraph
  import opened Sums
  import opened Feedback
  import opened TextOrder
  import opened Sorting
  import Components
  import Tarjan
  import Eades

  // ---------------------------------------------------------------- listing the back-edges

  ghost function BackTerm<V(!new)>(out: Weighted<V>, order: seq<V>, u: V, v: V): int {
    if Back(out, order, u, v) then W(out, u, v) else 0
  }

  ghost function BackOut<V(!new)>(out: Weighted<V>, order: seq<V>, t: set<V>, u: V): int {
    Sum(t, v => BackTerm(out, order, u, v))
  }

  ghost function BackInto<V(!new)>(out: Weighted<V>, order: seq<V>, v: V): int {
    Sum(Elems(order), u => BackTerm(out, order, u, v))
  }

  lemma BackIntoAt<V(!new)>(out: Weighted<V>, order: seq<V>, i: nat)
    requires Distinct(order) && i < |order|
    ensures BackInto(out, order, order[i]) == InW(out, Elems(order[i + 1..]), order[i])
  {
    var v, later := order[i], Elems(order[i + 1..]);
    hide Edge;
    forall u | u in Elems(order) ensures u in later <==> Before(order, v, u) {
      LaterIff(order, i, u);
    }
    SumSubset(later, Elems(order), u => BackTerm(out, order, u, v));
    SumSame(later, u => BackTerm(out, order, u, v), u => W(out, u, v));
  }

  lemma LaterIff<V>(order: seq<V>, i: nat, u: V)
    requires Distinct(order) && i < |order|
    ensures u in order[i + 1..] <==> Before(order, order[i], u)
  {
  }

  lemma {:induction false} BackByTarget<V(!new)>(out: Weighted<V>, order: seq<V>, k: nat)
    requires Distinct(order) && k <= |order|
    ensures BackWeight(out, order[k..]) == Sum(Elems(order[k..]), v => BackInto(out, order, v))
    decreases |order| - k
  {
    if k < |order| {
      var rest := order[k..];
      assert rest[1..] == order[k + 1..];
      BackByTarget(out, order, k + 1);
      BackIntoAt(out, order, k);
      SumTake(Elems(rest), v => BackInto(out, order, v), order[k]);
      assert Elems(rest) - {order[k]} == Elems(order[k + 1..]);
    }
  }

  lemma BackBySource<V(!new)>(out: Weighted<V>, order: seq<V>)
    requires Distinct(order)
    ensures Sum(Elems(order), u => BackOut(out, order, Elems(order), u)) == BackWeight(out, order)
  {
    var t := Elems(order);
    var f: (V, V) -> int := (u, v) => BackTerm(out, order, u, v);
    BackByTarget(out, order, 0);
    assert order[0..] == order;
    SumSwap(t, t, f);
    forall u | u in t ensures Row(t, f, u) == BackOut(out, order, t, u) {
      RowSame(t, f, u, v => BackTerm(out, order, u, v));
    }
    SumSame(t, u => Row(t, f, u), u => BackOut(out, order, t, u));
    forall v | v in t ensures Column(t, f, v) == BackInto(out, order, v) {
      ColumnSame(t, f, v, u => BackTerm(out, order, u, v));
    }
    SumSame(t, v => Column(t, f, v), v => BackInto(out, order, v));
  }

  predicate Positions<V(==)>(order: seq<V>, pos: map<V, nat>) {
    (forall i :: 0 <= i < |order| ==> order[i] in pos && pos[order[i]] == i)
  }

  method PositionsOf<V(==)>(order: seq<V>) returns (pos: map<V, nat>)
    requires Distinct(order)
    ensures Positions(order, pos)
  {
    pos := map[];
    for i := 0 to |order|
      invariant forall j :: 0 <= j < i ==> order[j] in pos && pos[order[j]] == j
    {
      pos := pos[order[i] := i];
    }
  }

  lemma BeforeByPosition<V(!new)>(order: seq<V>, pos: map<V, nat>, v: V, u: V)
    requires Distinct(order) && Positions(order, pos) && v in order && u in order
    ensures v in pos && u in pos
    ensures Before(order, v, u) <==> pos[v] < pos[u]
  {
  }

  datatype Cut<V> = Cut(weight: nat, source: V, target: V)

  ghost predicate ListsBack<V(!new)>(out: Weighted<V>, order: seq<V>, sources: set<V>, cuts: seq<Cut<V>>) {
    && Distinct(cuts)
    && forall c :: c in cuts <==> c.source in sources && Back(out, order, c.source, c.target)
                                  && c.weight == W(out, c.source, c.target)
  }

  lemma BackTargets<V(!new)>(out: Weighted<V>, order: seq<V>, u: V)
    requires WellFormed(out, Elems(order)) && u in order
    ensures Sum(out[u].Keys, v => BackTerm(out, order, u, v)) == BackOut(out, order, Elems(order), u)
  {
    SumSubset(out[u].Keys, Elems(order), v => BackTerm(out, order, u, v));
  }

  method BackEdgesFrom<V(==,!new)>(out: Weighted<V>, ghost order: seq<V>, pos: map<V, nat>, u: V)
    returns (cuts: seq<Cut<V>>, total: int)
    requires WellFormed(out, Elems(order)) && Distinct(order) && Positions(order, pos) && u in order
    ensures ListsBack(out, order, {u}, cuts) && total == CutSum(cuts)
    ensures total == BackOut(out, order, Elems(order), u)
  {
    hide Before;
    cuts, total := [], 0;
    var todo := out[u].Keys;
    BackTargets(out, order, u);
    while todo != {}
      invariant todo <= out[u].Keys
      invariant Distinct(cuts) && total == CutSum(cuts)
      invariant forall c :: c in cuts <==> c.source == u && Back(out, order, u, c.target) && c.target !in todo
                                           && c.weight == W(out, u, c.target)
      invariant total + Sum(todo, v => BackTerm(out, order, u, v)) == BackOut(out, order, Elems(order), u)
      decreases todo
    {
      var v :| v in todo;
      assert v in order;
      BeforeByPosition(order, pos, v, u);
      SumTake(todo, v => BackTerm(out, order, u, v), v);
      if pos[v] < pos[u] {
        CutSumJoin(cuts, [Cut(out[u][v], u, v)]);
        CutSumOne(Cut(out[u][v], u, v));
        cuts := cuts + [Cut(out[u][v], u, v)];
        total := total + out[u][v];
      }
      todo := todo - {v};
    }
  }

  // Cheapest first, then by the names of source and target.
  predicate NoDearer<V(!new)>(name: V -> string, c: Cut<V>, d: Cut<V>) {
    c.weight < d.weight ||
    (c.weight == d.weight &&
      (NameLess(name(c.source), name(d.source)) ||
        (name(c.source) == name(d.source) && !NameLess(name(d.target), name(c.target)))))
  }

  function CheapestFirst<V(!new)>(name: V -> string): (Cut<V>, Cut<V>) -> bool {
    (c: Cut<V>, d: Cut<V>) => NoDearer(name, c, d)
  }

  lemma CheapestFirstOrders<V(!new)>(name: V -> string)
    ensures TotalPreorder(CheapestFirst(name))
  {
    hide NameLess;
    forall a, b: Cut<V> ensures NoDearer(name, a, b) || NoDearer(name, b, a) {
      NameTotal(name(a.source), name(b.source));
      if NameLess(name(b.target), name(a.target)) && NameLess(name(a.target), name(b.target)) {
        NameTransitive(name(a.target), name(b.target), name(a.target));
        NameIrreflexive(name(a.target));
      }
    }
    forall a, b, c: Cut<V> | NoDearer(name, a, b) && NoDearer(name, b, c) ensures NoDearer(name, a, c) {
      NoDearerTransitive(name, a, b, c);
    }
  }

  lemma NoDearerTransitive<V(!new)>(name: V -> string, a: Cut<V>, b: Cut<V>, c: Cut<V>)
    requires NoDearer(name, a, b) && NoDearer(name, b, c)
    ensures NoDearer(name, a, c)
  {
    hide NameLess;
    if NameLess(name(a.source), name(b.source)) && NameLess(name(b.source), name(c.source)) {
      NameTransitive(name(a.source), name(b.source), name(c.source));
    }
    if NameLess(name(c.target), name(a.target)) {
      NameTotal(name(a.target), name(b.target));
      if NameLess(name(a.target), name(b.target)) {
        NameTransitive(name(c.target), name(a.target), name(b.target));
      }
    }
  }

  lemma {:induction false} DistinctCounts<T>(s: seq<T>)
    ensures Distinct(s) <==> forall x :: x in s ==> multiset(s)[x] == 1
  {
    if s != [] {
      var rest := s[1..];
      DistinctCounts(rest);
      HeadMembers(s);
      assert s[0] in rest <==> s[0] in multiset(rest);
      DistinctHead(s);
      forall x | x in rest ensures multiset(s)[x] == multiset(rest)[x] + if x == s[0] then 1 else 0 {
        assert x in s;
      }
      assert forall x :: x in s <==> x == s[0] || x in rest;
    }
  }

  lemma DistinctHead<T>(s: seq<T>)
    requires s != []
    ensures Distinct(s) <==> s[0] !in s[1..] && Distinct(s[1..])
  {
    forall i, j | s[0] !in s[1..] && Distinct(s[1..]) && 0 <= i < j < |s| ensures s[i] != s[j] {
      assert s[j] == s[1..][j - 1] && (i > 0 ==> s[i] == s[1..][i - 1]);
    }
  }

  lemma SortedDistinct<T>(leq: (T, T) -> bool, s: seq<T>)
    requires Distinct(s)
    ensures Distinct(Sort(leq, s))
  {
    hide Distinct;
    DistinctCounts(s);
    DistinctCounts(Sort(leq, s));
    SortMembers(leq, s);
    forall x | x in Sort(leq, s) ensures multiset(Sort(leq, s))[x] == 1 {
      SameMembers(leq, s, x);
    }
  }

  lemma SortedListsBack<V(!new)>(out: Weighted<V>, order: seq<V>, t: set<V>, cuts: seq<Cut<V>>, name: V -> string)
    requires ListsBack(out, order, t, cuts)
    ensures ListsBack(out, order, t, Sort(CheapestFirst(name), cuts))
    ensures Sorted(CheapestFirst(name), Sort(CheapestFirst(name), cuts))
  {
    hide Back, Distinct, TotalPreorder, Sorted, Sort;
    SortedDistinct(CheapestFirst(name), cuts);
    CheapestFirstOrders(name);
    SortSorted(CheapestFirst(name), cuts);
    forall c ensures c in Sort(CheapestFirst(name), cuts) <==> c in cuts {
      SameMembers(CheapestFirst(name), cuts, c);
    }
  }

  // Sorted means: ascending in weight, then in the source's name, then in the target's.
  lemma SortedMeans<V(!new)>(name: V -> string, cuts: seq<Cut<V>>)
    requires Sorted(CheapestFirst(name), cuts)
    ensures forall i, j :: 0 <= i < j < |cuts| ==> cuts[i].weight <= cuts[j].weight
    ensures forall i, j :: 0 <= i < j < |cuts| && cuts[i].weight == cuts[j].weight ==>
              !NameLess(name(cuts[j].source), name(cuts[i].source))
    ensures forall i, j :: 0 <= i < j < |cuts| && cuts[i].weight == cuts[j].weight
                           && name(cuts[i].source) == name(cuts[j].source) ==>
              !NameLess(name(cuts[j].target), name(cuts[i].target))
  {
    hide NameLess;
    forall i, j | 0 <= i < j < |cuts|
      ensures cuts[i].weight <= cuts[j].weight
      ensures cuts[i].weight == cuts[j].weight ==> !NameLess(name(cuts[j].source), name(cuts[i].source))
      ensures cuts[i].weight == cuts[j].weight && name(cuts[i].source) == name(cuts[j].source) ==>
                !NameLess(name(cuts[j].target), name(cuts[i].target))
    {
      assert NoDearer(name, cuts[i], cuts[j]);
      var a, b := name(cuts[i].source), name(cuts[j].source);
      NotBothLess(a, b);
    }
  }

  function CutSum<V>(cuts: seq<Cut<V>>): nat {
    if cuts == [] then 0 else cuts[0].weight + CutSum(cuts[1..])
  }

  lemma {:induction false} CutSumJoin<V>(a: seq<Cut<V>>, b: seq<Cut<V>>)
    ensures CutSum(a + b) == CutSum(a) + CutSum(b)
  {
    if a == [] {
      assert a + b == b;
    } else {
      assert (a + b)[1..] == a[1..] + b;
      CutSumJoin(a[1..], b);
    }
  }

  lemma NoCuts<V>()
    ensures CutSum<V>([]) == 0
  {
  }

  lemma CutSumOne<V>(c: Cut<V>)
    ensures CutSum([c]) == c.weight
  {
    assert [c][1..] == [];
  }

  lemma {:induction false} CutSumInsert<V(!new)>(leq: (Cut<V>, Cut<V>) -> bool, c: Cut<V>, cuts: seq<Cut<V>>)
    ensures CutSum(Insert(leq, c, cuts)) == c.weight + CutSum(cuts)
  {
    if cuts != [] && !leq(c, cuts[0]) {
      CutSumInsert(leq, c, cuts[1..]);
    } else {
      assert ([c] + cuts)[1..] == cuts;
    }
  }

  lemma {:induction false} CutSumSort<V(!new)>(leq: (Cut<V>, Cut<V>) -> bool, cuts: seq<Cut<V>>)
    ensures CutSum(Sort(leq, cuts)) == CutSum(cuts)
  {
    if cuts != [] {
      CutSumSort(leq, cuts[1..]);
      CutSumInsert(leq, cuts[0], Sort(leq, cuts[1..]));
    }
  }

  // The feedback set of an order, cheapest edges first, and its weight.
  method BackEdges<V(==,!new)>(big: seq<V>, out: Weighted<V>, order: seq<V>, name: V -> string)
    returns (cuts: seq<Cut<V>>, total: int)
    requires Distinct(big) && WellFormed(out, Elems(big)) && Orders(order, Elems(big))
    ensures ListsBack(out, order, Elems(big), cuts)
    ensures forall i, j :: 0 <= i < j < |cuts| ==> cuts[i].weight <= cuts[j].weight
    ensures forall i, j :: 0 <= i < j < |cuts| && cuts[i].weight == cuts[j].weight ==>
              !NameLess(name(cuts[j].source), name(cuts[i].source))
    ensures forall i, j :: 0 <= i < j < |cuts| && cuts[i].weight == cuts[j].weight
                           && name(cuts[i].source) == name(cuts[j].source) ==>
              !NameLess(name(cuts[j].target), name(cuts[i].target))
    ensures total == CutSum(cuts) == BackWeight(out, order)
  {
    hide Back, CutSum, BackOut, BackWeight, W, Sort, Sorted, NameLess;
    var pos := PositionsOf(order);
    cuts, total := [], 0;
    NoCuts<V>();
    var todo := Elems(big);
    BackBySource(out, order);
    while todo != {}
      invariant todo <= Elems(big)
      invariant ListsBack(out, order, Elems(big) - todo, cuts) && total == CutSum(cuts)
      invariant total + Sum(todo, u => BackOut(out, order, Elems(order), u)) == BackWeight(out, order)
      decreases todo
    {
      var u :| u in todo;
      assert u in order;
      var some, t := BackEdgesFrom(out, order, pos, u);
      SumTake(todo, u => BackOut(out, order, Elems(order), u), u);
      ListsBackJoin(out, order, Elems(big) - todo, u, cuts, some);
      CutSumJoin(cuts, some);
      cuts, total := cuts + some, total + t;
      todo := todo - {u};
      assert Elems(big) - todo == Elems(big) - (todo + {u}) + {u};
    }
    assert Elems(big) - todo == Elems(big);
    SortedListsBack(out, order, Elems(big), cuts, name);
    CutSumSort(CheapestFirst(name), cuts);
    cuts := Sort(CheapestFirst(name), cuts);
    SortedMeans(name, cuts);
  }

  lemma ListsBackJoin<V(!new)>(out: Weighted<V>, order: seq<V>, t: set<V>, u: V, a: seq<Cut<V>>, b: seq<Cut<V>>)
    requires ListsBack(out, order, t, a) && ListsBack(out, order, {u}, b) && u !in t
    ensures ListsBack(out, order, t + {u}, a + b)
  {
  }

  // ---------------------------------------------------------------- the report

  datatype Info<V> = Info(loc: nat, fully: bool, outbound: set<V>, refCounts: map<V, nat>)

  // Modules that are not fully facades, with their references to other such modules.
  function ModuleGraph<V>(info: map<V, Info<V>>): Graph<V> {
    map n | n in info && !info[n].fully ::
      set d | d in info[n].outbound && d in info && !info[d].fully && d != n
  }

  function RefCount<V>(m: Info<V>, d: V): nat {
    if d in m.refCounts then m.refCounts[d] else 1
  }

  // The weighted subgraph on the modules of one cycle.
  function CycleWeights<V>(info: map<V, Info<V>>, big: seq<V>): Weighted<V> {
    map n | n in info && n in big ::
      map d | d in info[n].outbound && d in big && d != n :: RefCount(info[n], d)
  }

  function Loc<V>(info: map<V, Info<V>>, c: seq<V>): nat {
    if c == [] then 0
    else (if c[0] in info then info[c[0]].loc else 0) + Loc(info, c[1..])
  }

  // The module graph after the cuts.
  function Without<V(!new)>(g: Graph<V>, cuts: seq<Cut<V>>): Graph<V> {
    map u | u in g :: set v | v in g[u] && forall c :: c in cuts ==> c.source != u || c.target != v
  }

  lemma ModuleGraphShape<V(!new)>(info: map<V, Info<V>>)
    ensures LoopFree(ModuleGraph(info)) && Vertices(ModuleGraph(info)) == ModuleGraph(info).Keys
  {
  }

  lemma CycleShape<V(!new)>(info: map<V, Info<V>>, big: seq<V>)
    requires Elems(big) <= ModuleGraph(info).Keys
    ensures WellFormed(CycleWeights(info, big), Elems(big))
    ensures forall u, v :: Edge(CycleWeights(info, big), u, v) <==>
                           u in big && v in big && v in Succ(ModuleGraph(info), u)
  {
  }

  lemma WithoutEdge<V(!new)>(g: Graph<V>, out: Weighted<V>, order: seq<V>, t: set<V>, cuts: seq<Cut<V>>, u: V, v: V)
    requires WellFormed(out, t) && ListsBack(out, order, t, cuts)
    ensures v in Succ(Without(g, cuts), u) <==> v in Succ(g, u) && !Back(out, order, u, v)
  {
    hide Before, Distinct;
    if Back(out, order, u, v) {
      assert Cut(W(out, u, v), u, v) in cuts;
    }
  }

  // Everything on a cycle through a member of a component stays in the component.
  lemma CycleStays<V(!new)>(g: Graph<V>, c: seq<V>, x: V, a: V, b: V)
    requires Components.IsComponent(g, c) && x in c && a in c && b in Succ(g, a) && Reach(g, b, x)
    ensures b in c
  {
    hide Reach, Succ;
    assert Mutual(g, x, a);
    ReachEdge(g, a, b);
    ReachTrans(g, x, a, b);
    assert Mutual(g, x, b);
  }

  lemma InsideClears<V(!new)>(g: Graph<V>, h: Graph<V>, big: seq<V>, out: Weighted<V>, order: seq<V>, x: V)
    requires Components.IsComponent(g, big) && x in big && LoopFree(g)
    requires WellFormed(out, Elems(big)) && Orders(order, Elems(big))
    requires forall u, v :: Edge(out, u, v) <==> u in big && v in big && v in Succ(g, u)
    requires forall u, v :: v in Succ(h, u) <==> v in Succ(g, u) && !Back(out, order, u, v)
    ensures !OnCycle(h, x)
  {
    var k := Kept(out, order);
    if OnCycle(h, x) {
      var w :| w in Succ(h, x) && Reach(h, w, x);
      assert Carries(h, k, Elems(big), x) by {
        forall a, b | a in Elems(big) && b in Succ(h, a) && Reach(h, b, x)
          ensures b in Elems(big) && b in Succ(k, a)
        {
          InsideStep(g, h, big, out, order, x, a, b);
        }
      }
      InsideStep(g, h, big, out, order, x, x, w);
      hide Reach, Kept, Components.IsComponent, Back, WellFormed, Edge, Carries;
      ReachCarries(h, k, Elems(big), w, x);
      assert OnCycle(k, x);
      assert !Edge(out, x, x);
      KeptCycles(out, order, x);
    }
  }

  lemma InsideStep<V(!new)>(g: Graph<V>, h: Graph<V>, big: seq<V>, out: Weighted<V>, order: seq<V>, x: V, a: V, b: V)
    requires Components.IsComponent(g, big) && x in big && a in big
    requires forall u, v :: Edge(out, u, v) <==> u in big && v in big && v in Succ(g, u)
    requires forall u, v :: v in Succ(h, u) <==> v in Succ(g, u) && !Back(out, order, u, v)
    requires b in Succ(h, a) && Reach(h, b, x)
    ensures b in big && b in Succ(Kept(out, order), a)
  {
    hide Reach, Components.IsComponent, Before;
    ReachSubgraph(h, g, b, x);
    CycleStays(g, big, x, a, b);
    assert Edge(out, a, b);
  }

  lemma OutsideKeeps<V(!new)>(g: Graph<V>, h: Graph<V>, big: seq<V>, out: Weighted<V>, order: seq<V>, x: V)
    requires Components.IsComponent(g, big) && x !in big
    requires forall u, v :: Edge(out, u, v) ==> u in big
    requires forall u, v :: v in Succ(h, u) <==> v in Succ(g, u) && !Back(out, order, u, v)
    ensures OnCycle(h, x) <==> OnCycle(g, x)
  {
    hide Reach, Before, Components.IsComponent;
    if OnCycle(h, x) {
      var w :| w in Succ(h, x) && Reach(h, w, x);
      ReachSubgraph(h, g, w, x);
    }
    if OnCycle(g, x) {
      var w :| w in Succ(g, x) && Reach(g, w, x);
      var c := set a | a in Vertices(g) && Mutual(g, a, x);
      forall a | a in c ensures a !in big {
        NotInBig(g, big, a, x);
      }
      forall a, b | a in c && b in Succ(g, a) && Reach(g, b, x) ensures b in c && b in Succ(h, a) {
        ReachEdge(g, a, b);
        ReachTrans(g, x, a, b);
        assert !Edge(out, a, b);
      }
      ReachSelf(g, x);
      assert x in c;
      ReachEdge(g, x, w);
      ReachCarries(g, h, c, w, x);
      assert w in Succ(h, x);
    }
  }

  lemma NotInBig<V(!new)>(g: Graph<V>, big: seq<V>, a: V, x: V)
    requires Components.IsComponent(g, big) && x !in big && Mutual(g, a, x)
    ensures a !in big
  {
  }

  datatype Report<V> =
    | AlreadyDag
    | CutCycle(big: seq<V>, order: seq<V>, cuts: seq<Cut<V>>, total: int)

  // A component of more than one module, none of which is larger by lines of code.
  ghost predicate LargestCycle<V(!new)>(info: map<V, Info<V>>, big: seq<V>) {
    && Components.IsComponent(ModuleGraph(info), big) && Distinct(big) && |big| > 1
    && Elems(big) <= ModuleGraph(info).Keys
    && forall c :: Components.IsComponent(ModuleGraph(info), c) && Distinct(c) && |c| > 1 && Elems(c) <= ModuleGraph(info).Keys
         ==> Loc(info, c) <= Loc(info, big)
  }

  // An edge of the module graph is a reference between two different modules, neither of them a mere facade.
  lemma ModuleGraphIs<V(!new)>(info: map<V, Info<V>>, u: V, v: V)
    ensures u in ModuleGraph(info) <==> u in info && !info[u].fully
    ensures v in Succ(ModuleGraph(info), u) <==>
            u in info && v in info && u != v && !info[u].fully && !info[v].fully && v in info[u].outbound
  {
  }

  lemma CutsInfo<V(!new)>(info: map<V, Info<V>>, big: seq<V>, order: seq<V>, cuts: seq<Cut<V>>)
    requires ListsBack(CycleWeights(info, big), order, Elems(big), cuts)
    ensures forall c :: c in cuts <==>
              && c.source in big && c.target in big && c.source in info && c.source != c.target
              && c.target in info[c.source].outbound && Before(order, c.target, c.source)
              && c.weight == if c.target in info[c.source].refCounts then info[c.source].refCounts[c.target] else 1
  {
    hide Before, Distinct;
  }

  // Two distinct listings of the same modules have the same size in lines.
  lemma {:induction false} LocIsSum<V(!new)>(info: map<V, Info<V>>, c: seq<V>)
    requires Distinct(c)
    ensures Loc(info, c) == Sum(Elems(c), n => if n in info then info[n].loc else 0)
  {
    if c != [] {
      LocIsSum(info, c[1..]);
      SumTake(Elems(c), n => if n in info then info[n].loc else 0, c[0]);
      assert Elems(c) - {c[0]} == Elems(c[1..]);
    }
  }

  lemma SameComponentElems<V(!new)>(g: Graph<V>, c: seq<V>, d: seq<V>, x: V)
    requires Components.IsComponent(g, c) && Components.IsComponent(g, d) && x in c && x in d
    ensures Elems(c) == Elems(d)
  {
  }

  // The largest listed cycle is the largest cycle there is.
  lemma LargestOfAll<V(!new)>(info: map<V, Info<V>>, sccs: seq<seq<V>>, big: seq<V>)
    requires Components.IsAnswer(ModuleGraph(info), sccs)
    requires big in Components.Cycles(sccs)
    requires forall c :: c in Components.Cycles(sccs) ==> Loc(info, c) <= Loc(info, big)
    ensures LargestCycle(info, big)
  {
    var g := ModuleGraph(info);
    hide Mutual, ModuleGraph, Components.IsComponent, Components.LeavesFirst, Components.Disjoint, Distinct;
    ModuleGraphShape(info);
    Components.CyclesMembers(sccs, big);
    forall x | x in big ensures x in g.Keys {
      assert Components.Listed(sccs, x);
    }
    forall c | Components.IsComponent(g, c) && Distinct(c) && |c| > 1 && Elems(c) <= g.Keys
      ensures Loc(info, c) <= Loc(info, big)
    {
      assert c[0] in Elems(c);
      assert Components.Listed(sccs, c[0]);
      var i :| 0 <= i < |sccs| && c[0] in sccs[i];
      SameComponentElems(g, c, sccs[i], c[0]);
      DistinctSize(c);
      DistinctSize(sccs[i]);
      Components.CyclesMembers(sccs, sccs[i]);
      LocIsSum(info, c);
      LocIsSum(info, sccs[i]);
    }
  }

  method LargestListed<V(==)>(info: map<V, Info<V>>, cycles: seq<seq<V>>) returns (big: seq<V>)
    requires cycles != []
    ensures big in cycles && forall c :: c in cycles ==> Loc(info, c) <= Loc(info, big)
  {
    big := cycles[0];
    for i := 1 to |cycles|
      invariant big in cycles && forall j :: 0 <= j < i ==> Loc(info, cycles[j]) <= Loc(info, big)
    {
      if Loc(info, cycles[i]) > Loc(info, big) {
        big := cycles[i];
      }
    }
  }

  lemma CutsClear<V(!new)>(info: map<V, Info<V>>, big: seq<V>, order: seq<V>, cuts: seq<Cut<V>>, x: V)
    requires Components.IsComponent(ModuleGraph(info), big) && Elems(big) <= ModuleGraph(info).Keys
    requires Orders(order, Elems(big)) && ListsBack(CycleWeights(info, big), order, Elems(big), cuts)
    ensures OnCycle(Without(ModuleGraph(info), cuts), x) <==> OnCycle(ModuleGraph(info), x) && x !in big
  {
    var g, out := ModuleGraph(info), CycleWeights(info, big);
    var h := Without(g, cuts);
    hide ModuleGraph, CycleWeights, Without, Reach, Components.IsComponent, Orders, ListsBack, OnCycle, LoopFree, WellFormed, Back;
    ModuleGraphShape(info);
    CycleShape(info, big);
    forall u, v ensures v in Succ(h, u) <==> v in Succ(g, u) && !Back(out, order, u, v) {
      WithoutEdge(g, out, order, Elems(big), cuts, u, v);
    }
    if x in big {
      InsideClears(g, h, big, out, order, x);
    } else {
      OutsideKeeps(g, h, big, out, order, x);
    }
  }

  // From the per-module reference counts to the edges to cut.
  method PlanSplit<V(==,!new)>(info: map<V, Info<V>>, name: V -> string) returns (report: Report<V>)
    ensures report.AlreadyDag? <==> Acyclic(ModuleGraph(info))
    ensures report.CutCycle? ==>
              && LargestCycle(info, report.big)
              && Orders(report.order, Elems(report.big))
              && Eades.IsGreedyOrder(CycleWeights(info, report.big), report.order)
              && ListsBack(CycleWeights(info, report.big), report.order, Elems(report.big), report.cuts)
              && 2 * report.total <= Inner(CycleWeights(info, report.big), Elems(report.big))
              && report.total == CutSum(report.cuts) == BackWeight(CycleWeights(info, report.big), report.order)
    // The cuts are the references within the cycle that point backwards, with their numbers of lines.
    ensures report.CutCycle? ==>
              forall c :: c in report.cuts <==>
                && c.source in report.big && c.target in report.big && c.source in info && c.source != c.target
                && c.target in info[c.source].outbound && Before(report.order, c.target, c.source)
                && c.weight == if c.target in info[c.source].refCounts then info[c.source].refCounts[c.target] else 1
    ensures report.CutCycle? ==>
              && (forall i, j :: 0 <= i < j < |report.cuts| ==> report.cuts[i].weight <= report.cuts[j].weight)
              && (forall i, j :: 0 <= i < j < |report.cuts| && report.cuts[i].weight == report.cuts[j].weight ==>
                    !NameLess(name(report.cuts[j].source), name(report.cuts[i].source)))
              && (forall i, j :: 0 <= i < j < |report.cuts| && report.cuts[i].weight == report.cuts[j].weight
                                 && name(report.cuts[i].source) == name(report.cuts[j].source) ==>
                    !NameLess(name(report.cuts[j].target), name(report.cuts[i].target)))
    ensures report.CutCycle? ==>
              forall x :: OnCycle(Without(ModuleGraph(info), report.cuts), x) <==>
                          OnCycle(ModuleGraph(info), x) && x !in report.big
  {
    var g := ModuleGraph(info);
    hide ModuleGraph, CycleWeights, OnCycle, Components.IsComponent, Components.LeavesFirst, Components.Disjoint, Components.Listed;
    hide Distinct, Orders, ListsBack, BackWeight, Inner, Without, Eades.IsRun, Eades.IsGreedyOrder, Eades.BackToPicks, NameLess, Before, CutSum, Back, WellFormed, LoopFree, Acyclic;
    ModuleGraphShape(info);
    var sccs := Tarjan.StronglyConnectedComponents(g);
    var cycles := Components.Cycles(sccs);
    Components.NoCyclesIffAcyclic(g, sccs);
    if cycles == [] {
      return AlreadyDag;
    }
    var big := LargestListed(info, cycles);
    LargestOfAll(info, sccs, big);
    CycleShape(info, big);
    var out := CycleWeights(info, big);
    var order, _ := Eades.EadesOrder(big, out);
    var cuts, total := BackEdges(big, out, order, name);
    CutsInfo(info, big, order, cuts);
    forall x ensures OnCycle(Without(g, cuts), x) <==> OnCycle(g, x) && x !in big {
      CutsClear(info, big, order, cuts, x);
    }
    report := CutCycle(big, order, cuts, total);
  }
}
