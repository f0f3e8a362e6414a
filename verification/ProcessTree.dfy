/** Collecting a process and all its descendants from a process table (scripts/bench_memory_cli.py). */
module ProcessTree {
  import opened Digraph

  datatype Pid = Pid(number: nat)

  // Parent to children.
  function Tree(ppidOf: map<Pid, Pid>): Graph<Pid> {
    map parent | parent in ppidOf.Values :: set pid | pid in ppidOf && ppidOf[pid] == parent
  }

  method ChildrenOf(ppidOf: map<Pid, Pid>) returns (children: map<Pid, seq<Pid>>)
    ensures forall p, c :: (p in children && c in children[p]) <==> c in ppidOf && ppidOf[c] == p
  {
    children := map[];
    var todo := ppidOf.Keys;
    while todo != {}
      invariant todo <= ppidOf.Keys
      invariant forall p, c :: (p in children && c in children[p]) <==> c in ppidOf && c !in todo && ppidOf[c] == p
      decreases todo
    {
      var pid :| pid in todo;
      var ppid := ppidOf[pid];
      children := children[ppid := (if ppid in children then children[ppid] else []) + [pid]];
      todo := todo - {pid};
    }
  }

  // An edge of the tree leads from a process to one that names it as its parent.
  lemma TreeIs(ppidOf: map<Pid, Pid>)
    ensures forall p, c :: c in Succ(Tree(ppidOf), p) <==> c in ppidOf && ppidOf[c] == p
  {
  }

  ghost predicate Reachable(g: Graph<Pid>, roots: seq<Pid>, p: Pid) {
    exists r :: r in roots && Reach(g, r, p)
  }

  lemma ReachableStep(g: Graph<Pid>, roots: seq<Pid>, p: Pid, c: Pid)
    requires Reachable(g, roots, p) && c in Succ(g, p)
    ensures Reachable(g, roots, c)
  {
    hide Reach, Succ;
    var r :| r in roots && Reach(g, r, p);
    ReachEdge(g, p, c);
    ReachTrans(g, r, p, c);
  }

  // Exactly what some root reaches, roots included.
  method CollectDescendants(ppidOf: map<Pid, Pid>, roots: seq<Pid>) returns (seen: set<Pid>)
    ensures forall p :: p in seen <==> Reachable(Tree(ppidOf), roots, p)
    ensures (forall r :: r in roots ==> r in seen) && forall c :: c in ppidOf && ppidOf[c] in seen ==> c in seen
    ensures forall p :: p in seen ==> p in roots || (p in ppidOf && ppidOf[p] in seen)
  {
    hide Reach, Succ, Tree, Reachable;
    var children := ChildrenOf(ppidOf);
    ghost var g := Tree(ppidOf);
    TreeIs(ppidOf);
    ghost var all := Elems(roots) + ppidOf.Keys;
    seen := {};
    var stack := roots;
    forall r | r in roots ensures Reachable(g, roots, r) {
      RootReachable(g, roots, r);
    }
    while stack != []
      invariant forall p :: p in stack || p in seen ==> p in all && Reachable(g, roots, p)
      invariant forall r :: r in roots ==> r in seen || r in stack
      invariant forall p, c :: p in seen && c in Succ(g, p) ==> c in seen || c in stack
      invariant forall p :: p in stack || p in seen ==> p in roots || (p in ppidOf && ppidOf[p] in seen)
      decreases all - seen, |stack|
    {
      var pid := stack[|stack| - 1];
      ghost var before := stack;
      stack := stack[..|stack| - 1];
      assert forall p :: p in before ==> p == pid || p in stack;
      if pid in seen {
        continue;
      }
      seen := seen + {pid};
      forall c | c in Succ(g, pid) ensures Reachable(g, roots, c) && c in all {
        ReachableStep(g, roots, pid, c);
        ChildIsListed(ppidOf, pid, c);
      }
      if pid in children {
        stack := stack + children[pid];
      }
    }
    assert Closed(g, seen);
    forall p | Reachable(g, roots, p) ensures p in seen {
      Contained(g, roots, seen, p);
    }
  }

  lemma RootReachable(g: Graph<Pid>, roots: seq<Pid>, r: Pid)
    requires r in roots
    ensures Reachable(g, roots, r)
  {
    ReachSelf(g, r);
  }

  lemma ChildIsListed(ppidOf: map<Pid, Pid>, p: Pid, c: Pid)
    requires c in Succ(Tree(ppidOf), p)
    ensures c in ppidOf
  {
  }

  lemma Contained(g: Graph<Pid>, roots: seq<Pid>, seen: set<Pid>, p: Pid)
    requires (forall r :: r in roots ==> r in seen) && Closed(g, seen) && Reachable(g, roots, p)
    ensures p in seen
  {
    hide Reach, Succ;
    var r :| r in roots && Reach(g, r, p);
    ReachStays(g, seen, r, p);
  }
}
