/** The ratcheting budget of panic-prone lines per file (scripts/check_panic_budget.py). */
module PanicBudget {
  import opened Sums
  import opened Scanner

  type Counts = map<string, nat>

  datatype Baseline = Baseline(total: nat, tracked: Counts)

  ghost function Total(m: Counts): int {
    Sum(m.Keys, p => if p in m then m[p] else 0)
  }

  lemma TotalTake(m: Counts, todo: set<string>, p: string)
    requires p in todo && todo <= m.Keys
    ensures Sum(todo, p => if p in m then m[p] else 0) == m[p] + Sum(todo - {p}, p => if p in m then m[p] else 0)
  {
    SumTake(todo, p => if p in m then m[p] else 0, p);
  }

  // A pointwise smaller table on fewer files has a smaller total.
  lemma TotalMonotone(m: Counts, n: Counts)
    requires Within(m, n)
    ensures Total(m) <= Total(n)
  {
    var f: string -> int := p => if p in m then m[p] else 0;
    var g: string -> int := p => if p in n then n[p] else 0;
    SumSubset(m.Keys, n.Keys, f);
    SumMono(n.Keys, f, g);
    SumSame(m.Keys, f, p => if p in m then m[p] else 0);
    SumSame(n.Keys, g, p => if p in n then n[p] else 0);
  }

  predicate Within(m: Counts, n: Counts) {
    forall p :: p in m ==> p in n && m[p] <= n[p]
  }

  method SumValues(m: Counts) returns (total: int)
    ensures total == Total(m)
  {
    total := 0;
    var todo := m.Keys;
    while todo != {}
      invariant todo <= m.Keys
      invariant total + Sum(todo, p => if p in m then m[p] else 0) == Total(m)
      decreases todo
    {
      var p :| p in todo;
      TotalTake(m, todo, p);
      total := total + m[p];
      todo := todo - {p};
    }
  }

  // ---------------------------------------------------------------- counting the tree

  // Production lines per file that match the budget pattern.
  const PANIC := "panic"

  function FileCount(lines: seq<Line>): nat {
    Hits(Output(CLEAN, lines), PANIC)
  }

  // Files with at least one hit.
  function CountsOf(files: map<string, seq<Line>>): Counts {
    map p | p in files && FileCount(files[p]) > 0 :: FileCount(files[p])
  }

  method CurrentCounts(files: map<string, seq<Line>>) returns (counts: Counts)
    ensures counts == CountsOf(files)
    ensures forall p :: p in counts <==> p in files && Hits(Output(CLEAN, files[p]), PANIC) >= 1
    ensures forall p :: p in counts ==> counts[p] == Hits(Output(CLEAN, files[p]), PANIC)
  {
    hide FileCount, Hits, Output;
    counts := map[];
    var todo := files.Keys;
    while todo != {}
      invariant todo <= files.Keys
      invariant forall p :: p in counts <==> p in files && p !in todo && FileCount(files[p]) > 0
      invariant forall p :: p in counts ==> counts[p] == FileCount(files[p])
      decreases todo
    {
      var p :| p in todo;
      var lines := ProductionLines(files[p]);
      var count := CountMatching(lines);
      assert count == FileCount(files[p]) by { FileCountIs(files[p]); }
      if count > 0 {
        counts := counts[p := count];
      }
      todo := todo - {p};
    }
    forall p | p in files ensures FileCount(files[p]) == Hits(Output(CLEAN, files[p]), PANIC) {
      FileCountIs(files[p]);
    }
  }

  lemma FileCountIs(lines: seq<Line>)
    ensures FileCount(lines) == Hits(Output(CLEAN, lines), PANIC)
  {
  }

  method CountMatching(lines: seq<Line>) returns (count: nat)
    ensures count == Hits(lines, PANIC)
  {
    count := 0;
    for i := 0 to |lines|
      invariant count == Hits(lines[..i], PANIC)
    {
      assert lines[..i + 1] == lines[..i] + [lines[i]];
      HitsAppend(lines[..i], [lines[i]], PANIC);
      HitsOne(lines[i], PANIC);
      if PANIC in lines[i].matches {
        count := count + 1;
      }
    }
    assert lines[..|lines|] == lines;
  }

  // ---------------------------------------------------------------- the check

  datatype Finding =
    | TotalChanged(before: int, after: int)
    | NewFile(path: string, count: int)
    | FileChanged(path: string, before: int, after: int)
    | FileRemoved(path: string, before: int)

  ghost predicate IsRegression(b: Baseline, current: Counts, f: Finding) {
    match f
    case TotalChanged(before, after) => before == b.total && after == Total(current) && after > before
    case NewFile(p, count) => p in current && p !in b.tracked && count == current[p]
    case FileChanged(p, before, after) =>
      p in current && p in b.tracked && before == b.tracked[p] && after == current[p] && after > before
    case FileRemoved(_, _) => false
  }

  ghost predicate IsImprovement(b: Baseline, current: Counts, f: Finding) {
    match f
    case TotalChanged(before, after) => before == b.total && after == Total(current) && after < before
    case NewFile(_, _) => false
    case FileChanged(p, before, after) =>
      p in current && p in b.tracked && before == b.tracked[p] && after == current[p] && after < before
    case FileRemoved(p, before) => p in b.tracked && p !in current && before == b.tracked[p]
  }

  ghost predicate Passes(b: Baseline, current: Counts) {
    Total(current) <= b.total && Within(current, b.tracked)
  }

  predicate PathIn(f: Finding, paths: set<string>) {
    !f.TotalChanged? && f.path in paths
  }

  // Reports exactly the regressions and the improvements there are.
  method Check(b: Baseline, current: Counts) returns (regressions: seq<Finding>, improvements: seq<Finding>)
    ensures forall f :: f in regressions <==> IsRegression(b, current, f)
    ensures forall f :: f in improvements <==> IsImprovement(b, current, f)
  {
    hide Total;
    regressions, improvements := [], [];
    var total := SumValues(current);
    if total > b.total {
      regressions := [TotalChanged(b.total, total)];
    } else if total < b.total {
      improvements := [TotalChanged(b.total, total)];
    }
    var todo := current.Keys;
    while todo != {}
      invariant todo <= current.Keys
      invariant forall f :: f in regressions <==> IsRegression(b, current, f) && !PathIn(f, todo)
      invariant forall f :: f in improvements <==> IsImprovement(b, current, f) && !PathIn(f, todo) && !f.FileRemoved?
      decreases todo
    {
      var p :| p in todo;
      if p !in b.tracked {
        regressions := regressions + [NewFile(p, current[p])];
      } else if current[p] > b.tracked[p] {
        regressions := regressions + [FileChanged(p, b.tracked[p], current[p])];
      } else if current[p] < b.tracked[p] {
        improvements := improvements + [FileChanged(p, b.tracked[p], current[p])];
      }
      todo := todo - {p};
    }
    todo := b.tracked.Keys;
    while todo != {}
      invariant todo <= b.tracked.Keys
      invariant forall f :: f in improvements <==> IsImprovement(b, current, f) && !(f.FileRemoved? && f.path in todo)
      decreases todo
    {
      var p :| p in todo;
      if p !in current {
        improvements := improvements + [FileRemoved(p, b.tracked[p])];
      }
      todo := todo - {p};
    }
  }

  // Nothing is reported exactly when the total and every file stay within the baseline.
  lemma PassesIff(b: Baseline, current: Counts)
    ensures Passes(b, current) <==> forall f :: !IsRegression(b, current, f)
  {
    hide Total;
    if forall f :: !IsRegression(b, current, f) {
      assert !IsRegression(b, current, TotalChanged(b.total, Total(current)));
      forall p | p in current ensures p in b.tracked && current[p] <= b.tracked[p] {
        assert !IsRegression(b, current, NewFile(p, current[p]));
        if p in b.tracked {
          assert !IsRegression(b, current, FileChanged(p, b.tracked[p], current[p]));
        }
      }
    }
  }

  method WriteBaseline(current: Counts) returns (b: Baseline)
    ensures b.tracked == current && b.total == Total(current)
  {
    var total := SumValues(current);
    TotalNat(current);
    b := Baseline(total, current);
  }

  lemma TotalNat(m: Counts)
    ensures Total(m) >= 0
  {
    SumNonNegative(m.Keys, p => if p in m then m[p] else 0);
  }

  // ---------------------------------------------------------------- the ratchet

  ghost predicate Consistent(b: Baseline) {
    b.total == Total(b.tracked)
  }

  // Against a written baseline the per-file checks alone decide.
  lemma FilesDecide(b: Baseline, current: Counts)
    requires Consistent(b)
    ensures Passes(b, current) <==> Within(current, b.tracked)
  {
    hide Total, Within;
    if Within(current, b.tracked) {
      TotalMonotone(current, b.tracked);
    }
  }

  // A freshly written baseline reports neither regression nor improvement for the same tree.
  lemma FreshIsQuiet(b: Baseline, current: Counts)
    requires b.tracked == current && b.total == Total(current)
    ensures Passes(b, current) && forall f :: !IsRegression(b, current, f) && !IsImprovement(b, current, f)
  {
  }

  // Commits that pass the check; after one, the baseline may be rewritten.
  ghost predicate Ratchet(baselines: seq<Baseline>, commits: seq<Counts>) {
    && |baselines| == |commits| + 1
    && forall i :: 0 <= i < |commits| ==>
         && Passes(baselines[i], commits[i])
         && (baselines[i + 1] == baselines[i]
             || (baselines[i + 1].tracked == commits[i] && baselines[i + 1].total == Total(commits[i])))
  }

  lemma {:induction false} RatchetTightens(baselines: seq<Baseline>, commits: seq<Counts>, i: nat, j: nat)
    requires Ratchet(baselines, commits) && i <= j < |baselines|
    ensures Within(baselines[j].tracked, baselines[i].tracked) && baselines[j].total <= baselines[i].total
    decreases j
  {
    hide Total;
    if i < j {
      RatchetTightens(baselines, commits, i, j - 1);
      assert Passes(baselines[j - 1], commits[j - 1]);
    }
  }

  // Whatever passes today would have passed against every earlier baseline.
  lemma PassesBackwards(baselines: seq<Baseline>, commits: seq<Counts>, i: nat, j: nat, current: Counts)
    requires Ratchet(baselines, commits) && i <= j < |baselines| && Passes(baselines[j], current)
    ensures Passes(baselines[i], current)
  {
    hide Total;
    RatchetTightens(baselines, commits, i, j);
  }

  // A cfg(test) block put into a file where the scan is clean, with no hit among its attributes,
  // changes neither the counts nor the verdict.
  lemma TestBlockIsFree(files: map<string, seq<Line>>, p: string,
                        pre: seq<Line>, attrs: seq<Line>, item: Line, body: seq<Line>, post: seq<Line>)
    requires StateAfter(CLEAN, pre) == CLEAN && IsTestBlock(attrs, item, body) && Hits(Visible(attrs), PANIC) == 0
    ensures FileCount(pre + (attrs + [item] + body) + post) == FileCount(pre + post)
    ensures CountsOf(files[p := pre + (attrs + [item] + body) + post]) == CountsOf(files[p := pre + post])
  {
    hide IsTestBlock, StateAfter, Output, Hits, Visible;
    BlockUncounted(pre, attrs, item, body, post, PANIC);
    hide FileCount;
    SameCounts(files, p, pre + (attrs + [item] + body) + post, pre + post);
  }

  lemma SameCounts(files: map<string, seq<Line>>, p: string, a: seq<Line>, b: seq<Line>)
    requires FileCount(a) == FileCount(b)
    ensures CountsOf(files[p := a]) == CountsOf(files[p := b])
  {
  }
}
