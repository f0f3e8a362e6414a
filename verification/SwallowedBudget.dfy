/** The swallowed-error budget: counts per file and per pattern, ratcheted by their margins
    (scripts/check_swallowed_error_budget.py). */
module SwallowedBudget {
  import opened Sums
  import opened Scanner

  const PATTERNS := {"let_underscore", "dot_ok", "unwrap_or_default"}

  type Counts = map<string, nat>
  type Table = map<string, Counts>

  datatype Baseline = Baseline(total: nat, byPattern: Counts, tracked: Table)

  function Cell(row: Counts, name: string): nat {
    if name in row then row[name] else 0
  }

  // Every file has a count for each pattern and for nothing else, as freshly counted tables have.
  ghost predicate Full(t: Table) {
    forall p :: p in t ==> t[p].Keys == PATTERNS
  }

  ghost function FileTotal(row: Counts): int {
    Sum(row.Keys, name => Cell(row, name))
  }

  ghost function CellAt(t: Table, p: string, name: string): int {
    if p in t then Cell(t[p], name) else 0
  }

  ghost function PatternTotal(t: Table, name: string): int {
    Sum(t.Keys, p => CellAt(t, p, name))
  }

  ghost function RowTotal(t: Table, p: string): int {
    if p in t then FileTotal(t[p]) else 0
  }

  ghost function GrandTotal(t: Table): int {
    Sum(t.Keys, p => RowTotal(t, p))
  }

  // ---------------------------------------------------------------- the two ways of adding up

  lemma RowIsFile(t: Table, f: (string, string) -> int, p: string)
    requires Full(t) && p in t && forall n :: f(p, n) == CellAt(t, p, n)
    ensures Row(PATTERNS, f, p) == RowTotal(t, p)
  {
    RowSame(PATTERNS, f, p, n => Cell(t[p], n));
  }

  lemma ColumnIsPattern(t: Table, f: (string, string) -> int, name: string)
    requires forall p :: f(p, name) == CellAt(t, p, name)
    ensures Column(t.Keys, f, name) == PatternTotal(t, name)
  {
    ColumnSame(t.Keys, f, name, p => CellAt(t, p, name));
  }

  // Summed by file or by pattern, the grand total is the same.
  lemma GrandByPattern(t: Table)
    requires Full(t)
    ensures GrandTotal(t) == Sum(PATTERNS, name => PatternTotal(t, name))
  {
    hide CellAt, Row, Column, RowTotal, PatternTotal, Full;
    var f: (string, string) -> int := (p, name) => CellAt(t, p, name);
    SumSwap(t.Keys, PATTERNS, f);
    forall p | p in t.Keys ensures Row(PATTERNS, f, p) == RowTotal(t, p) {
      RowIsFile(t, f, p);
    }
    SumSame(t.Keys, p => Row(PATTERNS, f, p), p => RowTotal(t, p));
    forall name | name in PATTERNS ensures Column(t.Keys, f, name) == PatternTotal(t, name) {
      ColumnIsPattern(t, f, name);
    }
    SumSame(PATTERNS, name => Column(t.Keys, f, name), name => PatternTotal(t, name));
  }

  method FileTotalOf(row: Counts) returns (total: int)
    ensures total == FileTotal(row)
  {
    total := 0;
    var todo := row.Keys;
    while todo != {}
      invariant todo <= row.Keys
      invariant total + Sum(todo, name => Cell(row, name)) == FileTotal(row)
      decreases todo
    {
      var name :| name in todo;
      SumTake(todo, name => Cell(row, name), name);
      total := total + row[name];
      todo := todo - {name};
    }
  }

  method GrandTotalOf(t: Table) returns (total: int)
    ensures total == GrandTotal(t)
  {
    total := 0;
    var todo := t.Keys;
    while todo != {}
      invariant todo <= t.Keys
      invariant total + Sum(todo, p => RowTotal(t, p)) == GrandTotal(t)
      decreases todo
    {
      var p :| p in todo;
      SumTake(todo, p => RowTotal(t, p), p);
      var n := FileTotalOf(t[p]);
      total := total + n;
      todo := todo - {p};
    }
  }

  // Totals per pattern, file by file; a pattern that only occurs in the table is added to the totals.
  method TotalCounts(t: Table) returns (totals: Counts)
    ensures forall name :: name in totals <==> name in PATTERNS || exists p :: p in t && name in t[p]
    ensures forall name :: name in totals ==> totals[name] == PatternTotal(t, name)
  {
    totals := map name | name in PATTERNS :: 0;
    var todo := t.Keys;
    while todo != {}
      invariant todo <= t.Keys
      invariant forall name :: name in totals <==> name in PATTERNS || exists p :: p in t && p !in todo && name in t[p]
      invariant forall name :: Cell(totals, name) + Sum(todo, p => CellAt(t, p, name)) == PatternTotal(t, name)
      decreases todo
    {
      var p :| p in todo;
      ghost var before := totals;
      totals := AddRow(totals, t[p]);
      forall name ensures Cell(totals, name) + Sum(todo - {p}, p => CellAt(t, p, name)) == PatternTotal(t, name) {
        SumTake(todo, p => CellAt(t, p, name), p);
        assert Cell(before, name) + Sum(todo, p => CellAt(t, p, name)) == PatternTotal(t, name);
      }
      todo := todo - {p};
    }
    forall name ensures Cell(totals, name) == PatternTotal(t, name) {
      assert Cell(totals, name) + Sum({}, p => CellAt(t, p, name)) == PatternTotal(t, name);
    }
  }

  method AddRow(totals0: Counts, row: Counts) returns (totals: Counts)
    ensures totals.Keys == totals0.Keys + row.Keys
    ensures forall name :: Cell(totals, name) == Cell(totals0, name) + Cell(row, name)
  {
    totals := totals0;
    var todo := row.Keys;
    while todo != {}
      invariant todo <= row.Keys
      invariant totals.Keys == totals0.Keys + (row.Keys - todo)
      invariant forall name :: Cell(totals, name) == Cell(totals0, name) + if name in todo then 0 else Cell(row, name)
      decreases todo
    {
      var name :| name in todo;
      totals := totals[name := Cell(totals, name) + row[name]];
      todo := todo - {name};
    }
  }

  // ---------------------------------------------------------------- counting the tree

  lemma HitsNext(output: seq<Line>, i: nat, name: string)
    requires i < |output|
    ensures Hits(output[..i + 1], name) == Hits(output[..i], name) + if name in output[i].matches then 1 else 0
  {
    hide Hits;
    assert output[..i + 1] == output[..i] + [output[i]];
    HitsAppend(output[..i], [output[i]], name);
    HitsOne(output[i], name);
  }

  lemma NoHits(output: seq<Line>)
    ensures forall name :: Hits(output[..0], name) == 0
  {
  }

  // Hits per pattern among the production lines of a file.
  method FileCounts(lines: seq<Line>) returns (counts: Counts)
    ensures counts.Keys == PATTERNS
    ensures forall name :: name in PATTERNS ==> counts[name] == Hits(Output(CLEAN, lines), name)
  {
    hide Hits, Output;
    var output := ProductionLines(lines);
    assert forall name :: Hits(output[..0], name) == 0 by { NoHits(output); }
    counts := map name | name in PATTERNS :: 0;
    for i := 0 to |output|
      invariant counts.Keys == PATTERNS
      invariant forall name :: name in PATTERNS ==> counts[name] == Hits(output[..i], name)
    {
      forall name ensures Hits(output[..i + 1], name) == Hits(output[..i], name) + if name in output[i].matches then 1 else 0 {
        HitsNext(output, i, name);
      }
      counts := map name | name in PATTERNS :: counts[name] + if name in output[i].matches then 1 else 0;
    }
    assert output[..|output|] == output;
  }

  function RowAt(t: Table, p: string): Counts {
    if p in t then t[p] else map[]
  }

  // The row holds the hits of every pattern among the file's production lines.
  ghost predicate Counted(row: Counts, lines: seq<Line>) {
    forall name :: name in PATTERNS ==> Cell(row, name) == Hits(Output(CLEAN, lines), name)
  }

  // Files without any hit are left out.
  method CurrentCounts(files: map<string, seq<Line>>) returns (t: Table)
    ensures Full(t) && t.Keys <= files.Keys
    ensures forall p :: p in files ==> Counted(RowAt(t, p), files[p])
    ensures forall p :: p in t ==> FileTotal(t[p]) > 0
  {
    hide Counted, FileTotal;
    t := map[];
    var todo := files.Keys;
    while todo != {}
      invariant todo <= files.Keys && t.Keys <= files.Keys - todo
      invariant Full(t) && forall p :: p in t ==> FileTotal(t[p]) > 0
      invariant forall p :: p in files && p !in todo ==> Counted(RowAt(t, p), files[p])
      decreases todo
    {
      var p :| p in todo;
      var counts := FileCounts(files[p]);
      RowCounted(counts, files[p]);
      var total := FileTotalOf(counts);
      if total > 0 {
        t := t[p := counts];
      }
      todo := todo - {p};
    }
  }

  lemma RowCounted(row: Counts, lines: seq<Line>)
    requires row.Keys == PATTERNS
    requires forall name :: name in PATTERNS ==> row[name] == Hits(Output(CLEAN, lines), name)
    ensures Counted(row, lines)
    ensures FileTotal(row) <= 0 ==> Counted(map[], lines)
  {
    hide Output, Hits, FileTotal;
    if FileTotal(row) <= 0 {
      AllZero(row);
    }
  }

  lemma AllZero(row: Counts)
    requires FileTotal(row) <= 0
    ensures forall name :: name in row ==> row[name] == 0
  {
    forall name | name in row ensures row[name] == 0 {
      SumTake(row.Keys, n => Cell(row, n), name);
      SumNonNegative(row.Keys - {name}, n => Cell(row, n));
    }
  }

  // ---------------------------------------------------------------- the check

  datatype Finding =
    | TotalChanged(before: int, after: int)
    | PatternChanged(name: string, before: int, after: int)
    | NewFile(path: string, total: int)
    | FileChanged(path: string, before: int, after: int)
    | FileRemoved(path: string, before: int)

  ghost predicate Mentioned(t: Table, name: string) {
    name in PATTERNS || exists p :: p in t && name in t[p]
  }

  // A margin of the table differs from the baseline's.
  ghost predicate IsChange(b: Baseline, t: Table, f: Finding) {
    match f
    case TotalChanged(before, after) => before == b.total && after == GrandTotal(t)
    case PatternChanged(name, before, after) =>
      Mentioned(t, name) && before == Cell(b.byPattern, name) && after == PatternTotal(t, name)
    case NewFile(p, total) => p in t && p !in b.tracked && total == FileTotal(t[p])
    case FileChanged(p, before, after) =>
      p in t && p in b.tracked && before == FileTotal(b.tracked[p]) && after == FileTotal(t[p])
    case FileRemoved(p, before) => p in b.tracked && p !in t && before == FileTotal(b.tracked[p])
  }

  predicate Grew(f: Finding) {
    f.NewFile? || (!f.FileRemoved? && f.after > f.before)
  }

  predicate Shrank(f: Finding) {
    f.FileRemoved? || (!f.NewFile? && f.after < f.before)
  }

  ghost predicate PatternsPass(b: Baseline, t: Table) {
    forall name :: Mentioned(t, name) ==> PatternTotal(t, name) <= Cell(b.byPattern, name)
  }

  ghost predicate FilesPass(b: Baseline, t: Table) {
    forall p :: p in t ==> p in b.tracked && FileTotal(t[p]) <= FileTotal(b.tracked[p])
  }

  ghost predicate Passes(b: Baseline, t: Table) {
    GrandTotal(t) <= b.total && PatternsPass(b, t) && FilesPass(b, t)
  }

  method CheckTotals(b: Baseline, t: Table) returns (regressions: seq<Finding>, improvements: seq<Finding>)
    ensures forall f :: f in regressions <==> IsChange(b, t, f) && Grew(f) && (f.TotalChanged? || f.PatternChanged?)
    ensures forall f :: f in improvements <==> IsChange(b, t, f) && Shrank(f) && (f.TotalChanged? || f.PatternChanged?)
  {
    hide GrandTotal, PatternTotal, FileTotal;
    regressions, improvements := [], [];
    var total := GrandTotalOf(t);
    var totals := TotalCounts(t);
    assert forall name :: name in totals <==> Mentioned(t, name);
    hide Mentioned;
    if total > b.total {
      regressions := [TotalChanged(b.total, total)];
    } else if total < b.total {
      improvements := [TotalChanged(b.total, total)];
    }
    var todo := totals.Keys;
    while todo != {}
      invariant todo <= totals.Keys
      invariant forall f :: f in regressions <==>
                  IsChange(b, t, f) && Grew(f) && (f.TotalChanged? || (f.PatternChanged? && f.name !in todo))
      invariant forall f :: f in improvements <==>
                  IsChange(b, t, f) && Shrank(f) && (f.TotalChanged? || (f.PatternChanged? && f.name !in todo))
      decreases todo
    {
      var name :| name in todo;
      var change := PatternChanged(name, Cell(b.byPattern, name), totals[name]);
      if totals[name] > Cell(b.byPattern, name) {
        regressions := regressions + [change];
      } else if totals[name] < Cell(b.byPattern, name) {
        improvements := improvements + [change];
      }
      todo := todo - {name};
    }
  }

  method CheckFiles(b: Baseline, t: Table) returns (regressions: seq<Finding>, improvements: seq<Finding>)
    ensures forall f :: f in regressions <==> IsChange(b, t, f) && Grew(f) && (f.NewFile? || f.FileChanged?)
    ensures forall f :: f in improvements <==> IsChange(b, t, f) && Shrank(f) && (f.FileChanged? || f.FileRemoved?)
  {
    hide GrandTotal, PatternTotal, FileTotal, Mentioned;
    regressions, improvements := [], [];
    var todo := t.Keys;
    while todo != {}
      invariant todo <= t.Keys
      invariant forall f :: f in regressions <==>
                  IsChange(b, t, f) && Grew(f) && (f.NewFile? || f.FileChanged?) && f.path !in todo
      invariant forall f :: f in improvements <==> IsChange(b, t, f) && Shrank(f) && f.FileChanged? && f.path !in todo
      decreases todo
    {
      var p :| p in todo;
      todo := todo - {p};
      var new' := FileTotalOf(t[p]);
      if p !in b.tracked {
        regressions := regressions + [NewFile(p, new')];
        continue;
      }
      var old' := FileTotalOf(b.tracked[p]);
      if new' > old' {
        regressions := regressions + [FileChanged(p, old', new')];
      } else if new' < old' {
        improvements := improvements + [FileChanged(p, old', new')];
      }
    }
    todo := b.tracked.Keys;
    while todo != {}
      invariant todo <= b.tracked.Keys
      invariant forall f :: f in improvements <==>
                  IsChange(b, t, f) && Shrank(f) && (f.FileChanged? || (f.FileRemoved? && f.path !in todo))
      decreases todo
    {
      var p :| p in todo;
      if p !in t {
        var old' := FileTotalOf(b.tracked[p]);
        improvements := improvements + [FileRemoved(p, old')];
      }
      todo := todo - {p};
    }
  }

  // The three-level ratchet reports exactly the margins that grew and those that shrank.
  method Check(b: Baseline, t: Table) returns (regressions: seq<Finding>, improvements: seq<Finding>)
    ensures forall f :: f in regressions <==> IsChange(b, t, f) && Grew(f)
    ensures forall f :: f in improvements <==> IsChange(b, t, f) && Shrank(f)
  {
    hide IsChange;
    var r1, i1 := CheckTotals(b, t);
    var r2, i2 := CheckFiles(b, t);
    regressions, improvements := r1 + r2, i1 + i2;
  }

  lemma PassesIff(b: Baseline, t: Table)
    ensures Passes(b, t) <==> forall f :: IsChange(b, t, f) ==> !Grew(f)
  {
    hide GrandTotal, PatternTotal, FileTotal, Mentioned;
    if forall f :: IsChange(b, t, f) ==> !Grew(f) {
      assert IsChange(b, t, TotalChanged(b.total, GrandTotal(t)));
      forall name | Mentioned(t, name) ensures PatternTotal(t, name) <= Cell(b.byPattern, name) {
        assert IsChange(b, t, PatternChanged(name, Cell(b.byPattern, name), PatternTotal(t, name)));
      }
      forall p | p in t ensures p in b.tracked && FileTotal(t[p]) <= FileTotal(b.tracked[p]) {
        assert !IsChange(b, t, NewFile(p, FileTotal(t[p])));
        assert IsChange(b, t, FileChanged(p, FileTotal(b.tracked[p]), FileTotal(t[p])));
      }
    }
  }

  // Nothing grew and nothing shrank.
  ghost predicate Quiet(b: Baseline, t: Table) {
    forall f :: IsChange(b, t, f) ==> !Grew(f) && !Shrank(f)
  }

  // ---------------------------------------------------------------- margins of a written baseline

  // What write_baseline stores for a counted table.
  ghost predicate Written(b: Baseline, t: Table) {
    && b.tracked == t && b.total == GrandTotal(t) && b.byPattern.Keys == PATTERNS
    && forall name :: name in PATTERNS ==> b.byPattern[name] == PatternTotal(t, name)
  }

  method WriteBaseline(t: Table) returns (b: Baseline)
    requires Full(t)
    ensures Written(b, t)
  {
    hide GrandTotal, PatternTotal;
    var total := GrandTotalOf(t);
    var totals := TotalCounts(t);
    TotalsNat(t);
    b := Baseline(total, totals, t);
  }

  lemma TotalsNat(t: Table)
    ensures GrandTotal(t) >= 0
  {
    forall p ensures RowTotal(t, p) >= 0 {
      if p in t {
        SumNonNegative(t[p].Keys, name => Cell(t[p], name));
      }
    }
    SumNonNegative(t.Keys, p => RowTotal(t, p));
  }

  // Against a written baseline the total check is implied twice over: by the pattern checks, and
  // by the file checks.
  lemma PatternsDecideTotal(b: Baseline, base: Table, t: Table)
    requires Written(b, base) && Full(base) && Full(t) && PatternsPass(b, t)
    ensures GrandTotal(t) <= b.total
  {
    hide GrandTotal, PatternTotal, Full;
    GrandByPattern(t);
    GrandByPattern(base);
    SumMono(PATTERNS, name => PatternTotal(t, name), name => PatternTotal(base, name));
  }

  lemma FilesDecideTotal(b: Baseline, base: Table, t: Table)
    requires Written(b, base) && FilesPass(b, t)
    ensures GrandTotal(t) <= b.total
  {
    hide FileTotal;
    forall p ensures RowTotal(base, p) >= 0 {
      if p in base {
        RowNat(base[p]);
      }
    }
    SumMono(t.Keys, p => RowTotal(t, p), p => RowTotal(base, p));
    SumMore(t.Keys, base.Keys, p => RowTotal(base, p));
  }

  lemma RowNat(row: Counts)
    ensures FileTotal(row) >= 0
  {
    SumNonNegative(row.Keys, name => Cell(row, name));
  }

  lemma {:induction false} SumMore(s: set<string>, t: set<string>, f: string -> int)
    requires s <= t && forall x :: f(x) >= 0
    ensures Sum(s, f) <= Sum(t, f)
    decreases t
  {
    if s != t {
      var x :| x in t && x !in s;
      SumTake(t, f, x);
      SumMore(s, t - {x}, f);
    }
  }

  lemma FreshIsQuiet(b: Baseline, t: Table)
    requires Written(b, t) && Full(t)
    ensures Passes(b, t) && Quiet(b, t)
  {
  }

  // Commits that pass; after one, the baseline may be rewritten.
  ghost predicate Ratchet(baselines: seq<Baseline>, commits: seq<Table>) {
    && |baselines| == |commits| + 1
    && forall i :: 0 <= i < |commits| ==>
         && Full(commits[i]) && Passes(baselines[i], commits[i])
         && (baselines[i + 1] == baselines[i] || Written(baselines[i + 1], commits[i]))
  }

  // Every margin of the baseline only ever shrinks.
  ghost predicate Tighter(b: Baseline, c: Baseline) {
    && b.total <= c.total
    && (forall name :: name in PATTERNS ==> Cell(b.byPattern, name) <= Cell(c.byPattern, name))
    && (forall p :: p in b.tracked ==> p in c.tracked && FileTotal(b.tracked[p]) <= FileTotal(c.tracked[p]))
  }

  lemma {:induction false} RatchetTightens(baselines: seq<Baseline>, commits: seq<Table>, i: nat, j: nat)
    requires Ratchet(baselines, commits) && i <= j < |baselines|
    ensures Tighter(baselines[j], baselines[i])
    decreases j
  {
    hide GrandTotal, PatternTotal, FileTotal, Full;
    if i < j {
      RatchetTightens(baselines, commits, i, j - 1);
      StepTightens(baselines[j - 1], baselines[j], commits[j - 1]);
    }
  }

  lemma StepTightens(b: Baseline, c: Baseline, t: Table)
    requires Passes(b, t) && (c == b || Written(c, t))
    ensures Tighter(c, b)
  {
  }

  // ---------------------------------------------------------------- what the margins let through

  ghost predicate SameMargins(base: Table, t: Table) {
    && base.Keys == t.Keys
    && (forall p :: p in t ==> FileTotal(t[p]) == FileTotal(base[p]))
    && (forall name :: name in PATTERNS ==> PatternTotal(t, name) == PatternTotal(base, name))
  }

  // The ratchet holds margins, not cells: it is silent about exactly the tables with the same margins.
  lemma QuietIff(b: Baseline, base: Table, t: Table)
    requires Written(b, base) && Full(base) && Full(t)
    ensures Quiet(b, t) <==> SameMargins(base, t)
  {
    hide GrandTotal, PatternTotal, FileTotal, Mentioned, Full;
    if SameMargins(base, t) {
      SameGrand(base, t);
      forall name | Mentioned(t, name) ensures name in PATTERNS {
        MentionedInFull(t, name);
      }
    }
    if Quiet(b, t) {
      forall p | p in t ensures p in base && FileTotal(t[p]) == FileTotal(base[p]) {
        assert !IsChange(b, t, NewFile(p, FileTotal(t[p])));
        assert IsChange(b, t, FileChanged(p, FileTotal(base[p]), FileTotal(t[p])));
      }
      forall p | p in base ensures p in t {
        assert !IsChange(b, t, FileRemoved(p, FileTotal(base[p])));
      }
      forall name | name in PATTERNS ensures PatternTotal(t, name) == PatternTotal(base, name) {
        assert Mentioned(t, name) by { PatternsMentioned(t, name); }
        assert IsChange(b, t, PatternChanged(name, Cell(b.byPattern, name), PatternTotal(t, name)));
      }
    }
  }

  lemma PatternsMentioned(t: Table, name: string)
    requires name in PATTERNS
    ensures Mentioned(t, name)
  {
  }

  lemma MentionedInFull(t: Table, name: string)
    requires Full(t) && Mentioned(t, name)
    ensures name in PATTERNS
  {
  }

  lemma SameGrand(base: Table, t: Table)
    requires base.Keys == t.Keys && forall p :: p in t ==> FileTotal(t[p]) == FileTotal(base[p])
    ensures GrandTotal(t) == GrandTotal(base)
  {
    hide FileTotal;
    SumSame(t.Keys, p => RowTotal(t, p), p => RowTotal(base, p));
  }

  lemma CellWithinMargins(t: Table, p: string, name: string)
    requires p in t && name in t[p]
    ensures t[p][name] <= FileTotal(t[p]) && t[p][name] <= PatternTotal(t, name)
  {
    SumTake(t[p].Keys, n => Cell(t[p], n), name);
    SumNonNegative(t[p].Keys - {name}, n => Cell(t[p], n));
    SumTake(t.Keys, q => CellAt(t, q, name), p);
    SumNonNegative(t.Keys - {p}, q => CellAt(t, q, name));
  }

  // A cell short of its row total leaves another hit in the file.
  lemma OtherPattern(row: Counts, name: string) returns (other: string)
    requires row.Keys == PATTERNS && name in PATTERNS && row[name] < FileTotal(row)
    ensures other in PATTERNS && other != name && row[other] > 0
  {
    SumTake(row.Keys, n => Cell(row, n), name);
    if forall n :: n in row.Keys - {name} ==> Cell(row, n) == 0 {
      SumZero(row.Keys - {name}, n => Cell(row, n));
      assert false;
    }
    other :| other in row.Keys - {name} && Cell(row, other) != 0;
  }

  // A cell short of its column total leaves another file with the pattern.
  lemma OtherFile(t: Table, p: string, name: string) returns (other: string)
    requires Full(t) && p in t && name in PATTERNS && t[p][name] < PatternTotal(t, name)
    ensures other in t && other != p && t[other][name] > 0
  {
    SumTake(t.Keys, q => CellAt(t, q, name), p);
    if forall q :: q in t.Keys - {p} ==> CellAt(t, q, name) == 0 {
      SumZero(t.Keys - {p}, q => CellAt(t, q, name));
      assert false;
    }
    other :| other in t.Keys - {p} && CellAt(t, other, name) != 0;
  }

  // A sum keeps its value when two terms change against each other.
  lemma SumTrade(s: set<string>, f: string -> int, g: string -> int, x: string, y: string)
    requires x in s && y in s && x != y && f(x) + f(y) == g(x) + g(y)
    requires forall z :: z in s && z != x && z != y ==> f(z) == g(z)
    ensures Sum(s, f) == Sum(s, g)
  {
    SumTake(s, f, x);
    SumTake(s - {x}, f, y);
    SumTake(s, g, x);
    SumTake(s - {x}, g, y);
    SumSame(s - {x} - {y}, f, g);
  }

  // One hit moves from `less` to `more`.
  function Shift(row: Counts, more: string, less: string): Counts
    requires more in row && less in row && row[less] > 0
  {
    row[more := row[more] + 1][less := row[less] - 1]
  }

  lemma ShiftCells(row: Counts, more: string, less: string)
    requires more in row && less in row && row[less] > 0 && more != less
    ensures Shift(row, more, less).Keys == row.Keys
    ensures forall n :: Cell(Shift(row, more, less), n)
                        == Cell(row, n) + (if n == more then 1 else 0) - (if n == less then 1 else 0)
  {
  }

  lemma ShiftTotal(row: Counts, more: string, less: string)
    requires more in row && less in row && row[less] > 0 && more != less
    ensures FileTotal(Shift(row, more, less)) == FileTotal(row)
  {
    hide Shift, Cell;
    var new' := Shift(row, more, less);
    ShiftCells(row, more, less);
    SumTrade(row.Keys, n => Cell(row, n), n => Cell(new', n), more, less);
  }

  predicate Rectangle(t: Table, p: string, q: string, name: string, other: string) {
    && p in t && q in t && p != q && name != other
    && name in t[p] && other in t[p] && name in t[q] && other in t[q]
    && t[p][other] > 0 && t[q][name] > 0
  }

  // One unit goes round a rectangle of two files and two patterns.
  function Rotate(t: Table, p: string, q: string, name: string, other: string): Table
    requires Rectangle(t, p, q, name, other)
  {
    t[p := Shift(t[p], name, other)][q := Shift(t[q], other, name)]
  }

  lemma RotateCells(t: Table, p: string, q: string, name: string, other: string, n: string)
    requires Rectangle(t, p, q, name, other)
    ensures var new' := Rotate(t, p, q, name, other);
            && new'.Keys == t.Keys
            && CellAt(t, p, n) + CellAt(t, q, n) == CellAt(new', p, n) + CellAt(new', q, n)
            && forall r :: r in t && r != p && r != q ==> CellAt(new', r, n) == CellAt(t, r, n)
  {
    hide Shift, Cell;
    ShiftCells(t[p], name, other);
    ShiftCells(t[q], other, name);
  }

  lemma RotateColumn(t: Table, p: string, q: string, name: string, other: string, n: string)
    requires Rectangle(t, p, q, name, other)
    ensures PatternTotal(Rotate(t, p, q, name, other), n) == PatternTotal(t, n)
  {
    var new' := Rotate(t, p, q, name, other);
    RotateCells(t, p, q, name, other, n);
    hide CellAt, Rotate;
    SumTrade(t.Keys, r => CellAt(t, r, n), r => CellAt(new', r, n), p, q);
  }

  lemma RotateRows(t: Table, p: string, q: string, name: string, other: string)
    requires Rectangle(t, p, q, name, other)
    ensures var new' := Rotate(t, p, q, name, other);
            && new'.Keys == t.Keys
            && (forall r :: r in t ==> new'[r].Keys == t[r].Keys && FileTotal(new'[r]) == FileTotal(t[r]))
            && Cell(new'[p], name) == Cell(t[p], name) + 1
  {
    hide Shift, FileTotal, Cell;
    ShiftCells(t[p], name, other);
    ShiftCells(t[q], other, name);
    ShiftTotal(t[p], name, other);
    ShiftTotal(t[q], other, name);
  }

  lemma RotateKeepsMargins(t: Table, p: string, q: string, name: string, other: string)
    requires Full(t) && Rectangle(t, p, q, name, other)
    ensures var new' := Rotate(t, p, q, name, other);
            Full(new') && SameMargins(t, new') && p in new' && Cell(new'[p], name) == Cell(t[p], name) + 1
  {
    hide FileTotal, PatternTotal, Rotate, Cell;
    RotateRows(t, p, q, name, other);
    forall n | n in PATTERNS ensures PatternTotal(Rotate(t, p, q, name, other), n) == PatternTotal(t, n) {
      RotateColumn(t, p, q, name, other, n);
    }
  }

  ghost predicate MayGrowPassing(b: Baseline, base: Table, p: string, name: string)
    requires p in base && name in base[p]
  {
    exists t :: Full(t) && Passes(b, t) && p in t && Cell(t[p], name) > base[p][name]
  }

  ghost predicate MayGrowQuietly(b: Baseline, base: Table, p: string, name: string)
    requires p in base && name in base[p]
  {
    exists t :: Full(t) && Quiet(b, t) && p in t && Cell(t[p], name) > base[p][name]
  }

  lemma GrowthIsBounded(b: Baseline, base: Table, p: string, name: string, t: Table)
    requires Written(b, base) && Full(base) && p in base && name in PATTERNS
    requires Full(t) && Passes(b, t) && p in t && Cell(t[p], name) > base[p][name]
    ensures base[p][name] < FileTotal(base[p]) && base[p][name] < PatternTotal(base, name)
  {
    hide FileTotal, PatternTotal, GrandTotal, Mentioned;
    CellWithinMargins(t, p, name);
    PatternsMentioned(t, name);
  }

  lemma GrowsByRotation(b: Baseline, base: Table, p: string, name: string)
    requires Written(b, base) && Full(base) && p in base && name in PATTERNS
    requires base[p][name] < FileTotal(base[p]) && base[p][name] < PatternTotal(base, name)
    ensures MayGrowQuietly(b, base, p, name)
  {
    hide FileTotal, PatternTotal, GrandTotal, Quiet, Rotate, SameMargins, Written;
    var other := OtherPattern(base[p], name);
    var q := OtherFile(base, p, name);
    RotateKeepsMargins(base, p, q, name, other);
    QuietIff(b, base, Rotate(base, p, q, name, other));
  }

  // A count may grow past a written baseline, and may even do so without any report, exactly when its file
  // has a hit of another pattern and another file has a hit of its pattern.
  lemma CellGrowsIff(b: Baseline, base: Table, p: string, name: string)
    requires Written(b, base) && Full(base) && p in base && name in PATTERNS
    ensures MayGrowPassing(b, base, p, name) <==>
            base[p][name] < FileTotal(base[p]) && base[p][name] < PatternTotal(base, name)
    ensures MayGrowQuietly(b, base, p, name) <==> MayGrowPassing(b, base, p, name)
  {
    hide FileTotal, PatternTotal, GrandTotal, Quiet, Passes, Written;
    if MayGrowPassing(b, base, p, name) {
      var t :| Full(t) && Passes(b, t) && p in t && Cell(t[p], name) > base[p][name];
      GrowthIsBounded(b, base, p, name, t);
    }
    if base[p][name] < FileTotal(base[p]) && base[p][name] < PatternTotal(base, name) {
      GrowsByRotation(b, base, p, name);
    }
    if MayGrowQuietly(b, base, p, name) {
      var t :| Full(t) && Quiet(b, t) && p in t && Cell(t[p], name) > base[p][name];
      QuietPasses(b, t);
    }
  }

  function RowOf(ok: nat, underscore: nat): Counts {
    map["dot_ok" := ok, "let_underscore" := underscore, "unwrap_or_default" := 0]
  }

  // Two files with one hit each, of different patterns: either count may grow unnoticed.
  lemma CellMayGrow(b: Baseline)
    ensures var base := map["f" := RowOf(1, 0), "g" := RowOf(0, 1)];
            Written(b, base) ==> MayGrowQuietly(b, base, "g", "dot_ok") && MayGrowQuietly(b, base, "f", "let_underscore")
  {
    hide FileTotal, PatternTotal, GrandTotal, Written, MayGrowQuietly;
    var base: Table := map["f" := RowOf(1, 0), "g" := RowOf(0, 1)];
    if Written(b, base) {
      CellWithinMargins(base, "g", "let_underscore");
      CellWithinMargins(base, "f", "dot_ok");
      CellGrowsIff(b, base, "g", "dot_ok");
      CellGrowsIff(b, base, "f", "let_underscore");
    }
  }

  lemma QuietPasses(b: Baseline, t: Table)
    requires Quiet(b, t)
    ensures Passes(b, t)
  {
    hide IsChange, Passes;
    PassesIff(b, t);
  }
}
