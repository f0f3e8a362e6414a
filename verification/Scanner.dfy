/** The production-line scan shared by the budget checks: lines of `#[cfg(test)]` items are
    skipped by brace counting (scripts/check_panic_budget.py, scripts/check_swallowed_error_budget.py). */
module Scanner {
  import opened Listing


  // What the scan asks of a line: is it a cfg(test) attribute, does it start a `mod` or `fn` item,
  // is it blank or an attribute, its brace delta, and the budget patterns it matches.
  datatype Line = Line(cfgTest: bool, itemStart: bool, bare: bool, delta: int, matches: set<string>)

  datatype Scan = Scan(skip: seq<int>, pending: bool)

  const CLEAN := Scan([], false)

  function SumInts(s: seq<int>): int {
    if s == [] then 0 else s[0] + SumInts(s[1..])
  }

  // One line: the next state, and whether the line is production code.
  function ScanLine(s: Scan, line: Line): (Scan, bool) {
    if SumInts(s.skip) == 0 then
      if s.pending && line.itemStart then
        (Scan(if line.delta > 0 then s.skip + [line.delta] else s.skip, false), false)
      else if line.cfgTest then (s.(pending := true), false)
      else (s.(pending := s.pending && line.bare), true)
    else
      var top := s.skip[|s.skip| - 1] + line.delta;
      var below := s.skip[..|s.skip| - 1];
      (s.(skip := if top <= 0 then below else below + [top]), false)
  }

  function StateAfter(s: Scan, lines: seq<Line>): Scan
    decreases |lines|
  {
    if lines == [] then s else StateAfter(ScanLine(s, lines[0]).0, lines[1..])
  }

  function Output(s: Scan, lines: seq<Line>): seq<Line>
    decreases |lines|
  {
    if lines == [] then []
    else
      var (t, kept) := ScanLine(s, lines[0]);
      (if kept then [lines[0]] else []) + Output(t, lines[1..])
  }

  lemma {:induction false} Appended(s: Scan, a: seq<Line>, b: seq<Line>)
    ensures StateAfter(s, a + b) == StateAfter(StateAfter(s, a), b)
    ensures Output(s, a + b) == Output(s, a) + Output(StateAfter(s, a), b)
    decreases |a|
  {
    hide ScanLine;
    if a == [] {
      assert a + b == b;
    } else {
      assert (a + b)[1..] == a[1..] + b;
      Appended(ScanLine(s, a[0]).0, a[1..], b);
    }
  }

  method ProductionLines(lines: seq<Line>) returns (output: seq<Line>)
    ensures output == Output(CLEAN, lines)
  {
    output := [];
    var skipStack: seq<int> := [];
    var pendingCfgTest := false;
    for i := 0 to |lines|
      invariant Scan(skipStack, pendingCfgTest) == StateAfter(CLEAN, lines[..i])
      invariant output == Output(CLEAN, lines[..i])
      invariant Shape(Scan(skipStack, pendingCfgTest))
    {
      var line := lines[i];
      ghost var s := Scan(skipStack, pendingCfgTest);
      assert lines[..i + 1] == lines[..i] + [line];
      Appended(CLEAN, lines[..i], [line]);
      OneLine(s, line);
      ShapeKept(s, line);
      if SumInts(skipStack) == 0 {
        if pendingCfgTest && line.itemStart {
          if line.delta > 0 {
            skipStack := skipStack + [line.delta];
          }
          pendingCfgTest := false;
          continue;
        }
        if pendingCfgTest && !line.bare {
          pendingCfgTest := false;
        }
        if line.cfgTest {
          pendingCfgTest := true;
          continue;
        }
        output := output + [line];
      } else {
        skipStack := skipStack[|skipStack| - 1 := skipStack[|skipStack| - 1] + line.delta];
        if skipStack[|skipStack| - 1] <= 0 {
          skipStack := skipStack[..|skipStack| - 1];
        }
      }
    }
    assert lines[..|lines|] == lines;
  }

  lemma OneLine(s: Scan, line: Line)
    ensures StateAfter(s, [line]) == ScanLine(s, line).0
    ensures Output(s, [line]) == if ScanLine(s, line).1 then [line] else []
  {
  }

  // ---------------------------------------------------------------- the stack is a counter

  // At most one entry, and a positive one; nothing is pending inside a skipped block.
  predicate Shape(s: Scan) {
    |s.skip| <= 1 && (|s.skip| == 1 ==> s.skip[0] > 0 && !s.pending)
  }

  function Depth(s: Scan): int {
    SumInts(s.skip)
  }

  lemma DepthOf(s: Scan)
    requires Shape(s)
    ensures Depth(s) == if s.skip == [] then 0 else s.skip[0]
  {
    if |s.skip| == 1 {
      assert s.skip[1..] == [];
      assert SumInts(s.skip) == s.skip[0] + SumInts([]);
    }
  }

  lemma ShapeKept(s: Scan, line: Line)
    requires Shape(s)
    ensures Shape(ScanLine(s, line).0)
    ensures s.skip != [] ==> SumInts(s.skip) > 0
  {
  }

  lemma {:induction false} ShapeAlways(s: Scan, lines: seq<Line>)
    requires Shape(s)
    ensures Shape(StateAfter(s, lines))
    decreases |lines|
  {
    hide ScanLine, Shape;
    if lines != [] {
      ShapeKept(s, lines[0]);
      ShapeAlways(ScanLine(s, lines[0]).0, lines[1..]);
    }
  }

  // The same scan over a plain depth counter.
  datatype Simple = Simple(depth: int, pending: bool)

  function SimpleLine(s: Simple, line: Line): (Simple, bool) {
    if s.depth > 0 then (s.(depth := if s.depth + line.delta > 0 then s.depth + line.delta else 0), false)
    else if s.pending && line.itemStart then (Simple(if line.delta > 0 then line.delta else 0, false), false)
    else if line.cfgTest then (s.(pending := true), false)
    else (s.(pending := s.pending && line.bare), true)
  }

  function SimpleOutput(s: Simple, lines: seq<Line>): seq<Line>
    decreases |lines|
  {
    if lines == [] then []
    else
      var (t, kept) := SimpleLine(s, lines[0]);
      (if kept then [lines[0]] else []) + SimpleOutput(t, lines[1..])
  }

  function Abstract(s: Scan): Simple {
    Simple(Depth(s), s.pending)
  }

  lemma SimpleStep(s: Scan, line: Line)
    requires Shape(s)
    ensures SimpleLine(Abstract(s), line) == (Abstract(ScanLine(s, line).0), ScanLine(s, line).1)
  {
    DepthOf(s);
    ShapeKept(s, line);
    DepthOf(ScanLine(s, line).0);
  }

  lemma {:induction false} StackIsCounter(s: Scan, lines: seq<Line>)
    requires Shape(s)
    ensures Output(s, lines) == SimpleOutput(Abstract(s), lines)
    decreases |lines|
  {
    hide ScanLine, Shape, SimpleLine, Abstract;
    if lines != [] {
      SimpleStep(s, lines[0]);
      ShapeKept(s, lines[0]);
      StackIsCounter(ScanLine(s, lines[0]).0, lines[1..]);
    }
  }

  // ---------------------------------------------------------------- output is a subsequence

  predicate Subsequence<T(==)>(a: seq<T>, b: seq<T>) {
    if b == [] then a == []
    else Subsequence(a, b[1..]) || (a != [] && a[0] == b[0] && Subsequence(a[1..], b[1..]))
  }

  lemma {:induction false} OutputIsSubsequence(s: Scan, lines: seq<Line>)
    ensures Subsequence(Output(s, lines), lines)
    decreases |lines|
  {
    hide ScanLine;
    if lines != [] {
      var (t, kept) := ScanLine(s, lines[0]);
      OutputIsSubsequence(t, lines[1..]);
      if kept {
        assert Output(s, lines)[1..] == Output(t, lines[1..]);
      } else {
        assert Output(s, lines) == Output(t, lines[1..]);
      }
    }
  }

  // Without a cfg(test) attribute every line is production code.
  lemma {:induction false} PlainCodeIsKept(lines: seq<Line>)
    requires forall i :: 0 <= i < |lines| ==> !lines[i].cfgTest
    ensures Output(CLEAN, lines) == lines && StateAfter(CLEAN, lines) == CLEAN
    decreases |lines|
  {
    if lines != [] {
      PlainCodeIsKept(lines[1..]);
    }
  }

  // ---------------------------------------------------------------- test blocks leave no trace

  // Brace depth stays positive until the very last line.
  predicate Closes(depth: int, body: seq<Line>)
    decreases |body|
  {
    if depth <= 0 then body == []
    else body != [] && Closes(depth + body[0].delta, body[1..])
  }

  // Attributes led by a cfg(test), an item start, and the item's body to its closing brace.
  predicate IsTestBlock(attrs: seq<Line>, item: Line, body: seq<Line>) {
    && attrs != [] && attrs[0].cfgTest
    && (forall a :: a in attrs ==> (a.bare || a.cfgTest) && !a.itemStart)
    && item.itemStart
    && Closes(item.delta, body)
  }

  // Attribute lines other than cfg(test) are kept.
  function Visible(attrs: seq<Line>): seq<Line> {
    if attrs == [] then []
    else (if attrs[0].cfgTest then [] else [attrs[0]]) + Visible(attrs[1..])
  }

  lemma {:induction false} AttrsPend(pending: bool, attrs: seq<Line>)
    requires forall a :: a in attrs ==> (a.bare || a.cfgTest) && !a.itemStart
    requires pending || (attrs != [] && attrs[0].cfgTest)
    ensures StateAfter(Scan([], pending), attrs) == Scan([], true)
    ensures Output(Scan([], pending), attrs) == Visible(attrs)
    decreases |attrs|
  {
    if attrs != [] {
      AttrsPend(true, attrs[1..]);
    }
  }

  // Inside a skipped block at this brace depth, or past its end.
  function In(depth: int): Scan {
    Scan(if depth > 0 then [depth] else [], false)
  }

  lemma SkipLine(depth: int, line: Line)
    requires depth > 0
    ensures ScanLine(In(depth), line) == (In(depth + line.delta), false)
  {
    var s := In(depth);
    DepthOf(s);
    assert s.skip[..0] == [] && [] + [depth + line.delta] == [depth + line.delta];
  }

  lemma SkipFirst(depth: int, body: seq<Line>)
    requires depth > 0 && body != []
    ensures Output(In(depth), body) == Output(In(depth + body[0].delta), body[1..])
    ensures StateAfter(In(depth), body) == StateAfter(In(depth + body[0].delta), body[1..])
  {
    hide *;
    SkipLine(depth, body[0]);
    DropFirst(In(depth), body, In(depth + body[0].delta));
  }

  lemma DropFirst(s: Scan, lines: seq<Line>, t: Scan)
    requires lines != [] && ScanLine(s, lines[0]) == (t, false)
    ensures Output(s, lines) == Output(t, lines[1..]) && StateAfter(s, lines) == StateAfter(t, lines[1..])
  {
    hide ScanLine;
    assert [] + Output(t, lines[1..]) == Output(t, lines[1..]);
  }

  lemma NothingToScan(s: Scan)
    ensures Output(s, []) == [] && StateAfter(s, []) == s
  {
  }

  lemma {:induction false} BodySkipped(depth: int, body: seq<Line>)
    requires Closes(depth, body)
    ensures StateAfter(In(depth), body) == CLEAN && Output(In(depth), body) == []
    decreases |body|
  {
    hide StateAfter, Output;
    if depth > 0 {
      SkipFirst(depth, body);
      BodySkipped(depth + body[0].delta, body[1..]);
    } else {
      NothingToScan(CLEAN);
    }
  }

  lemma BlockScan(attrs: seq<Line>, item: Line, body: seq<Line>)
    requires IsTestBlock(attrs, item, body)
    ensures StateAfter(CLEAN, attrs + [item] + body) == CLEAN
    ensures Output(CLEAN, attrs + [item] + body) == Visible(attrs)
  {
    AttrsPend(false, attrs);
    var mid := Scan([], true);
    OneLine(mid, item);
    assert mid.skip + [item.delta] == [item.delta];
    BodySkipped(item.delta, body);
    Appended(CLEAN, attrs, [item]);
    Appended(CLEAN, attrs + [item], body);
  }

  // Inserting a test block where the scan is clean adds its visible attributes and nothing else.
  lemma BlockLeavesNoTrace(pre: seq<Line>, attrs: seq<Line>, item: Line, body: seq<Line>, post: seq<Line>)
    requires StateAfter(CLEAN, pre) == CLEAN && IsTestBlock(attrs, item, body)
    ensures Output(CLEAN, pre + (attrs + [item] + body) + post)
            == Output(CLEAN, pre) + Visible(attrs) + Output(CLEAN, post)
    ensures Output(CLEAN, pre + post) == Output(CLEAN, pre) + Output(CLEAN, post)
  {
    hide IsTestBlock, ScanLine;
    var block := attrs + [item] + body;
    BlockScan(attrs, item, body);
    Appended(CLEAN, pre, block);
    Appended(CLEAN, pre + block, post);
    Appended(CLEAN, pre, post);
  }

  // ---------------------------------------------------------------- which test items are hidden

  // The lines after the one that brings the brace depth back to zero.
  function Beyond(depth: int, body: seq<Line>): seq<Line>
    decreases |body|
  {
    if depth <= 0 || body == [] then body else Beyond(depth + body[0].delta, body[1..])
  }

  // The brace depth is positive before every line of the body.
  predicate Inside(depth: int, body: seq<Line>)
    decreases |body|
  {
    body == [] || (depth > 0 && Inside(depth + body[0].delta, body[1..]))
  }

  lemma {:induction false} BeyondScan(depth: int, body: seq<Line>)
    ensures Output(In(depth), body) == Output(CLEAN, Beyond(depth, body))
    decreases |body|
  {
    hide Output, ScanLine;
    if body == [] {
      NothingToScan(In(depth));
      NothingToScan(CLEAN);
    } else if depth > 0 {
      SkipFirst(depth, body);
      BeyondScan(depth + body[0].delta, body[1..]);
    }
  }

  lemma {:induction false} InsideIff(depth: int, body: seq<Line>)
    ensures Inside(depth, body) <==> Beyond(depth, body) == []
    decreases |body|
  {
    if body != [] && depth > 0 {
      InsideIff(depth + body[0].delta, body[1..]);
    }
  }

  // What the scan makes of a cfg(test) item, whatever its lines are: a header that starts a mod or fn goes,
  // together with the lines up to where the header's own braces close; any other header stays with its whole body.
  lemma ItemOutput(attrs: seq<Line>, header: Line, body: seq<Line>)
    requires attrs != [] && attrs[0].cfgTest && forall a :: a in attrs ==> (a.bare || a.cfgTest) && !a.itemStart
    requires !header.cfgTest && !header.bare
    ensures Output(CLEAN, attrs + [header] + body) ==
            Visible(attrs) + (if header.itemStart then Output(CLEAN, Beyond(header.delta, body))
                              else [header] + Output(CLEAN, body))
  {
    hide StateAfter, Output, ScanLine, Visible, Beyond;
    AttrsPend(false, attrs);
    HeaderScan(header);
    BeyondScan(header.delta, body);
    Appended(CLEAN, attrs, [header]);
    Appended(CLEAN, attrs + [header], body);
    assert Visible(attrs) + [] == Visible(attrs);
    if !header.itemStart {
      assert Visible(attrs) + [header] + Output(CLEAN, body) == Visible(attrs) + ([header] + Output(CLEAN, body));
    }
  }

  lemma HeaderScan(header: Line)
    requires !header.cfgTest && !header.bare
    ensures StateAfter(Scan([], true), [header]) ==
            if header.itemStart then In(header.delta) else CLEAN
    ensures Output(Scan([], true), [header]) == if header.itemStart then [] else [header]
  {
    OneLine(Scan([], true), header);
    assert [] + [header.delta] == [header.delta];
  }

  // A cfg(test) item leaves no line exactly when its header starts a mod or fn and opens a brace that no line
  // before the last closes, a following test attribute aside.
  lemma ItemHiddenIff(attrs: seq<Line>, header: Line, body: seq<Line>)
    requires attrs != [] && attrs[0].cfgTest && forall a :: a in attrs ==> (a.bare || a.cfgTest) && !a.itemStart
    requires !header.cfgTest && !header.bare
    requires Beyond(header.delta, body) != [] ==> !Beyond(header.delta, body)[0].cfgTest
    ensures Output(CLEAN, attrs + [header] + body) == Visible(attrs) <==>
            header.itemStart && Inside(header.delta, body)
  {
    hide Beyond, Inside, Visible;
    ItemOutput(attrs, header, body);
    InsideIff(header.delta, body);
    var rest := Beyond(header.delta, body);
    if rest != [] {
      assert Output(CLEAN, rest) == [rest[0]] + Output(ScanLine(CLEAN, rest[0]).0, rest[1..]);
    }
  }

  // A signature of several lines: the header opens no brace, so the body counts as production code.
  lemma LongSignatureCounts()
    ensures var attr := Line(true, false, true, 0, {});
            var header := Line(false, true, false, 0, {});
            var signature := Line(false, false, false, 1, {});
            var hit := Line(false, false, false, 0, {"unwrap"});
            var close := Line(false, false, false, -1, {});
            Output(CLEAN, [attr] + [header] + [signature, hit, close]) == [signature, hit, close]
            && Hits(Output(CLEAN, [attr] + [header] + [signature, hit, close]), "unwrap") == 1
  {
    hide ScanLine, StateAfter, Output;
    var attr := Line(true, false, true, 0, {});
    var header := Line(false, true, false, 0, {});
    var body := [Line(false, false, false, 1, {}), Line(false, false, false, 0, {"unwrap"}), Line(false, false, false, -1, {})];
    ItemOutput([attr], header, body);
    PlainCodeIsKept(body);
    assert Visible([attr]) == [];
    assert Hits(body, "unwrap") == 1 by {
      assert body[1..] == [body[1], body[2]] && body[1..][1..] == [body[2]];
      HitsOne(body[2], "unwrap");
    }
  }

  // ---------------------------------------------------------------- counting

  // Lines that match a pattern.
  function Hits(lines: seq<Line>, name: string): nat {
    if lines == [] then 0
    else (if name in lines[0].matches then 1 else 0) + Hits(lines[1..], name)
  }

  lemma {:induction false} HitsAppend(a: seq<Line>, b: seq<Line>, name: string)
    ensures Hits(a + b, name) == Hits(a, name) + Hits(b, name)
    decreases |a|
  {
    if a == [] {
      assert a + b == b;
    } else {
      assert (a + b)[1..] == a[1..] + b;
      HitsAppend(a[1..], b, name);
    }
  }

  function MatchAt(lines: seq<Line>, name: string): (int, Line) -> bool {
    (i, line) => 0 <= i < |lines| && lines[i] == line && name in line.matches
  }

  // The hits are as many as the lines that match.
  lemma {:induction false} HitsAre(lines: seq<Line>, name: string, n: nat) returns (matching: seq<Line>)
    requires n <= |lines|
    ensures Lists(matching, n, MatchAt(lines, name)) && |matching| == Hits(lines[..n], name)
  {
    hide Lists, Hits;
    if n == 0 {
      matching := [];
      ListsNothing(MatchAt(lines, name));
      assert Hits(lines[..0], name) == 0 by { NothingHits(lines[..0], name); }
    } else {
      var i := n - 1;
      matching := HitsAre(lines, name, i);
      assert lines[..n] == lines[..i] + [lines[i]];
      HitsAppend(lines[..i], [lines[i]], name);
      HitsOne(lines[i], name);
      if name in lines[i].matches {
        ListsMore(matching, i, MatchAt(lines, name), lines[i]);
        matching := matching + [lines[i]];
      } else {
        ListsOn(matching, i, MatchAt(lines, name));
      }
    }
  }

  lemma NothingHits(lines: seq<Line>, name: string)
    requires lines == []
    ensures Hits(lines, name) == 0
  {
  }

  lemma HitsOne(line: Line, name: string)
    ensures Hits([line], name) == if name in line.matches then 1 else 0
  {
  }

  lemma BlockUncounted(pre: seq<Line>, attrs: seq<Line>, item: Line, body: seq<Line>, post: seq<Line>, name: string)
    requires StateAfter(CLEAN, pre) == CLEAN && IsTestBlock(attrs, item, body)
    ensures Hits(Output(CLEAN, pre + (attrs + [item] + body) + post), name)
            == Hits(Output(CLEAN, pre + post), name) + Hits(Visible(attrs), name)
  {
    hide IsTestBlock, StateAfter, Output;
    BlockLeavesNoTrace(pre, attrs, item, body, post);
    HitsAppend(Output(CLEAN, pre) + Visible(attrs), Output(CLEAN, post), name);
    HitsAppend(Output(CLEAN, pre), Visible(attrs), name);
    HitsAppend(Output(CLEAN, pre), Output(CLEAN, post), name);
  }
}
