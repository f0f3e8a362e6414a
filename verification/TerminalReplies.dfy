/** Answering terminal queries found in a byte stream (scripts/verify_light_theme.py and
    scripts/bench_memory_cli.py).  Characters stand for bytes. */
module TerminalReplies {
  import opened Digraph

  const ESC := '\U{1b}'

  datatype Entry = Entry(query: string, reply: string)

  predicate IsAt(buffer: string, q: string, i: nat) {
    i + |q| <= |buffer| && buffer[i..i + |q|] == q
  }

  predicate Occurs(buffer: string, q: string) {
    exists i: nat :: i <= |buffer| && IsAt(buffer, q, i)
  }

  predicate Queries(table: seq<Entry>) {
    forall k :: 0 <= k < |table| ==> table[k].query != ""
  }

  // The leftmost query in the buffer; the table decides ties.
  ghost predicate IsFirst(table: seq<Entry>, buffer: string, i: nat, k: nat) {
    && k < |table| && IsAt(buffer, table[k].query, i)
    && (forall j: nat, m: nat :: j < i && m < |table| ==> !IsAt(buffer, table[m].query, j))
    && (forall m: nat :: m < k ==> !IsAt(buffer, table[m].query, i))
  }

  function Cut(buffer: string, q: string, i: nat): string
    requires IsAt(buffer, q, i)
  {
    buffer[..i] + buffer[i + |q|..]
  }

  lemma FirstIsUnique(table: seq<Entry>, buffer: string, i: nat, k: nat, j: nat, m: nat)
    requires IsFirst(table, buffer, i, k) && IsFirst(table, buffer, j, m)
    ensures i == j && k == m
  {
  }

  // ---------------------------------------------------------------- the loop's meaning

  // Which queries are answered, in order, and what is left of the buffer.
  ghost function Answered(table: seq<Entry>, buffer: string): seq<Entry>
    requires Queries(table)
    decreases |buffer|
  {
    if i: nat, k: nat :| IsFirst(table, buffer, i, k) then
      [table[k]] + Answered(table, Cut(buffer, table[k].query, i))
    else []
  }

  ghost function Left(table: seq<Entry>, buffer: string): string
    requires Queries(table)
    decreases |buffer|
  {
    if i: nat, k: nat :| IsFirst(table, buffer, i, k) then
      Left(table, Cut(buffer, table[k].query, i))
    else buffer
  }

  lemma StepFrom(table: seq<Entry>, buffer: string, i: nat, k: nat)
    requires Queries(table) && IsFirst(table, buffer, i, k)
    ensures Answered(table, buffer) == [table[k]] + Answered(table, Cut(buffer, table[k].query, i))
    ensures Left(table, buffer) == Left(table, Cut(buffer, table[k].query, i))
  {
    hide IsAt;
    forall j: nat, m: nat | IsFirst(table, buffer, j, m) ensures j == i && m == k {
      FirstIsUnique(table, buffer, i, k, j, m);
    }
  }

  function Replies(es: seq<Entry>): seq<string> {
    if es == [] then [] else [es[0].reply] + Replies(es[1..])
  }

  // One reply for each query answered, in the same order.
  lemma {:induction false} RepliesAt(es: seq<Entry>)
    ensures |Replies(es)| == |es| && forall i :: 0 <= i < |es| ==> Replies(es)[i] == es[i].reply
  {
    if es != [] {
      RepliesAt(es[1..]);
    }
  }

  lemma {:induction false} RepliesAppend(es: seq<Entry>, e: Entry)
    ensures Replies(es + [e]) == Replies(es) + [e.reply]
  {
    if es == [] {
      assert [e][1..] == [];
    } else {
      assert (es + [e])[1..] == es[1..] + [e];
      RepliesAppend(es[1..], e);
    }
  }

  // ---------------------------------------------------------------- the leftmost-first loop

  // Index of the first occurrence, or -1.
  method Find(buffer: string, q: string) returns (idx: int)
    ensures idx == -1 ==> forall i: nat :: !IsAt(buffer, q, i)
    ensures idx != -1 ==> 0 <= idx && IsAt(buffer, q, idx) && forall i: nat :: i < idx ==> !IsAt(buffer, q, i)
  {
    idx := 0;
    while idx + |q| <= |buffer|
      invariant 0 <= idx && forall i: nat :: i < idx ==> !IsAt(buffer, q, i)
      decreases |buffer| - idx
    {
      if buffer[idx..idx + |q|] == q {
        return;
      }
      idx := idx + 1;
    }
    idx := -1;
  }

  method FindFirst(table: seq<Entry>, buffer: string) returns (idx: int, which: nat)
    ensures idx == -1 ==> forall i: nat, m: nat :: m < |table| ==> !IsAt(buffer, table[m].query, i)
    ensures idx != -1 ==> idx >= 0 && IsFirst(table, buffer, idx, which)
  {
    hide IsAt;
    idx, which := -1, 0;
    for k := 0 to |table|
      invariant idx == -1 ==> forall i: nat, m: nat :: m < k ==> !IsAt(buffer, table[m].query, i)
      invariant idx != -1 ==> idx >= 0 && which < k && IsFirst(table[..k], buffer, idx, which)
    {
      var at := Find(buffer, table[k].query);
      assert table[..k + 1][..k] == table[..k] && table[..k + 1][k] == table[k];
      if at != -1 && (idx == -1 || at < idx) {
        idx, which := at, k;
      }
    }
    assert table[..|table|] == table;
  }

  method ReplyQueries(table: seq<Entry>, buffer0: string) returns (buffer: string, written: seq<string>)
    requires Queries(table)
    ensures buffer == Left(table, buffer0)
    ensures var es := Answered(table, buffer0); |written| == |es| && forall i :: 0 <= i < |es| ==> written[i] == es[i].reply
    ensures forall m :: 0 <= m < |table| ==> !Occurs(buffer, table[m].query)
  {
    hide IsAt, Answered, Left, IsFirst, Cut;
    buffer, written := buffer0, [];
    ghost var done: seq<Entry> := [];
    while true
      invariant Left(table, buffer) == Left(table, buffer0)
      invariant done + Answered(table, buffer) == Answered(table, buffer0)
      invariant written == Replies(done)
      decreases |buffer|
    {
      var idx, k := FindFirst(table, buffer);
      if idx == -1 {
        NoneAnswered(table, buffer);
        assert done + [] == done;
        RepliesAt(done);
        return;
      }
      FirstInTable(table, buffer, idx, k);
      StepFrom(table, buffer, idx, k);
      RepliesAppend(done, table[k]);
      done := done + [table[k]];
      written := written + [table[k].reply];
      CutIs(buffer, table[k].query, idx);
      buffer := buffer[..idx] + buffer[idx + |table[k].query|..];
    }
  }

  lemma FirstInTable(table: seq<Entry>, buffer: string, i: nat, k: nat)
    requires IsFirst(table, buffer, i, k)
    ensures k < |table| && IsAt(buffer, table[k].query, i)
  {
  }

  lemma CutIs(buffer: string, q: string, i: nat)
    requires IsAt(buffer, q, i) && q != ""
    ensures i + |q| <= |buffer| && Cut(buffer, q, i) == buffer[..i] + buffer[i + |q|..]
    ensures |Cut(buffer, q, i)| == |buffer| - |q|
  {
  }

  lemma NoneAnswered(table: seq<Entry>, buffer: string)
    requires Queries(table) && forall i: nat, m: nat :: m < |table| ==> !IsAt(buffer, table[m].query, i)
    ensures Answered(table, buffer) == [] && Left(table, buffer) == buffer
  {
  }

  function QueryBytes(es: seq<Entry>): nat {
    if es == [] then 0 else |es[0].query| + QueryBytes(es[1..])
  }

  // No byte is lost: what is not part of an answered query is left over.
  lemma {:induction false} BytesAccounted(table: seq<Entry>, buffer: string)
    requires Queries(table)
    ensures |buffer| == |Left(table, buffer)| + QueryBytes(Answered(table, buffer))
    ensures forall e :: e in Answered(table, buffer) ==> e in table
    decreases |buffer|
  {
    hide IsAt, IsFirst, Cut;
    if i: nat, k: nat :| IsFirst(table, buffer, i, k) {
      FirstInTable(table, buffer, i, k);
      StepFrom(table, buffer, i, k);
      CutIs(buffer, table[k].query, i);
      BytesAccounted(table, Cut(buffer, table[k].query, i));
      var rest := Answered(table, Cut(buffer, table[k].query, i));
      assert ([table[k]] + rest)[1..] == rest;
    }
  }

  // ---------------------------------------------------------------- queries embedded in plain text

  predicate EscLed(table: seq<Entry>) {
    forall k :: 0 <= k < |table| ==> table[k].query != "" && table[k].query[0] == ESC
  }

  // No query is a prefix of another one.
  predicate PrefixFree(table: seq<Entry>) {
    forall k, m :: 0 <= k < |table| && 0 <= m < |table| && k != m ==> !(table[k].query <= table[m].query)
  }

  predicate EscFree(s: string) {
    forall i :: 0 <= i < |s| ==> s[i] != ESC
  }

  // Filler, query, filler, query, ..., filler.
  function Weave(fillers: seq<string>, queries: seq<Entry>): string
    requires |fillers| == |queries| + 1
  {
    if queries == [] then fillers[0]
    else fillers[0] + (queries[0].query + Weave(fillers[1..], queries[1..]))
  }

  function Concat(fillers: seq<string>): string {
    if fillers == [] then "" else fillers[0] + Concat(fillers[1..])
  }

  lemma NoQueryInPlainText(table: seq<Entry>, text: string)
    requires EscLed(table) && EscFree(text)
    ensures forall i: nat, m: nat :: m < |table| ==> !IsAt(text, table[m].query, i)
  {
  }

  // Behind plain text, the query that follows is the leftmost one, and the only one there.
  lemma FirstBehindText(table: seq<Entry>, text: string, k: nat, more: string)
    requires EscLed(table) && PrefixFree(table) && EscFree(text) && k < |table|
    ensures IsFirst(table, text + (table[k].query + more), |text|, k)
    ensures Cut(text + (table[k].query + more), table[k].query, |text|) == text + more
  {
  }

  lemma {:induction false} WeaveMerge(fillers: seq<string>, queries: seq<Entry>, text: string)
    requires |fillers| == |queries| + 1
    ensures text + Weave(fillers, queries) == Weave([text + fillers[0]] + fillers[1..], queries)
    ensures text + Concat(fillers) == Concat([text + fillers[0]] + fillers[1..])
  {
  }

  // Exactly the embedded queries are answered, in stream order, and the text comes back unchanged.
  lemma {:induction false} StreamAnswered(table: seq<Entry>, fillers: seq<string>, queries: seq<Entry>)
    requires EscLed(table) && PrefixFree(table)
    requires |fillers| == |queries| + 1 && (forall i :: 0 <= i < |fillers| ==> EscFree(fillers[i]))
    requires forall i :: 0 <= i < |queries| ==> queries[i] in table
    ensures Queries(table)
    ensures Answered(table, Weave(fillers, queries)) == queries
    ensures Left(table, Weave(fillers, queries)) == Concat(fillers)
    decreases |queries|
  {
    hide IsAt, IsFirst, Cut, EscFree, PrefixFree;
    assert Queries(table);
    var buffer := Weave(fillers, queries);
    if queries == [] {
      NoQueryInPlainText(table, buffer);
      NoneAnswered(table, buffer);
      assert fillers[1..] == [] && Concat(fillers) == fillers[0] + Concat([]);
    } else {
      var k :| 0 <= k < |table| && table[k] == queries[0];
      var more := Weave(fillers[1..], queries[1..]);
      FirstBehindText(table, fillers[0], k, more);
      StepFrom(table, buffer, |fillers[0]|, k);
      var merged := [fillers[0] + fillers[1]] + fillers[2..];
      assert fillers[1..][1..] == fillers[2..] && fillers[1..][0] == fillers[1];
      WeaveMerge(fillers[1..], queries[1..], fillers[0]);
      EscFreeJoin(fillers[0], fillers[1]);
      assert forall i :: 0 <= i < |merged| ==> EscFree(merged[i]);
      StreamAnswered(table, merged, queries[1..]);
      assert [queries[0]] + queries[1..] == queries;
    }
  }

  lemma EscFreeJoin(a: string, b: string)
    requires EscFree(a) && EscFree(b)
    ensures EscFree(a + b)
  {
  }

  // ---------------------------------------------------------------- the reply table

  function LightTable(bg: string): seq<Entry> {
    var fg := if bg == "ffff" then "0000" else "ffff";
    [ Entry("\U{1b}[6n", "\U{1b}[1;1R"),
      Entry("\U{1b}[c", "\U{1b}[?62;c"),
      Entry("\U{1b}]10;?\U{1b}\\", "\U{1b}]10;rgb:" + fg + "/" + fg + "/" + fg + "\U{1b}\\"),
      Entry("\U{1b}]11;?\U{1b}\\", "\U{1b}]11;rgb:" + bg + "/" + bg + "/" + bg + "\U{1b}\\"),
      Entry("\U{1b}]10;?\U{07}", "\U{1b}]10;rgb:" + fg + "/" + fg + "/" + fg + "\U{07}"),
      Entry("\U{1b}]11;?\U{07}", "\U{1b}]11;rgb:" + bg + "/" + bg + "/" + bg + "\U{07}"),
      Entry("\U{1b}[14t", "\U{1b}[4;600;800t"),
      Entry("\U{1b}[16t", "\U{1b}[6;16;8t"),
      Entry("\U{1b}[18t", "\U{1b}[8;24;80t") ]
  }

  lemma DifferAt(a: string, b: string, i: nat)
    requires i < |a| && (i >= |b| || a[i] != b[i])
    ensures !(a <= b)
  {
  }

  lemma LightTableShape(bg: string)
    ensures EscLed(LightTable(bg)) && PrefixFree(LightTable(bg)) && Queries(LightTable(bg))
  {
    var t := LightTable(bg);
    forall k, m | 0 <= k < |t| && 0 <= m < |t| && k != m ensures !(t[k].query <= t[m].query) {
      var csi := {0, 1, 6, 7, 8};
      var at := if (k in csi) != (m in csi) then 1
                else if k in csi then (if k >= 6 && m >= 6 then 3 else 2)
                else if (k - m) % 2 != 0 then 3 else 6;
      DifferAt(t[k].query, t[m].query, at);
    }
  }

  // The loop on a stream of plain text and known queries: one reply per query, in stream order.
  lemma LightRepliesInOrder(bg: string, fillers: seq<string>, queries: seq<Entry>)
    requires |fillers| == |queries| + 1 && (forall i :: 0 <= i < |fillers| ==> EscFree(fillers[i]))
    requires forall i :: 0 <= i < |queries| ==> queries[i] in LightTable(bg)
    ensures Queries(LightTable(bg))
    ensures Answered(LightTable(bg), Weave(fillers, queries)) == queries
    ensures Left(LightTable(bg), Weave(fillers, queries)) == Concat(fillers)
  {
    hide LightTable, Answered, Left;
    LightTableShape(bg);
    StreamAnswered(LightTable(bg), fillers, queries);
  }

  // ---------------------------------------------------------------- the table-order loop

  // The buffer without the occurrences of q, taken left to right.
  function Removed(buffer: string, q: string): (r: string)
    requires q != ""
    ensures |r| <= |buffer|
    decreases |buffer|
  {
    if buffer == "" then ""
    else if IsAt(buffer, q, 0) then Removed(buffer[|q|..], q)
    else [buffer[0]] + Removed(buffer[1..], q)
  }

  lemma {:induction false} RemovedIff(buffer: string, q: string)
    requires q != ""
    ensures Occurs(buffer, q) <==> |Removed(buffer, q)| < |buffer|
    ensures !Occurs(buffer, q) ==> Removed(buffer, q) == buffer
    decreases |buffer|
  {
    if buffer != "" && !IsAt(buffer, q, 0) {
      RemovedIff(buffer[1..], q);
      OccursLater(buffer, q);
      hide IsAt, Occurs;
    }
  }

  lemma OccursLater(buffer: string, q: string)
    requires buffer != "" && !IsAt(buffer, q, 0)
    ensures Occurs(buffer, q) <==> Occurs(buffer[1..], q)
  {
    if Occurs(buffer, q) {
      var i: nat :| i <= |buffer| && IsAt(buffer, q, i);
      assert buffer[1..][i - 1..i - 1 + |q|] == buffer[i..i + |q|];
      assert IsAt(buffer[1..], q, i - 1);
    }
    if Occurs(buffer[1..], q) {
      var i: nat :| i <= |buffer[1..]| && IsAt(buffer[1..], q, i);
      assert buffer[i + 1..i + 1 + |q|] == buffer[1..][i..i + |q|];
      assert IsAt(buffer, q, i + 1);
    }
  }

  lemma RestAt(buffer: string, i: nat, q: string)
    requires i < |buffer|
    ensures buffer[i..][1..] == buffer[i + 1..] && buffer[i..][0] == buffer[i]
    ensures IsAt(buffer[i..], q, 0) <==> IsAt(buffer, q, i)
    ensures IsAt(buffer, q, i) ==> i + |q| <= |buffer| && buffer[i..][|q|..] == buffer[i + |q|..]
  {
    assert i + |q| <= |buffer| ==> buffer[i..][0..|q|] == buffer[i..i + |q|];
  }

  lemma RemovedStep(buffer: string, i: nat, q: string)
    requires q != "" && i < |buffer|
    ensures IsAt(buffer, q, i) ==> i + |q| <= |buffer| && Removed(buffer[i..], q) == Removed(buffer[i + |q|..], q)
    ensures !IsAt(buffer, q, i) ==> Removed(buffer[i..], q) == [buffer[i]] + Removed(buffer[i + 1..], q)
  {
    hide IsAt;
    RestAt(buffer, i, q);
  }

  method RemoveAll(buffer0: string, q: string) returns (buffer: string)
    requires q != ""
    ensures buffer == Removed(buffer0, q)
  {
    buffer := "";
    var i := 0;
    hide Removed;
    assert buffer0[0..] == buffer0;
    while i < |buffer0|
      invariant 0 <= i <= |buffer0| && buffer + Removed(buffer0[i..], q) == Removed(buffer0, q)
      decreases |buffer0| - i
    {
      RemovedStep(buffer0, i, q);
      if i + |q| <= |buffer0| && buffer0[i..i + |q|] == q {
        i := i + |q|;
      } else {
        assert buffer + ([buffer0[i]] + Removed(buffer0[i + 1..], q)) == (buffer + [buffer0[i]]) + Removed(buffer0[i + 1..], q);
        buffer := buffer + [buffer0[i]];
        i := i + 1;
      }
    }
    RemovedFromNothing(q);
  }

  // One round over the table: which queries get a reply, and what is left.
  ghost function RoundAnswered(table: seq<Entry>, buffer: string): seq<Entry>
    requires Queries(table)
  {
    if table == [] then []
    else (if Occurs(buffer, table[0].query) then [table[0]] else [])
         + RoundAnswered(table[1..], Removed(buffer, table[0].query))
  }

  function RoundLeft(table: seq<Entry>, buffer: string): (r: string)
    requires Queries(table)
    ensures |r| <= |buffer|
  {
    if table == [] then buffer else RoundLeft(table[1..], Removed(buffer, table[0].query))
  }

  // Rounds over the table until a whole round finds nothing.
  ghost function TableAnswered(table: seq<Entry>, buffer: string): seq<Entry>
    requires Queries(table)
    decreases |buffer|
  {
    if |RoundLeft(table, buffer)| == |buffer| then []
    else RoundAnswered(table, buffer) + TableAnswered(table, RoundLeft(table, buffer))
  }

  function TableLeft(table: seq<Entry>, buffer: string): string
    requires Queries(table)
    decreases |buffer|
  {
    if |RoundLeft(table, buffer)| == |buffer| then buffer else TableLeft(table, RoundLeft(table, buffer))
  }

  lemma {:induction false} RoundQuiet(table: seq<Entry>, buffer: string)
    requires Queries(table)
    ensures (forall m :: 0 <= m < |table| ==> !Occurs(buffer, table[m].query)) <==> |RoundLeft(table, buffer)| == |buffer|
    ensures |RoundLeft(table, buffer)| == |buffer| <==> RoundAnswered(table, buffer) == []
  {
    hide Occurs, Removed;
    if table != [] {
      RemovedIff(buffer, table[0].query);
      RoundQuiet(table[1..], Removed(buffer, table[0].query));
      assert forall m :: 0 < m < |table| ==> table[1..][m - 1] == table[m];
    }
  }

  lemma RoundOn(table: seq<Entry>, k: nat, buffer: string, done: seq<Entry>)
    requires Queries(table) && k < |table|
    ensures var q, left := table[k].query, Removed(buffer, table[k].query);
            && RoundLeft(table[k..], buffer) == RoundLeft(table[k + 1..], left)
            && done + RoundAnswered(table[k..], buffer) ==
               (if Occurs(buffer, q) then done + [table[k]] else done) + RoundAnswered(table[k + 1..], left)
  {
    hide Occurs, Removed;
    assert table[k..][1..] == table[k + 1..] && table[k..][0] == table[k];
  }

  lemma {:induction false} RepliesJoin(a: seq<Entry>, b: seq<Entry>)
    ensures Replies(a + b) == Replies(a) + Replies(b)
  {
    if a == [] {
      assert a + b == b;
    } else {
      assert (a + b)[1..] == a[1..] + b;
      RepliesJoin(a[1..], b);
    }
  }

  method ReplyRound(table: seq<Entry>, buffer0: string) returns (buffer: string, written: seq<string>, changed: bool)
    requires Queries(table)
    ensures buffer == RoundLeft(table, buffer0) && written == Replies(RoundAnswered(table, buffer0))
    ensures changed <==> |RoundLeft(table, buffer0)| != |buffer0|
  {
    hide Occurs, Removed, RoundLeft, RoundAnswered;
    buffer, written, changed := buffer0, [], false;
    ghost var done: seq<Entry> := [];
    assert table[0..] == table;
    for k := 0 to |table|
      invariant RoundLeft(table[k..], buffer) == RoundLeft(table, buffer0)
      invariant done + RoundAnswered(table[k..], buffer) == RoundAnswered(table, buffer0)
      invariant written == Replies(done) && (changed <==> done != [])
    {
      var at := Find(buffer, table[k].query);
      OccursIff(buffer, table[k].query, at);
      RoundOn(table, k, buffer, done);
      RemovedIff(buffer, table[k].query);
      if at != -1 {
        RepliesAppend(done, table[k]);
        done := done + [table[k]];
        written := written + [table[k].reply];
        buffer := RemoveAll(buffer, table[k].query);
        changed := true;
      }
    }
    RoundOver(table, buffer);
    assert done + [] == done;
    RoundQuiet(table, buffer0);
  }

  lemma RoundOver(table: seq<Entry>, buffer: string)
    ensures RoundLeft(table[|table|..], buffer) == buffer && RoundAnswered(table[|table|..], buffer) == []
  {
  }

  method ReplyQueriesTableOrder(table: seq<Entry>, buffer0: string) returns (buffer: string, written: seq<string>)
    requires Queries(table)
    ensures buffer == TableLeft(table, buffer0)
    ensures var es := TableAnswered(table, buffer0); |written| == |es| && forall i :: 0 <= i < |es| ==> written[i] == es[i].reply
    ensures forall m :: 0 <= m < |table| ==> !Occurs(buffer, table[m].query)
    ensures |buffer| <= |buffer0| && (written == [] <==> buffer == buffer0)
  {
    hide Occurs, RoundLeft, RoundAnswered;
    buffer, written := buffer0, [];
    ghost var done: seq<Entry> := [];
    var changed := true;
    while changed
      invariant written == Replies(done) && |buffer| <= |buffer0|
      invariant done + TableAnswered(table, buffer) == TableAnswered(table, buffer0)
      invariant TableLeft(table, buffer) == TableLeft(table, buffer0)
      invariant !changed ==> |RoundLeft(table, buffer)| == |buffer|
      invariant if |buffer| == |buffer0| then buffer == buffer0 && done == [] else done != []
      decreases |buffer|, changed
    {
      ghost var some := RoundAnswered(table, buffer);
      RoundQuiet(table, buffer);
      RepliesJoin(done, some);
      var next, more;
      next, more, changed := ReplyRound(table, buffer);
      if changed {
        assert done + (some + TableAnswered(table, next)) == (done + some) + TableAnswered(table, next);
        done := done + some;
      } else {
        RoundSame(table, buffer);
        assert done + [] == done;
      }
      buffer, written := next, written + more;
    }
    RoundQuiet(table, buffer);
    assert done + [] == done;
    NoReplies(done);
    RepliesAt(done);
  }

  lemma NoReplies(es: seq<Entry>)
    ensures Replies(es) == [] <==> es == []
  {
  }

  lemma {:induction false} RoundSame(table: seq<Entry>, buffer: string)
    requires Queries(table) && |RoundLeft(table, buffer)| == |buffer|
    ensures RoundLeft(table, buffer) == buffer
  {
    hide Occurs, Removed;
    if table != [] {
      RemovedIff(buffer, table[0].query);
      RoundSame(table[1..], buffer);
    }
  }

  lemma OccursIff(buffer: string, q: string, at: int)
    requires at == -1 ==> forall i: nat :: !IsAt(buffer, q, i)
    requires at != -1 ==> 0 <= at && IsAt(buffer, q, at)
    ensures Occurs(buffer, q) <==> at != -1
  {
  }

  // ---------------------------------------------------------------- table order on plain text with queries

  // The two differ where both have a character.
  predicate Clash(a: string, b: string) {
    exists j :: 0 <= j < |a| && j < |b| && a[j] != b[j]
  }

  // No query can begin within another one, or at its beginning.
  predicate Apart(table: seq<Entry>) {
    forall k, m, i :: 0 <= k < |table| && 0 <= m < |table| && 0 <= i < |table[k].query| && (i > 0 || k != m) ==>
      Clash(table[k].query[i..], table[m].query)
  }

  // The entries of the table that occur among the queries, in table order.
  function Present(table: seq<Entry>, queries: seq<Entry>): seq<Entry> {
    if table == [] then [] else (if table[0] in queries then [table[0]] else []) + Present(table[1..], queries)
  }

  function Without(queries: seq<Entry>, e: Entry): seq<Entry> {
    if queries == [] then []
    else (if queries[0] == e then [] else [queries[0]]) + Without(queries[1..], e)
  }

  lemma NotAtFront(buffer: string, q: string)
    requires buffer != "" && q != "" && buffer[0] != q[0]
    ensures !IsAt(buffer, q, 0)
  {
  }

  lemma {:induction false} RemovedBehindText(text: string, more: string, q: string)
    requires q != "" && q[0] == ESC && EscFree(text)
    ensures Removed(text + more, q) == text + Removed(more, q)
    decreases |text|
  {
    if text == "" {
      assert text + more == more;
    } else {
      assert (text + more)[1..] == text[1..] + more && (text + more)[0] == text[0];
      NotAtFront(text + more, q);
      RemovedBehindText(text[1..], more, q);
    }
  }

  lemma ClashNotAt(a: string, more: string, q: string)
    requires Clash(a, q)
    ensures !IsAt(a + more, q, 0)
  {
    var j :| 0 <= j < |a| && j < |q| && a[j] != q[j];
    assert (a + more)[j] == a[j];
  }

  lemma {:induction false} RemovedBehindQuery(a: string, more: string, q: string)
    requires q != "" && forall i :: 0 <= i < |a| ==> Clash(a[i..], q)
    ensures Removed(a + more, q) == a + Removed(more, q)
    decreases |a|
  {
    if a == "" {
      assert a + more == more;
    } else {
      assert (a + more)[1..] == a[1..] + more && (a + more)[0] == a[0];
      assert a[0..] == a;
      hide Clash, IsAt;
      ClashNotAt(a, more, q);
      forall i | 0 <= i < |a[1..]| ensures Clash(a[1..][i..], q) {
        assert a[1..][i..] == a[i + 1..];
      }
      RemovedBehindQuery(a[1..], more, q);
    }
  }

  lemma RemovedItself(q: string, more: string)
    requires q != ""
    ensures Removed(q + more, q) == Removed(more, q)
  {
    assert (q + more)[|q|..] == more && (q + more)[0..|q|] == q;
  }

  ghost predicate PlainFillers(fillers: seq<string>, queries: seq<Entry>) {
    |fillers| == |queries| + 1 && forall i :: 0 <= i < |fillers| ==> EscFree(fillers[i])
  }

  ghost predicate Known(table: seq<Entry>, queries: seq<Entry>) {
    forall f :: f in queries ==> f in table
  }

  lemma OthersClash(table: seq<Entry>, e: Entry, f: Entry)
    requires Apart(table) && e in table && f in table && e != f
    ensures forall i :: 0 <= i < |f.query| ==> Clash(f.query[i..], e.query)
  {
  }

  lemma RemovedBehindFirst(fillers: seq<string>, queries: seq<Entry>, q: string)
    requires queries != [] && PlainFillers(fillers, queries) && q != "" && q[0] == ESC
    ensures Removed(Weave(fillers, queries), q)
            == fillers[0] + Removed(queries[0].query + Weave(fillers[1..], queries[1..]), q)
  {
    hide Removed, EscFree;
    RemovedBehindText(fillers[0], queries[0].query + Weave(fillers[1..], queries[1..]), q);
  }

  lemma MergeFirst(text: string, fillers: seq<string>, queries: seq<Entry>)
    requires EscFree(text) && PlainFillers(fillers, queries)
    ensures var merged := [text + fillers[0]] + fillers[1..];
            && PlainFillers(merged, queries) && Weave(merged, queries) == text + Weave(fillers, queries)
            && Concat(merged) == text + Concat(fillers)
  {
    hide EscFree;
    WeaveMerge(fillers, queries, text);
    EscFreeJoin(text, fillers[0]);
  }

  lemma PushFirst(text: string, e: Entry, fillers: seq<string>, queries: seq<Entry>)
    requires EscFree(text) && PlainFillers(fillers, queries)
    ensures var pushed, es := [text] + fillers, [e] + queries;
            && PlainFillers(pushed, es) && Weave(pushed, es) == text + (e.query + Weave(fillers, queries))
            && Concat(pushed) == text + Concat(fillers)
  {
    hide EscFree;
    assert ([text] + fillers)[1..] == fillers && ([e] + queries)[1..] == queries;
  }

  lemma PlainTail(fillers: seq<string>, queries: seq<Entry>)
    requires PlainFillers(fillers, queries) && queries != []
    ensures PlainFillers(fillers[1..], queries[1..]) && EscFree(fillers[0])
    ensures Concat(fillers) == fillers[0] + Concat(fillers[1..])
  {
  }

  lemma ShortWeave(fillers: seq<string>)
    requires |fillers| == 1
    ensures Weave(fillers, []) == fillers[0] && Concat(fillers) == fillers[0]
  {
    assert Concat(fillers[1..]) == "";
  }

  // Removing one kind of query leaves the text and the other queries.
  lemma {:induction false} RemoveFromWeave(table: seq<Entry>, fillers: seq<string>, queries: seq<Entry>, e: Entry)
    returns (rest: seq<string>)
    requires EscLed(table) && Apart(table) && PlainFillers(fillers, queries) && Known(table, queries) && e in table
    ensures e.query != "" && PlainFillers(rest, Without(queries, e)) && Known(table, Without(queries, e))
    ensures Removed(Weave(fillers, queries), e.query) == Weave(rest, Without(queries, e))
    ensures Concat(rest) == Concat(fillers)
    decreases |queries|
  {
    var q := e.query;
    hide Removed, Apart, EscFree, Clash, Concat, Weave;
    if queries == [] {
      ShortWeave(fillers);
      RemovedBehindText(fillers[0], "", q);
      assert fillers[0] + "" == fillers[0];
      RemovedFromNothing(q);
      rest := fillers;
    } else {
      PlainTail(fillers, queries);
      RemovedBehindFirst(fillers, queries, q);
      hide PlainFillers;
      var tail := RemoveFromWeave(table, fillers[1..], queries[1..], e);
      var more := Weave(fillers[1..], queries[1..]);
      if queries[0] == e {
        RemovedItself(q, more);
        MergeFirst(fillers[0], tail, Without(queries[1..], e));
        rest := MergedFirst(fillers[0], tail, Without(queries[1..], e));
        assert Without(queries, e) == Without(queries[1..], e);
      } else {
        assert queries[0] in queries;
        OthersClash(table, e, queries[0]);
        RemovedBehindQuery(queries[0].query, more, q);
        PushFirst(fillers[0], queries[0], tail, Without(queries[1..], e));
        rest := [fillers[0]] + tail;
        assert Without(queries, e) == [queries[0]] + Without(queries[1..], e);
      }
    }
  }

  ghost function MergedFirst(text: string, fillers: seq<string>, queries: seq<Entry>): seq<string>
    requires PlainFillers(fillers, queries)
  {
    [text + fillers[0]] + fillers[1..]
  }

  lemma RemovedFromNothing(q: string)
    requires q != ""
    ensures Removed("", q) == ""
  {
  }

  lemma {:induction false} WeaveLength(fillers: seq<string>, queries: seq<Entry>)
    requires |fillers| == |queries| + 1
    ensures |Weave(fillers, queries)| == |Concat(fillers)| + QueryBytes(queries)
    decreases |queries|
  {
    if queries == [] {
      assert fillers[1..] == [] && Concat(fillers) == fillers[0] + Concat([]);
    } else {
      WeaveLength(fillers[1..], queries[1..]);
    }
  }

  lemma {:induction false} WithoutBytes(queries: seq<Entry>, e: Entry)
    requires e.query != ""
    ensures QueryBytes(Without(queries, e)) <= QueryBytes(queries)
    ensures e in queries <==> QueryBytes(Without(queries, e)) < QueryBytes(queries)
    ensures forall f :: f in Without(queries, e) <==> f in queries && f != e
  {
    if queries != [] {
      WithoutBytes(queries[1..], e);
      if queries[0] != e {
        assert Without(queries, e)[1..] == Without(queries[1..], e);
      } else {
        assert Without(queries, e) == Without(queries[1..], e);
      }
    }
  }

  lemma {:induction false} PresentSame(table: seq<Entry>, queries: seq<Entry>, others: seq<Entry>)
    requires forall f :: f in table ==> (f in queries <==> f in others)
    ensures Present(table, queries) == Present(table, others)
  {
    if table != [] {
      PresentSame(table[1..], queries, others);
    }
  }

  // What a round makes of the stream, from the k-th entry on.
  lemma {:induction false} RoundOfWeave(table: seq<Entry>, k: nat, fillers: seq<string>, queries: seq<Entry>)
    requires EscLed(table) && Apart(table) && PlainFillers(fillers, queries) && Known(table, queries) && k <= |table|
    requires forall m :: 0 <= m < k ==> table[m] !in queries
    ensures Queries(table[k..])
    ensures RoundAnswered(table[k..], Weave(fillers, queries)) == Present(table[k..], queries)
    ensures RoundLeft(table[k..], Weave(fillers, queries)) == Concat(fillers)
    decreases |table| - k
  {
    hide Removed, Apart, Occurs, Clash, EscFree, IsAt;
    if k == |table| {
      NoQueriesLeft(table, fillers, queries);
    } else {
      var e := table[k];
      assert table[k..][1..] == table[k + 1..] && table[k..][0] == e;
      var rest := RemoveFromWeave(table, fillers, queries, e);
      WithoutBytes(queries, e);
      WeaveLength(fillers, queries);
      WeaveLength(rest, Without(queries, e));
      RemovedIff(Weave(fillers, queries), e.query);
      ApartDistinct(table, k, table[k + 1..]);
      RoundOfWeave(table, k + 1, rest, Without(queries, e));
      PresentSame(table[k + 1..], queries, Without(queries, e));
    }
  }

  lemma ApartDistinct(table: seq<Entry>, k: nat, later: seq<Entry>)
    requires Apart(table) && EscLed(table) && k < |table| && later == table[k + 1..]
    ensures forall f :: f in later ==> f != table[k]
  {
    forall f | f in later ensures f != table[k] {
      var m :| k < m < |table| && table[m] == f;
      assert Clash(table[k].query[0..], table[m].query);
    }
  }

  lemma SomeQuery(queries: seq<Entry>)
    requires queries != []
    ensures exists f :: f in queries
  {
    assert queries[0] in queries;
  }

  lemma NoQueriesLeft(table: seq<Entry>, fillers: seq<string>, queries: seq<Entry>)
    requires PlainFillers(fillers, queries) && Known(table, queries) && forall m :: 0 <= m < |table| ==> table[m] !in queries
    ensures queries == [] && Weave(fillers, queries) == Concat(fillers)
  {
    forall f | f in table ensures f !in queries {
      var m :| 0 <= m < |table| && table[m] == f;
    }
    if queries != [] {
      SomeQuery(queries);
      assert false;
    }
    assert fillers[1..] == [] && Concat(fillers) == fillers[0] + Concat([]);
  }

  // On plain text with embedded queries: one reply for each different query, however often it is asked, in the
  // order of the table; and the text comes back unchanged.
  lemma TableOrderAnswers(table: seq<Entry>, fillers: seq<string>, queries: seq<Entry>)
    requires EscLed(table) && Apart(table) && PlainFillers(fillers, queries) && Known(table, queries)
    ensures Queries(table)
    ensures TableAnswered(table, Weave(fillers, queries)) == Present(table, queries)
    ensures TableLeft(table, Weave(fillers, queries)) == Concat(fillers)
  {
    hide Apart, Occurs, RoundLeft, RoundAnswered, IsAt;
    assert table[0..] == table;
    var buffer, text := Weave(fillers, queries), Concat(fillers);
    RoundOfWeave(table, 0, fillers, queries);
    RoundQuiet(table, buffer);
    if |text| == |buffer| {
      RoundSame(table, buffer);
    } else {
      ConcatPlain(fillers);
      assert [text][1..] == [] && Concat([text]) == text by { assert Concat([text]) == text + Concat([]); }
      RoundOfWeave(table, 0, [text], []);
      assert Present(table, queries) + [] == Present(table, queries);
    }
  }

  lemma {:induction false} ConcatPlain(fillers: seq<string>)
    requires forall i :: 0 <= i < |fillers| ==> EscFree(fillers[i])
    ensures EscFree(Concat(fillers))
  {
    if fillers != [] {
      ConcatPlain(fillers[1..]);
    }
  }

  lemma {:induction false} PresentIs(table: seq<Entry>, queries: seq<Entry>)
    requires Distinct(table)
    ensures Distinct(Present(table, queries))
    ensures forall f :: f in Present(table, queries) <==> f in table && f in queries
  {
    if table != [] {
      PresentIs(table[1..], queries);
      assert table == [table[0]] + table[1..];
    }
  }

  lemma {:induction false} DistinctIffSize<T>(s: seq<T>)
    ensures |Elems(s)| <= |s|
    ensures |Elems(s)| == |s| <==> Distinct(s)
  {
    if s != [] {
      DistinctIffSize(s[1..]);
      assert s == [s[0]] + s[1..];
      if s[0] in s[1..] {
        assert Elems(s) == Elems(s[1..]);
      } else {
        assert Elems(s) == Elems(s[1..]) + {s[0]};
      }
    }
  }

  // Unlike the leftmost-first loop, this one answers every query asked exactly when none is asked twice.
  lemma AllAnsweredIff(table: seq<Entry>, fillers: seq<string>, queries: seq<Entry>)
    requires EscLed(table) && Apart(table) && PlainFillers(fillers, queries) && Known(table, queries)
    ensures Queries(table)
    ensures |TableAnswered(table, Weave(fillers, queries))| == |queries| <==> Distinct(queries)
  {
    hide PlainFillers, Weave, Concat, Present, TableAnswered, TableLeft;
    TableOrderAnswers(table, fillers, queries);
    forall k, m | 0 <= k < m < |table| ensures table[k] != table[m] {
      assert Clash(table[k].query[0..], table[m].query);
    }
    PresentIs(table, queries);
    DistinctIffSize(Present(table, queries));
    DistinctIffSize(queries);
    assert Elems(Present(table, queries)) == Elems(queries);
  }

  // ---------------------------------------------------------------- the bench table

  function BenchTable(): seq<Entry> {
    [ Entry("\U{1b}[6n", "\U{1b}[1;1R"),
      Entry("\U{1b}[c", "\U{1b}[?62;c"),
      Entry("\U{1b}]10;?\U{1b}\\", "\U{1b}]10;rgb:ffff/ffff/ffff\U{1b}\\"),
      Entry("\U{1b}]11;?\U{1b}\\", "\U{1b}]11;rgb:0000/0000/0000\U{1b}\\"),
      Entry("\U{1b}]10;?\U{07}", "\U{1b}]10;rgb:ffff/ffff/ffff\U{07}"),
      Entry("\U{1b}]11;?\U{07}", "\U{1b}]11;rgb:0000/0000/0000\U{07}"),
      Entry("\U{1b}]4;0;?\U{07}", "\U{1b}]4;0;rgb:0000/0000/0000\U{07}"),
      Entry("\U{1b}[14t", "\U{1b}[4;600;800t"),
      Entry("\U{1b}[16t", "\U{1b}[6;16;8t"),
      Entry("\U{1b}[18t", "\U{1b}[8;24;80t"),
      Entry("\U{1b}[?1016$p", "\U{1b}[?1016;1$y"),
      Entry("\U{1b}[?2027$p", "\U{1b}[?2027;1$y"),
      Entry("\U{1b}[?2031$p", "\U{1b}[?2031;1$y"),
      Entry("\U{1b}[?1004$p", "\U{1b}[?1004;1$y"),
      Entry("\U{1b}[?2004$p", "\U{1b}[?2004;1$y"),
      Entry("\U{1b}[?2026$p", "\U{1b}[?2026;1$y") ]
  }

  // An escape sequence: only a terminating ESC \ puts another ESC inside.
  predicate Sequence(q: string) {
    && |q| >= 2 && q[0] == ESC && q[1] != '\\'
    && forall i :: 0 < i < |q| && q[i] == ESC ==> i + 1 < |q| && q[i + 1] == '\\'
  }

  lemma SequencesApart(table: seq<Entry>)
    requires forall k :: 0 <= k < |table| ==> Sequence(table[k].query)
    requires forall k, m :: 0 <= k < |table| && 0 <= m < |table| && k != m ==> Clash(table[k].query, table[m].query)
    ensures EscLed(table) && Apart(table)
  {
    forall k, m, i | 0 <= k < |table| && 0 <= m < |table| && 0 <= i < |table[k].query| && (i > 0 || k != m)
      ensures Clash(table[k].query[i..], table[m].query)
    {
      var q, r := table[k].query, table[m].query;
      if i == 0 {
        assert q[0..] == q;
      } else if q[i] != ESC {
        ClashAt(q[i..], r, 0);
      } else {
        ClashAt(q[i..], r, 1);
      }
    }
  }

  lemma ClashAt(a: string, b: string, j: nat)
    requires j < |a| && j < |b| && a[j] != b[j]
    ensures Clash(a, b) && Clash(b, a)
  {
  }

  lemma BenchSequences(k: nat)
    requires k < 16
    ensures Sequence(BenchTable()[k].query)
  {
    if k < 8 {
      LowerSequences(k);
    } else {
      UpperSequences(k);
    }
  }

  lemma LowerSequences(k: nat)
    requires k < 8
    ensures Sequence(BenchTable()[k].query)
  {
  }

  lemma UpperSequences(k: nat)
    requires 8 <= k < 16
    ensures Sequence(BenchTable()[k].query)
  {
  }

  // Where two of the bench queries differ: an OSC from a CSI, two OSCs, or two CSIs.
  lemma KindsClash(k: nat, m: nat)
    requires 2 <= k <= 6 && (m < 2 || 6 < m < 16)
    ensures Clash(BenchTable()[k].query, BenchTable()[m].query) && Clash(BenchTable()[m].query, BenchTable()[k].query)
  {
    ClashAt(BenchTable()[k].query, BenchTable()[m].query, 1);
  }

  lemma OscClash(k: nat, m: nat)
    requires 2 <= k < m <= 6
    ensures Clash(BenchTable()[k].query, BenchTable()[m].query) && Clash(BenchTable()[m].query, BenchTable()[k].query)
  {
    ClashAt(BenchTable()[k].query, BenchTable()[m].query, if m == 6 then 2 else if (k - m) % 2 != 0 then 3 else 6);
  }

  lemma CsiClash(k: nat, m: nat)
    requires k < m < 16 && (k < 2 || 6 < k) && (m < 2 || 6 < m)
    ensures Clash(BenchTable()[k].query, BenchTable()[m].query) && Clash(BenchTable()[m].query, BenchTable()[k].query)
  {
    var at := if k < 2 || (k < 10 && m >= 10) then 2
              else if k < 10 then 3
              else if (k in {10, 13}) != (m in {10, 13}) then 3
              else if k == 11 && m == 15 then 6
              else 5;
    ClashAt(BenchTable()[k].query, BenchTable()[m].query, at);
  }

  lemma BenchClash(k: nat, m: nat)
    requires k < m < 16
    ensures Clash(BenchTable()[k].query, BenchTable()[m].query) && Clash(BenchTable()[m].query, BenchTable()[k].query)
  {
    hide BenchTable, Clash;
    if 2 <= k <= 6 {
      if m <= 6 {
        OscClash(k, m);
      } else {
        KindsClash(k, m);
      }
    } else if 2 <= m <= 6 {
      KindsClash(m, k);
    } else {
      CsiClash(k, m);
    }
  }

  // So the bench loop writes one reply for each different query in the stream, in table order.
  lemma BenchReplies(fillers: seq<string>, queries: seq<Entry>)
    requires PlainFillers(fillers, queries) && Known(BenchTable(), queries)
    ensures Queries(BenchTable())
    ensures TableAnswered(BenchTable(), Weave(fillers, queries)) == Present(BenchTable(), queries)
    ensures TableLeft(BenchTable(), Weave(fillers, queries)) == Concat(fillers)
  {
    var t := BenchTable();
    assert |t| == 16;
    hide BenchTable, Sequence, Clash, PlainFillers, Known, Weave, Concat;
    forall k | 0 <= k < |t| ensures Sequence(t[k].query) {
      BenchSequences(k);
    }
    forall k, m | 0 <= k < |t| && 0 <= m < |t| && k != m ensures Clash(t[k].query, t[m].query) {
      BenchClash(if k < m then k else m, if k < m then m else k);
    }
    SequencesApart(t);
    TableOrderAnswers(t, fillers, queries);
  }

  // ---------------------------------------------------------------- what the tables reply

  const BEL := "\U{07}"
  const ST := "\U{1b}\\"

  // Asked for a colour by number, the terminal repeats the number and gives the colour in place of the question
  // mark, ending as the question ended.
  function ColourEntry(number: string, colour: string, end: string): Entry {
    Entry("\U{1b}]" + number + ";?" + end,
          "\U{1b}]" + number + ";rgb:" + colour + "/" + colour + "/" + colour + end)
  }

  // Asked whether a mode is set, it says yes, by number.
  function ModeEntry(mode: string): Entry {
    Entry("\U{1b}[?" + mode + "$p", "\U{1b}[?" + mode + ";1$y")
  }

  // Cursor position, device attributes, and the sizes of window, cell and text area.
  const REPORTS := [
    Entry("\U{1b}[6n", "\U{1b}[1;1R"), Entry("\U{1b}[c", "\U{1b}[?62;c"),
    Entry("\U{1b}[14t", "\U{1b}[4;600;800t"), Entry("\U{1b}[16t", "\U{1b}[6;16;8t"), Entry("\U{1b}[18t", "\U{1b}[8;24;80t")]

  lemma LightColours(number: string, head: string, colour: string, end: string, query: string)
    requires query == "\U{1b}]" + number + ";?" + end && head == "\U{1b}]" + number + ";rgb:"
    ensures Entry(query, head + colour + "/" + colour + "/" + colour + end) == ColourEntry(number, colour, end)
  {
  }

  // Background colours are the one asked for, foreground colours black on white and white on anything else.
  lemma LightTableReads(bg: string)
    ensures var fg, t := if bg == "ffff" then "0000" else "ffff", LightTable(bg);
            && |t| == 9 && t[0] == REPORTS[0] && t[1] == REPORTS[1]
            && t[2] == ColourEntry("10", fg, ST) && t[3] == ColourEntry("11", bg, ST)
            && t[4] == ColourEntry("10", fg, BEL) && t[5] == ColourEntry("11", bg, BEL)
            && t[6] == REPORTS[2] && t[7] == REPORTS[3] && t[8] == REPORTS[4]
  {
    var fg := if bg == "ffff" then "0000" else "ffff";
    hide ColourEntry;
    LightColours("10", "\U{1b}]10;rgb:", fg, ST, "\U{1b}]10;?\U{1b}\\");
    LightColours("11", "\U{1b}]11;rgb:", bg, ST, "\U{1b}]11;?\U{1b}\\");
    LightColours("10", "\U{1b}]10;rgb:", fg, BEL, "\U{1b}]10;?\U{07}");
    LightColours("11", "\U{1b}]11;rgb:", bg, BEL, "\U{1b}]11;?\U{07}");
  }

  lemma ForegroundReply()
    ensures Entry("\U{1b}]10;?\U{1b}\\", "\U{1b}]10;rgb:ffff/ffff/ffff\U{1b}\\") == ColourEntry("10", "ffff", ST)
  {
  }

  lemma BackgroundReply()
    ensures Entry("\U{1b}]11;?\U{1b}\\", "\U{1b}]11;rgb:0000/0000/0000\U{1b}\\") == ColourEntry("11", "0000", ST)
  {
  }

  lemma ForegroundBelReply()
    ensures Entry("\U{1b}]10;?\U{07}", "\U{1b}]10;rgb:ffff/ffff/ffff\U{07}") == ColourEntry("10", "ffff", BEL)
  {
  }

  lemma BackgroundBelReply()
    ensures Entry("\U{1b}]11;?\U{07}", "\U{1b}]11;rgb:0000/0000/0000\U{07}") == ColourEntry("11", "0000", BEL)
  {
  }

  lemma PaletteReply()
    ensures Entry("\U{1b}]4;0;?\U{07}", "\U{1b}]4;0;rgb:0000/0000/0000\U{07}") == ColourEntry("4;0", "0000", BEL)
  {
  }

  lemma ModeReply(mode: string, query: string, reply: string)
    requires |mode| == 4
    requires query == "\U{1b}[?" + mode + "$p" && reply == "\U{1b}[?" + mode + ";1$y"
    ensures Entry(query, reply) == ModeEntry(mode)
  {
  }

  // The bench terminal is white on black and supports the modes asked for.
  lemma BenchTableReads()
    ensures var t := BenchTable();
            && |t| == 16 && t[0] == REPORTS[0] && t[1] == REPORTS[1]
            && t[2] == ColourEntry("10", "ffff", ST) && t[3] == ColourEntry("11", "0000", ST)
            && t[4] == ColourEntry("10", "ffff", BEL) && t[5] == ColourEntry("11", "0000", BEL)
            && t[6] == ColourEntry("4;0", "0000", BEL)
            && t[7] == REPORTS[2] && t[8] == REPORTS[3] && t[9] == REPORTS[4]
            && t[10] == ModeEntry("1016") && t[11] == ModeEntry("2027") && t[12] == ModeEntry("2031")
            && t[13] == ModeEntry("1004") && t[14] == ModeEntry("2004") && t[15] == ModeEntry("2026")
  {
    hide ColourEntry, ModeEntry;
    ForegroundReply();
    BackgroundReply();
    ForegroundBelReply();
    BackgroundBelReply();
    PaletteReply();
    ModeReply("1016", "\U{1b}[?1016$p", "\U{1b}[?1016;1$y");
    ModeReply("2027", "\U{1b}[?2027$p", "\U{1b}[?2027;1$y");
    ModeReply("2031", "\U{1b}[?2031$p", "\U{1b}[?2031;1$y");
    ModeReply("1004", "\U{1b}[?1004$p", "\U{1b}[?1004;1$y");
    ModeReply("2004", "\U{1b}[?2004$p", "\U{1b}[?2004;1$y");
    ModeReply("2026", "\U{1b}[?2026$p", "\U{1b}[?2026;1$y");
  }
}
