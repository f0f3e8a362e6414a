/** Splitting the body of a grouped import on its top-level commas (scripts/analyze_root_crate.py). */
module ImportSplit {
  import opened Blanks

  // Pieces still to come, with the brace depth and the piece under construction.
  function Pieces(body: string, depth: int, cur: string): seq<string>
    decreases |body|
  {
    if body == "" then (if cur != "" then [cur] else [])
    else if body[0] == '{' then Pieces(body[1..], depth + 1, cur + [body[0]])
    else if body[0] == '}' then Pieces(body[1..], depth - 1, cur + [body[0]])
    else if body[0] == ',' && depth == 0 then [cur] + Pieces(body[1..], 0, "")
    else Pieces(body[1..], depth, cur + [body[0]])
  }

  // Stripped pieces, blank ones left out.
  function Entries(parts: seq<string>): seq<string> {
    if parts == [] then []
    else
      var init := Entries(parts[..|parts| - 1]);
      var entry := Strip(parts[|parts| - 1]);
      if entry == "" then init else init + [entry]
  }

  lemma MovePiece(a: seq<string>, p: string, b: seq<string>)
    ensures a + ([p] + b) == (a + [p]) + b
  {
  }

  method SplitTopLevel(body: string) returns (entries: seq<string>)
    ensures entries == Entries(Pieces(body, 0, ""))
    ensures forall e :: e in entries ==> e != "" && Stripped(e) && NoTopComma(0, e)
    ensures DepthAfter(0, body) == 0 ==> forall e :: e in entries ==> Unbroken(e)
  {
    hide Strip, Stripped, NoTopComma, DepthAfter, Unbroken;
    var parts: seq<string> := [];
    var depth := 0;
    var cur := "";
    for i := 0 to |body|
      invariant parts + Pieces(body[i..], depth, cur) == Pieces(body, 0, "")
    {
      var ch := body[i];
      assert body[i..][1..] == body[i + 1..] && body[i..][0] == ch;
      if ch == '{' {
        depth := depth + 1;
        cur := cur + [ch];
      } else if ch == '}' {
        depth := depth - 1;
        cur := cur + [ch];
      } else if ch == ',' && depth == 0 {
        MovePiece(parts, cur, Pieces(body[i + 1..], 0, ""));
        parts := parts + [cur];
        cur := "";
      } else {
        cur := cur + [ch];
      }
    }
    if cur != "" {
      parts := parts + [cur];
    }
    assert parts == Pieces(body, 0, "");
    entries := [];
    for i := 0 to |parts|
      invariant entries == Entries(parts[..i])
    {
      assert parts[..i + 1][..i] == parts[..i];
      if Strip(parts[i]) != "" {
        entries := entries + [Strip(parts[i])];
      }
    }
    assert parts[..|parts|] == parts;
    EntriesUnbroken(body);
  }

  // ---------------------------------------------------------------- joining the pieces again

  function Join(parts: seq<string>): string {
    if parts == [] then ""
    else if |parts| == 1 then parts[0]
    else parts[0] + "," + Join(parts[1..])
  }

  // Brace depth behind one more character.
  function Step(depth: int, c: char): int {
    if c == '{' then depth + 1 else if c == '}' then depth - 1 else depth
  }

  function DepthAfter(depth: int, s: string): int
    decreases |s|
  {
    if s == "" then depth
    else DepthAfter(Step(depth, s[0]), s[1..])
  }

  // No comma at depth 0.
  predicate NoTopComma(depth: int, s: string)
    decreases |s|
  {
    s == "" || (!(s[0] == ',' && depth == 0)
                && NoTopComma(Step(depth, s[0]), s[1..]))
  }

  // A piece that splitting cannot break: braces even out and no comma is outside them.
  predicate Unbroken(s: string) {
    DepthAfter(0, s) == 0 && NoTopComma(0, s)
  }

  lemma {:induction false} PiecesEmptyIff(body: string, depth: int, cur: string)
    ensures Pieces(body, depth, cur) == [] <==> body == "" && cur == ""
    decreases |body|
  {
    if body != "" && !(body[0] == ',' && depth == 0) {
      PiecesEmptyIff(body[1..], Step(depth, body[0]), cur + [body[0]]);
    }
  }

  // The text ends in a comma outside all braces.
  predicate EndsInTopComma(depth: int, body: string) {
    body != "" && body[|body| - 1] == ',' && DepthAfter(depth, body[..|body| - 1]) == 0
  }

  // Nothing is lost: joined with commas the pieces give the body back, all but a trailing top-level comma.
  lemma {:induction false} JoinPieces(body: string, depth: int, cur: string)
    ensures Join(Pieces(body, depth, cur)) + (if EndsInTopComma(depth, body) then "," else "") == cur + body
    decreases |body|
  {
    if body != "" {
      EndsLater(depth, body);
      assert cur + [body[0]] + body[1..] == cur + body;
      if body[0] == ',' && depth == 0 {
        var rest := Pieces(body[1..], 0, "");
        JoinPieces(body[1..], 0, "");
        PiecesEmptyIff(body[1..], 0, "");
        assert ([cur] + rest)[1..] == rest;
        assert "" + body[1..] == body[1..];
        assert cur + "," + body[1..] == cur + body;
      } else {
        JoinPieces(body[1..], Step(depth, body[0]), cur + [body[0]]);
      }
    }
  }

  lemma EndsLater(depth: int, body: string)
    requires body != ""
    ensures EndsInTopComma(depth, body) <==>
            if |body| == 1 then body[0] == ',' && depth == 0 else EndsInTopComma(Step(depth, body[0]), body[1..])
  {
    if |body| > 1 {
      assert body[..|body| - 1][1..] == body[1..][..|body| - 2];
    }
  }

  // Reading a stretch without top-level commas only moves it into the current piece.
  lemma {:induction false} ReadUnbroken(s: string, more: string, depth: int, cur: string)
    requires NoTopComma(depth, s)
    ensures Pieces(s + more, depth, cur) == Pieces(more, DepthAfter(depth, s), cur + s)
    decreases |s|
  {
    if s == "" {
      assert s + more == more && cur + s == cur;
    } else {
      assert (s + more)[1..] == s[1..] + more && (s + more)[0] == s[0];
      assert cur + [s[0]] + s[1..] == cur + s;
      ReadUnbroken(s[1..], more, Step(depth, s[0]), cur + [s[0]]);
    }
  }

  // Splitting undoes joining.
  lemma {:induction false} SplitJoin(parts: seq<string>)
    requires forall i :: 0 <= i < |parts| ==> Unbroken(parts[i])
    requires parts != [] ==> parts[|parts| - 1] != ""
    ensures Pieces(Join(parts), 0, "") == parts
  {
    if |parts| == 1 {
      ReadUnbroken(parts[0], "", 0, "");
      assert parts[0] + "" == parts[0] && "" + parts[0] == parts[0];
    } else if parts != [] {
      var more := "," + Join(parts[1..]);
      assert parts[0] + "," + Join(parts[1..]) == parts[0] + more;
      ReadUnbroken(parts[0], more, 0, "");
      assert more[1..] == Join(parts[1..]) && "" + parts[0] == parts[0];
      SplitJoin(parts[1..]);
    }
  }

  lemma {:induction false} Extend(s: string, c: char, depth: int)
    ensures DepthAfter(depth, s + [c])
            == Step(DepthAfter(depth, s), c)
    ensures NoTopComma(depth, s + [c]) <==> NoTopComma(depth, s) && !(c == ',' && DepthAfter(depth, s) == 0)
    decreases |s|
  {
    if s == "" {
      assert [c][1..] == "" && s + [c] == [c];
    } else {
      assert (s + [c])[1..] == s[1..] + [c];
      Extend(s[1..], c, Step(depth, s[0]));
    }
  }

  // No piece can be split further, and when the braces of the body even out those of every piece do.
  lemma {:induction false} PiecesUnbroken(body: string, depth: int, cur: string)
    requires DepthAfter(0, cur) == depth && NoTopComma(0, cur)
    ensures forall p :: p in Pieces(body, depth, cur) ==> NoTopComma(0, p)
    ensures DepthAfter(depth, body) == 0 ==> forall p :: p in Pieces(body, depth, cur) ==> Unbroken(p)
    decreases |body|
  {
    if body != "" {
      if body[0] == ',' && depth == 0 {
        PiecesUnbroken(body[1..], 0, "");
      } else {
        Extend(cur, body[0], 0);
        PiecesUnbroken(body[1..], Step(depth, body[0]), cur + [body[0]]);
      }
    }
  }

  // ---------------------------------------------------------------- the stripped entries

  lemma {:induction false} EntriesJoin(a: seq<string>, b: seq<string>)
    ensures Entries(a + b) == Entries(a) + Entries(b)
  {
    hide Strip;
    if b == [] {
      assert a + b == a;
    } else {
      var k := |b| - 1;
      assert (a + b)[..|a| + k] == a + b[..k] && (a + b)[|a| + k] == b[k];
      EntriesJoin(a, b[..k]);
    }
  }

  // An entry is what is left of a piece without its blank ends, and only blank pieces have none.
  lemma {:induction false} EntriesAre(parts: seq<string>)
    ensures forall e :: e in Entries(parts) ==> e != "" && Stripped(e)
    ensures forall e :: e in Entries(parts) <==> e != "" && exists i :: 0 <= i < |parts| && Strip(parts[i]) == e
  {
    hide Strip, Stripped;
    if parts != [] {
      var k := |parts| - 1;
      EntriesAre(parts[..k]);
      var _, _ := StripIs(parts[k]);
      forall e ensures e in Entries(parts) <==> e != "" && exists i :: 0 <= i < |parts| && Strip(parts[i]) == e {
        if e in Entries(parts[..k]) {
          var i :| 0 <= i < k && Strip(parts[..k][i]) == e;
          assert Strip(parts[i]) == e;
        }
        if i :| 0 <= i < |parts| && Strip(parts[i]) == e {
          assert i < k ==> Strip(parts[..k][i]) == e;
        }
      }
    }
  }

  lemma {:induction false} ReadOn(depth: int, s: string, t: string)
    ensures DepthAfter(depth, s + t) == DepthAfter(DepthAfter(depth, s), t)
    ensures NoTopComma(depth, s + t) <==> NoTopComma(depth, s) && NoTopComma(DepthAfter(depth, s), t)
    decreases |s|
  {
    if s == "" {
      assert s + t == t;
    } else {
      assert (s + t)[1..] == s[1..] + t;
      ReadOn(Step(depth, s[0]), s[1..], t);
    }
  }

  lemma {:induction false} BlanksAreLevel(depth: int, s: string)
    requires AllBlank(s)
    ensures DepthAfter(depth, s) == depth
    decreases |s|
  {
    if s != "" {
      BlanksAreLevel(depth, s[1..]);
    }
  }

  lemma StripKeepsWhole(p: string)
    ensures DepthAfter(0, Strip(p)) == DepthAfter(0, p)
    ensures NoTopComma(0, p) ==> NoTopComma(0, Strip(p))
  {
    hide Strip;
    var a, b := StripIs(p);
    BlanksAreLevel(0, a);
    ReadOn(0, a + Strip(p), b);
    ReadOn(0, a, Strip(p));
    BlanksAreLevel(DepthAfter(0, a + Strip(p)), b);
  }

  lemma EntriesUnbroken(body: string)
    ensures forall e :: e in Entries(Pieces(body, 0, "")) ==> e != "" && Stripped(e) && NoTopComma(0, e)
    ensures DepthAfter(0, body) == 0 ==> forall e :: e in Entries(Pieces(body, 0, "")) ==> Unbroken(e)
  {
    hide Stripped, Pieces, NoTopComma, Strip;
    var parts := Pieces(body, 0, "");
    assert NoTopComma(0, "") by { NothingBroken(); }
    PiecesUnbroken(body, 0, "");
    EntriesAre(parts);
    forall e | e in Entries(parts)
      ensures NoTopComma(0, e) && (DepthAfter(0, body) == 0 ==> Unbroken(e))
    {
      var i :| 0 <= i < |parts| && Strip(parts[i]) == e;
      assert parts[i] in parts;
      StripKeepsWhole(parts[i]);
    }
  }

  lemma NothingBroken()
    ensures NoTopComma(0, "")
  {
  }

  // Splitting gives entries back that were joined, and splits its own joined output alike.
  lemma {:induction false} EntriesOfEntries(entries: seq<string>)
    requires forall e :: e in entries ==> e != "" && Stripped(e)
    ensures Entries(entries) == entries
  {
    if entries != [] {
      var k := |entries| - 1;
      assert forall e :: e in entries[..k] ==> e in entries;
      EntriesOfEntries(entries[..k]);
      assert entries[k] in entries;
      StripNothing(entries[k]);
      assert entries == entries[..k] + [entries[k]];
    }
  }

  lemma EntriesRoundTrip(entries: seq<string>)
    requires forall e :: e in entries ==> e != "" && Stripped(e) && Unbroken(e)
    ensures Entries(Pieces(Join(entries), 0, "")) == entries
  {
    hide Stripped, Unbroken;
    forall i | 0 <= i < |entries| ensures Unbroken(entries[i]) && entries[i] != "" {
      assert entries[i] in entries;
    }
    SplitJoin(entries);
    EntriesOfEntries(entries);
  }

  lemma SplitAgain(body: string)
    requires DepthAfter(0, body) == 0
    ensures var entries := Entries(Pieces(body, 0, ""));
            Entries(Pieces(Join(entries), 0, "")) == entries
  {
    hide Stripped, Unbroken, DepthAfter;
    EntriesUnbroken(body);
    EntriesRoundTrip(Entries(Pieces(body, 0, "")));
  }
}
