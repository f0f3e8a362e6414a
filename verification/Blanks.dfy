/** Blanks, and stripping them from both ends of a text. */
module Blanks {

  predicate IsBlank(c: char) {
    var n := c as int;
    || 0x09 <= n <= 0x0d || 0x1c <= n <= 0x20 || n == 0x85 || n == 0xa0 || n == 0x1680 || 0x2000 <= n <= 0x200a
    || n == 0x2028 || n == 0x2029 || n == 0x202f || n == 0x205f || n == 0x3000
  }

  predicate AllBlank(s: string) {
    forall i :: 0 <= i < |s| ==> IsBlank(s[i])
  }

  // No blank at either end.
  predicate Stripped(s: string) {
    s == "" || (!IsBlank(s[0]) && !IsBlank(s[|s| - 1]))
  }

  function StripLeft(s: string): string {
    if s != "" && IsBlank(s[0]) then StripLeft(s[1..]) else s
  }

  function StripRight(s: string): string {
    if s != "" && IsBlank(s[|s| - 1]) then StripRight(s[..|s| - 1]) else s
  }

  function Strip(s: string): string {
    StripRight(StripLeft(s))
  }

  lemma {:induction false} StripLeftIs(s: string) returns (a: string)
    ensures AllBlank(a) && s == a + StripLeft(s) && (StripLeft(s) == "" || !IsBlank(StripLeft(s)[0]))
  {
    if s != "" && IsBlank(s[0]) {
      a := StripLeftIs(s[1..]);
      a := [s[0]] + a;
    } else {
      a := "";
    }
  }

  lemma {:induction false} StripRightIs(s: string) returns (b: string)
    ensures AllBlank(b) && s == StripRight(s) + b
    ensures StripRight(s) == "" || (!IsBlank(StripRight(s)[|StripRight(s)| - 1]) && StripRight(s)[0] == s[0])
  {
    if s != "" && IsBlank(s[|s| - 1]) {
      b := StripRightIs(s[..|s| - 1]);
      b := b + [s[|s| - 1]];
    } else {
      b := "";
    }
  }

  // What is stripped is blank, and what is left has no blank end.
  lemma StripIs(s: string) returns (a: string, b: string)
    ensures AllBlank(a) && AllBlank(b) && s == a + Strip(s) + b && Stripped(Strip(s))
  {
    hide StripLeft, StripRight, IsBlank;
    a := StripLeftIs(s);
    b := StripRightIs(StripLeft(s));
    assert a + (Strip(s) + b) == a + Strip(s) + b;
  }

  lemma StripNothing(s: string)
    requires Stripped(s)
    ensures Strip(s) == s
  {
  }

  lemma {:induction false} StripLeftSkips(a: string, t: string)
    requires AllBlank(a) && t != "" && !IsBlank(t[0])
    ensures StripLeft(a + t) == t
    decreases |a|
  {
    if a == "" {
      assert a + t == t;
    } else {
      assert (a + t)[1..] == a[1..] + t;
      StripLeftSkips(a[1..], t);
    }
  }

  lemma {:induction false} StripRightSkips(t: string, b: string)
    requires AllBlank(b) && t != "" && !IsBlank(t[|t| - 1])
    ensures StripRight(t + b) == t
    decreases |b|
  {
    if b == "" {
      assert t + b == t;
    } else {
      assert (t + b)[..|t + b| - 1] == t + b[..|b| - 1];
      StripRightSkips(t, b[..|b| - 1]);
    }
  }

  // So there is one way only to take blanks off both ends until none is left there.
  lemma StripOnce(s: string, a: string, t: string, b: string)
    requires s == a + t + b && AllBlank(a) && AllBlank(b) && Stripped(t) && t != ""
    ensures Strip(s) == t
  {
    assert s == a + (t + b);
    StripLeftSkips(a, t + b);
    StripRightSkips(t, b);
  }
}
