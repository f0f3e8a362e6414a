/** What it means that a sequence lists, in order and completely, what the positions of an input give. */
module Listing {

  // The a-th member comes from position at[a]; positions rise, and nothing that some position gives is left out.
  // So a position gives one member at most.
  ghost predicate ListsAt<T(!new)>(s: seq<T>, n: nat, gives: (int, T) -> bool, at: seq<nat>) {
    && |at| == |s|
    && (forall a :: 0 <= a < |s| ==> at[a] < n && gives(at[a], s[a]))
    && (forall a, b :: 0 <= a < b < |s| ==> at[a] < at[b])
    && (forall i, x :: 0 <= i < n && gives(i, x) ==> exists a :: 0 <= a < |s| && at[a] == i && s[a] == x)
  }

  ghost predicate Lists<T(!new)>(s: seq<T>, n: nat, gives: (int, T) -> bool) {
    exists at :: ListsAt(s, n, gives, at)
  }

  lemma ListsNothing<T(!new)>(gives: (int, T) -> bool)
    ensures Lists([], 0, gives)
  {
    assert ListsAt([], 0, gives, []);
  }

  lemma ListsMore<T(!new)>(s: seq<T>, n: nat, gives: (int, T) -> bool, x: T)
    requires Lists(s, n, gives) && gives(n, x) && forall y :: gives(n, y) ==> y == x
    ensures Lists(s + [x], n + 1, gives)
  {
    var at :| ListsAt(s, n, gives, at);
    MoreAt(s, n, gives, at, x);
  }

  lemma MoreAt<T(!new)>(s: seq<T>, n: nat, gives: (int, T) -> bool, at: seq<nat>, x: T)
    requires ListsAt(s, n, gives, at) && gives(n, x) && forall y :: gives(n, y) ==> y == x
    ensures ListsAt(s + [x], n + 1, gives, at + [n])
  {
    var t, next := s + [x], at + [n];
    forall i, y | 0 <= i < n + 1 && gives(i, y) ensures exists a :: 0 <= a < |t| && next[a] == i && t[a] == y {
      if i == n {
        assert next[|s|] == n && t[|s|] == y;
      } else {
        var a :| 0 <= a < |s| && at[a] == i && s[a] == y;
        assert next[a] == i && t[a] == y;
      }
    }
  }

  lemma ListsOn<T(!new)>(s: seq<T>, n: nat, gives: (int, T) -> bool)
    requires Lists(s, n, gives) && forall y :: !gives(n, y)
    ensures Lists(s, n + 1, gives)
  {
    var at :| ListsAt(s, n, gives, at);
    assert ListsAt(s, n + 1, gives, at);
  }

  lemma ListsMembers<T(!new)>(s: seq<T>, n: nat, gives: (int, T) -> bool)
    requires Lists(s, n, gives)
    ensures forall x :: x in s <==> exists i :: 0 <= i < n && gives(i, x)
  {
    var at :| ListsAt(s, n, gives, at);
    forall x ensures x in s <==> exists i :: 0 <= i < n && gives(i, x) {
      if x in s {
        var a :| 0 <= a < |s| && s[a] == x;
        assert gives(at[a], x);
      }
    }
  }

  lemma NextPositionSame<T(!new)>(s: seq<T>, t: seq<T>, n: nat, gives: (int, T) -> bool, at: seq<nat>, bt: seq<nat>, a: nat)
    requires ListsAt(s, n, gives, at) && ListsAt(t, n, gives, bt) && a < |s|
    requires forall b :: 0 <= b < a ==> b < |t| && at[b] == bt[b] && s[b] == t[b]
    ensures a < |t| && bt[a] <= at[a] && (bt[a] == at[a] ==> t[a] == s[a])
  {
    var c :| 0 <= c < |t| && bt[c] == at[a] && t[c] == s[a];
  }

  // There is one such listing only.
  lemma {:induction false} SamePrefix<T(!new)>(s: seq<T>, t: seq<T>, n: nat, gives: (int, T) -> bool, at: seq<nat>, bt: seq<nat>, a: nat)
    requires ListsAt(s, n, gives, at) && ListsAt(t, n, gives, bt) && a <= |s|
    ensures a <= |t| && forall b :: 0 <= b < a ==> at[b] == bt[b] && s[b] == t[b]
  {
    if a > 0 {
      var k := a - 1;
      SamePrefix(s, t, n, gives, at, bt, k);
      NextPositionSame(s, t, n, gives, at, bt, k);
      NextPositionSame(t, s, n, gives, bt, at, k);
      hide ListsAt;
    }
  }

  lemma ListsOnce<T(!new)>(s: seq<T>, t: seq<T>, n: nat, gives: (int, T) -> bool)
    requires Lists(s, n, gives) && Lists(t, n, gives)
    ensures s == t
  {
    var at :| ListsAt(s, n, gives, at);
    var bt :| ListsAt(t, n, gives, bt);
    SamePrefix(s, t, n, gives, at, bt, |s|);
    SamePrefix(t, s, n, gives, bt, at, |t|);
  }
}
