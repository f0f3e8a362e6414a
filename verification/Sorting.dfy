/** Stable sorting by a total preorder, as a list sort does it. */
module Sorting {

  ghost predicate TotalPreorder<T(!new)>(leq: (T, T) -> bool) {
    && (forall a, b :: leq(a, b) || leq(b, a))
    && (forall a, b, c :: leq(a, b) && leq(b, c) ==> leq(a, c))
  }

  predicate Sorted<T>(leq: (T, T) -> bool, s: seq<T>) {
    forall i, j :: 0 <= i < j < |s| ==> leq(s[i], s[j])
  }

  // Before the first element that is not smaller, so that equal elements keep their order.
  function Insert<T>(leq: (T, T) -> bool, x: T, s: seq<T>): seq<T> {
    if s == [] then [x]
    else if leq(x, s[0]) then [x] + s
    else [s[0]] + Insert(leq, x, s[1..])
  }

  function Sort<T>(leq: (T, T) -> bool, s: seq<T>): seq<T> {
    if s == [] then [] else Insert(leq, s[0], Sort(leq, s[1..]))
  }

  lemma {:induction false} InsertMembers<T>(leq: (T, T) -> bool, x: T, s: seq<T>)
    ensures multiset(Insert(leq, x, s)) == multiset(s) + multiset{x}
  {
    if s != [] && !leq(x, s[0]) {
      InsertMembers(leq, x, s[1..]);
      HeadMembers(s);
      assert Insert(leq, x, s) == [s[0]] + Insert(leq, x, s[1..]);
    }
  }

  lemma HeadMembers<T>(s: seq<T>)
    requires s != []
    ensures multiset(s) == multiset{s[0]} + multiset(s[1..])
  {
    assert s == [s[0]] + s[1..];
  }

  lemma {:induction false} SortMembers<T>(leq: (T, T) -> bool, s: seq<T>)
    ensures multiset(Sort(leq, s)) == multiset(s)
  {
    if s != [] {
      SortMembers(leq, s[1..]);
      InsertMembers(leq, s[0], Sort(leq, s[1..]));
      assert s == [s[0]] + s[1..];
    }
  }

  lemma SameMembers<T>(leq: (T, T) -> bool, s: seq<T>, x: T)
    ensures x in Sort(leq, s) <==> x in s
  {
    SortMembers(leq, s);
    assert x in Sort(leq, s) <==> x in multiset(Sort(leq, s));
    assert x in s <==> x in multiset(s);
  }

  lemma {:induction false} InsertSorted<T(!new)>(leq: (T, T) -> bool, x: T, s: seq<T>)
    requires TotalPreorder(leq) && Sorted(leq, s)
    ensures Sorted(leq, Insert(leq, x, s))
  {
    if s != [] && !leq(x, s[0]) {
      InsertSorted(leq, x, s[1..]);
      var t := Insert(leq, x, s[1..]);
      InsertMembers(leq, x, s[1..]);
      forall j | 0 <= j < |t| ensures leq(s[0], t[j]) {
        assert t[j] in multiset(t);
        assert t[j] == x || t[j] in s[1..];
      }
    } else if s != [] {
      forall j | 0 <= j < |s| ensures leq(x, s[j]) {
        assert leq(x, s[0]) && (j > 0 ==> leq(s[0], s[j]));
      }
    }
  }

  lemma {:induction false} SortSorted<T(!new)>(leq: (T, T) -> bool, s: seq<T>)
    requires TotalPreorder(leq)
    ensures Sorted(leq, Sort(leq, s))
  {
    if s != [] {
      SortSorted(leq, s[1..]);
      InsertSorted(leq, s[0], Sort(leq, s[1..]));
    }
  }

  // The elements that sort like x, in their order.
  function AlikeIn<T>(leq: (T, T) -> bool, x: T, s: seq<T>): seq<T> {
    if s == [] then []
    else (if leq(x, s[0]) && leq(s[0], x) then [s[0]] else []) + AlikeIn(leq, x, s[1..])
  }

  lemma {:induction false} InsertStable<T(!new)>(leq: (T, T) -> bool, x: T, s: seq<T>, y: T)
    requires TotalPreorder(leq)
    ensures AlikeIn(leq, y, Insert(leq, x, s)) == AlikeIn(leq, y, [x] + s)
  {
    assert ([x] + s)[1..] == s;
    if s != [] && !leq(x, s[0]) {
      InsertStable(leq, x, s[1..], y);
      assert ([x] + s[1..])[1..] == s[1..];
      assert Insert(leq, x, s)[1..] == Insert(leq, x, s[1..]);
    }
  }

  // Elements that sort alike keep their order.
  lemma {:induction false} SortStable<T(!new)>(leq: (T, T) -> bool, s: seq<T>, x: T)
    requires TotalPreorder(leq)
    ensures AlikeIn(leq, x, Sort(leq, s)) == AlikeIn(leq, x, s)
  {
    if s != [] {
      SortStable(leq, s[1..], x);
      InsertStable(leq, s[0], Sort(leq, s[1..]), x);
      assert ([s[0]] + Sort(leq, s[1..]))[1..] == Sort(leq, s[1..]);
    }
  }
}
