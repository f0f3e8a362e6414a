/** Sums over finite sets, independent of the order of summation. */
module Sums {

  ghost function Sum<T(!new)>(s: set<T>, f: T -> int): int {
    if s == {} then 0
    else
      var x :| x in s;
      f(x) + Sum(s - {x}, f)
  }

  lemma {:induction false} SumTake<T(!new)>(s: set<T>, f: T -> int, x: T)
    requires x in s
    ensures Sum(s, f) == f(x) + Sum(s - {x}, f)
    decreases s
  {
    var y :| y in s && Sum(s, f) == f(y) + Sum(s - {y}, f);
    if y != x {
      SumTake(s - {y}, f, x);
      SumTake(s - {x}, f, y);
      assert s - {x} - {y} == s - {y} - {x};
    }
  }

  lemma {:induction false} SumSame<T(!new)>(s: set<T>, f: T -> int, g: T -> int)
    requires forall x :: x in s ==> f(x) == g(x)
    ensures Sum(s, f) == Sum(s, g)
    decreases s
  {
    if s != {} {
      var x :| x in s;
      SumTake(s, f, x);
      SumTake(s, g, x);
      SumSame(s - {x}, f, g);
    }
  }

  lemma {:induction false} SumMono<T(!new)>(s: set<T>, f: T -> int, g: T -> int)
    requires forall x :: x in s ==> f(x) <= g(x)
    ensures Sum(s, f) <= Sum(s, g)
    decreases s
  {
    if s != {} {
      var x :| x in s;
      SumTake(s, f, x);
      SumTake(s, g, x);
      SumMono(s - {x}, f, g);
    }
  }

  lemma {:induction false} SumNegative<T(!new)>(s: set<T>, f: T -> int)
    requires s != {} && forall x :: x in s ==> f(x) < 0
    ensures Sum(s, f) < 0
    decreases s
  {
    var x :| x in s;
    SumTake(s, f, x);
    if s != {x} {
      SumNegative(s - {x}, f);
    }
  }

  lemma {:induction false} SumPlus<T(!new)>(s: set<T>, f: T -> int, g: T -> int, h: T -> int)
    requires forall x :: x in s ==> h(x) == f(x) + g(x)
    ensures Sum(s, h) == Sum(s, f) + Sum(s, g)
    decreases s
  {
    if s != {} {
      var x :| x in s;
      SumTake(s, f, x);
      SumTake(s, g, x);
      SumTake(s, h, x);
      SumPlus(s - {x}, f, g, h);
    }
  }

  // Zero terms may be dropped.
  lemma {:induction false} SumSubset<T(!new)>(s: set<T>, t: set<T>, f: T -> int)
    requires s <= t && forall x :: x in t && x !in s ==> f(x) == 0
    ensures Sum(s, f) == Sum(t, f)
    decreases t
  {
    if s != t {
      var x :| x in t && x !in s;
      SumTake(t, f, x);
      SumSubset(s, t - {x}, f);
    }
  }

  lemma {:induction false} SumZero<T(!new)>(s: set<T>, f: T -> int)
    requires forall x :: x in s ==> f(x) == 0
    ensures Sum(s, f) == 0
  {
    SumSubset({}, s, f);
  }

  lemma {:induction false} SumNonNegative<T(!new)>(s: set<T>, f: T -> int)
    requires forall x :: x in s ==> 0 <= f(x)
    ensures 0 <= Sum(s, f)
    decreases s
  {
    if s != {} {
      var x :| x in s;
      SumTake(s, f, x);
      SumNonNegative(s - {x}, f);
    }
  }

  ghost function Row<S(!new), T(!new)>(t: set<T>, f: (S, T) -> int, x: S): int {
    Sum(t, y => f(x, y))
  }

  ghost function Column<S(!new), T(!new)>(s: set<S>, f: (S, T) -> int, y: T): int {
    Sum(s, x => f(x, y))
  }

  lemma RowSame<S(!new), T(!new)>(t: set<T>, f: (S, T) -> int, x: S, g: T -> int)
    requires forall y :: y in t ==> f(x, y) == g(y)
    ensures Row(t, f, x) == Sum(t, g)
  {
  }

  lemma ColumnSame<S(!new), T(!new)>(s: set<S>, f: (S, T) -> int, y: T, g: S -> int)
    requires forall x :: x in s ==> f(x, y) == g(x)
    ensures Column(s, f, y) == Sum(s, g)
  {
  }

  // Summing a table by rows or by columns gives the same total.
  lemma {:induction false} SumSwap<S(!new), T(!new)>(s: set<S>, t: set<T>, f: (S, T) -> int)
    ensures Sum(s, x => Row(t, f, x)) == Sum(t, y => Column(s, f, y))
    decreases s
  {
    if s == {} {
      SumZero(t, y => Column(s, f, y));
    } else {
      var x :| x in s;
      SumTake(s, x => Row(t, f, x), x);
      SumSwap(s - {x}, t, f);
      forall y | y in t ensures Column(s, f, y) == f(x, y) + Column(s - {x}, f, y) {
        SumTake(s, x => f(x, y), x);
      }
      SumPlus(t, y => f(x, y), y => Column(s - {x}, f, y), y => Column(s, f, y));
    }
  }
}
