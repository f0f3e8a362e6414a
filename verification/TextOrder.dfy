/** The order in which strings sort: code point by code point, a prefix first. */
module TextOrder {

  predicate NameLess(a: string, b: string) {
    if b == "" then false
    else if a == "" then true
    else a[0] < b[0] || (a[0] == b[0] && NameLess(a[1..], b[1..]))
  }

  lemma {:induction false} NameTotal(a: string, b: string)
    ensures NameLess(a, b) || NameLess(b, a) || a == b
  {
    if a != "" && b != "" && a[0] == b[0] {
      NameTotal(a[1..], b[1..]);
      if a[1..] == b[1..] {
        assert a == [a[0]] + a[1..] && b == [b[0]] + b[1..];
      }
    }
  }

  lemma {:induction false} NameTransitive(a: string, b: string, c: string)
    requires NameLess(a, b) && NameLess(b, c)
    ensures NameLess(a, c)
  {
    if a != "" && b != "" && c != "" && a[0] == b[0] == c[0] {
      NameTransitive(a[1..], b[1..], c[1..]);
    }
  }

  lemma {:induction false} NameIrreflexive(a: string)
    ensures !NameLess(a, a)
  {
    if a != "" {
      NameIrreflexive(a[1..]);
    }
  }

  lemma NotBothLess(a: string, b: string)
    ensures !(NameLess(a, b) && NameLess(b, a))
  {
    hide NameLess;
    NameIrreflexive(a);
    if NameLess(a, b) && NameLess(b, a) {
      NameTransitive(a, b, a);
    }
  }
}
