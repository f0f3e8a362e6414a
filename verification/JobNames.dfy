/** Run directory names `run-001`, `run-002`, ... and the order in which a directory listing sorts
    them (scripts/run_terminal_bench_campaign.py). */
module JobNames {
  import opened TextOrder

  function Digit(d: nat): char
    requires d < 10
  {
    '0' + d as char
  }

  function Digits(n: nat): string {
    if n < 10 then [Digit(n)] else Digits(n / 10) + [Digit(n % 10)]
  }

  // At least three digits, padded with zeros on the left.
  function Pad3(s: string): string
    decreases 3 - |s|
  {
    if |s| >= 3 then s else Pad3("0" + s)
  }

  function JobName(n: nat): string {
    "run-" + Pad3(Digits(n))
  }

  // ---------------------------------------------------------------- names are unique

  function Value(s: string): int {
    if s == "" then 0 else Value(s[..|s| - 1]) * 10 + (s[|s| - 1] as int - '0' as int)
  }

  lemma {:induction false} ValueOfDigits(n: nat)
    ensures Value(Digits(n)) == n
  {
    if n >= 10 {
      ValueOfDigits(n / 10);
      assert Digits(n)[..|Digits(n)| - 1] == Digits(n / 10);
    } else {
      assert Digits(n)[..0] == "";
    }
  }

  lemma {:induction false} ValueLeadingZero(s: string)
    ensures Value("0" + s) == Value(s)
  {
    var z := "0" + s;
    if s == "" {
      assert z[..0] == "";
    } else {
      assert z[..|z| - 1] == "0" + s[..|s| - 1];
      ValueLeadingZero(s[..|s| - 1]);
    }
  }

  lemma {:induction false} ValueOfPad(s: string)
    ensures Value(Pad3(s)) == Value(s)
    decreases 3 - |s|
  {
    if |s| < 3 {
      ValueOfPad("0" + s);
      ValueLeadingZero(s);
    }
  }

  lemma JobNameInjective(m: nat, n: nat)
    requires JobName(m) == JobName(n)
    ensures m == n
  {
    assert JobName(m)[4..] == Pad3(Digits(m)) && JobName(n)[4..] == Pad3(Digits(n));
    ValueOfPad(Digits(m));
    ValueOfPad(Digits(n));
    ValueOfDigits(m);
    ValueOfDigits(n);
  }

  lemma {:induction false} DigitsAreDigits(n: nat)
    ensures forall i :: 0 <= i < |Digits(n)| ==> '0' <= Digits(n)[i] <= '9'
    ensures |Digits(n)| > 1 ==> Digits(n)[0] != '0'
  {
    if n >= 10 {
      DigitsAreDigits(n / 10);
    }
  }

  lemma {:induction false} PadIsZeros(s: string)
    requires s != ""
    ensures |Pad3(s)| >= 3 && (|s| >= 3 ==> Pad3(s) == s)
    ensures |Pad3(s)| > 3 ==> Pad3(s) == s
    ensures (forall i :: 0 <= i < |s| ==> '0' <= s[i] <= '9') ==> forall i :: 0 <= i < |Pad3(s)| ==> '0' <= Pad3(s)[i] <= '9'
    decreases 3 - |s|
  {
    if |s| < 3 {
      PadIsZeros("0" + s);
    }
  }

  // A name is "run-" and the number in decimal, in three digits or, without a leading zero, in more.
  lemma JobNameReads(n: nat)
    ensures var name := JobName(n);
            && |name| >= 7 && name[..4] == "run-" && Value(name[4..]) == n
            && (forall i :: 4 <= i < |name| ==> '0' <= name[i] <= '9')
            && (|name| > 7 ==> name[4] != '0')
  {
    hide Digits, Pad3, Value;
    var digits := Digits(n);
    assert JobName(n)[4..] == Pad3(digits) && JobName(n)[..4] == "run-";
    ValueOfPad(digits);
    ValueOfDigits(n);
    DigitsAreDigits(n);
    assert digits != "" by { SomeDigits(n); }
    PadIsZeros(digits);
    forall i | 4 <= i < |JobName(n)| ensures '0' <= JobName(n)[i] <= '9' {
      assert JobName(n)[i] == Pad3(digits)[i - 4];
    }
  }

  lemma SomeDigits(n: nat)
    ensures Digits(n) != ""
  {
  }

  // ---------------------------------------------------------------- the listing order

  lemma {:induction false} LessPrefix(p: string, a: string, b: string)
    ensures NameLess(p + a, p + b) <==> NameLess(a, b)
  {
    if p == "" {
      assert p + a == a && p + b == b;
    } else {
      assert (p + a)[1..] == p[1..] + a && (p + b)[1..] == p[1..] + b;
      LessPrefix(p[1..], a, b);
    }
  }

  lemma ThreeDigits(n: nat)
    requires n < 1000
    ensures Pad3(Digits(n)) == [Digit(n / 100), Digit(n / 10 % 10), Digit(n % 10)]
  {
    if n < 10 {
      assert Pad3(Digits(n)) == Pad3("0" + Digits(n)) == "0" + ("0" + Digits(n));
    } else if n < 100 {
      assert Digits(n) == [Digit(n / 10)] + [Digit(n % 10)];
      assert Pad3(Digits(n)) == "0" + Digits(n);
    } else {
      assert Digits(n / 10) == [Digit(n / 100)] + [Digit(n / 10 % 10)];
      assert Digits(n) == Digits(n / 10) + [Digit(n % 10)];
    }
  }

  lemma LessThree(a: char, b: char, c: char, x: char, y: char, z: char)
    ensures NameLess([a, b, c], [x, y, z]) <==> a < x || (a == x && (b < y || (b == y && c < z)))
  {
    assert [a, b, c][1..] == [b, c] && [x, y, z][1..] == [y, z];
    assert [b, c][1..] == [c] && [y, z][1..] == [z];
    assert [c][1..] == "" && [z][1..] == "";
    assert NameLess([c], [z]) <==> c < z;
  }

  lemma DigitwiseLess(m: nat, n: nat)
    requires m < n < 1000
    ensures m / 100 < n / 100
            || (m / 100 == n / 100 && (m / 10 % 10 < n / 10 % 10 || (m / 10 % 10 == n / 10 % 10 && m % 10 < n % 10)))
  {
  }

  lemma SmallNamesInOrder(m: nat, n: nat)
    requires m < n < 1000
    ensures NameLess(JobName(m), JobName(n))
  {
    hide Digits, Pad3, NameLess;
    DigitwiseLess(m, n);
    ThreeDigits(m);
    ThreeDigits(n);
    LessThree(Digit(m / 100), Digit(m / 10 % 10), Digit(m % 10), Digit(n / 100), Digit(n / 10 % 10), Digit(n % 10));
    LessPrefix("run-", Pad3(Digits(m)), Pad3(Digits(n)));
  }

  lemma ThousandSortsFirst()
    ensures NameLess(JobName(1000), JobName(999))
  {
  }

  // Sorting the runs 1..k by name is sorting them by age exactly up to 999 runs.
  lemma NameOrderIsAgeIff(k: nat)
    ensures (forall m, n :: 1 <= m < n <= k ==> NameLess(JobName(m), JobName(n))) <==> k <= 999
  {
    if k <= 999 {
      forall m, n | 1 <= m < n <= k ensures NameLess(JobName(m), JobName(n)) {
        SmallNamesInOrder(m, n);
      }
    } else {
      ThousandSortsFirst();
      if NameLess(JobName(999), JobName(1000)) {
        NameTransitive(JobName(999), JobName(1000), JobName(999));
        NameIrreflexive(JobName(999));
      }
    }
  }
}
