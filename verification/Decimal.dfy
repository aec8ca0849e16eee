/** Numbers written in decimal digits. */
module Decimal {
  function Digit(d: int): char
    requires 0 <= d < 10
  {
    '0' + d as char
  }

  function Itoa(n: nat): (s: string)
    ensures s != "" && forall i | 0 <= i < |s| :: '0' <= s[i] <= '9'
  {
    if n < 10 then [Digit(n)] else Itoa(n / 10) + [Digit(n % 10)]
  }

  lemma {:induction false} ItoaInjective(a: nat, b: nat)
    requires Itoa(a) == Itoa(b)
    ensures a == b
  {
    var s := Itoa(a);
    assert s[|s| - 1] == Digit(a % 10) && s[|s| - 1] == Digit(b % 10);
    assert a >= 10 ==> s[..|s| - 1] == Itoa(a / 10);
    assert b >= 10 ==> s[..|s| - 1] == Itoa(b / 10);
    if a >= 10 && b >= 10 {
      ItoaInjective(a / 10, b / 10);
    }
  }

  /** The text ends in a hyphen and the number. */
  predicate EndsInNumber(s: string, n: nat) {
    var suffix := "-" + Itoa(n);
    |suffix| <= |s| && s[|s| - |suffix|..] == suffix
  }

  lemma NumberAppended(prefix: string, n: nat)
    ensures EndsInNumber(prefix + "-" + Itoa(n), n)
  {
    assert prefix + "-" + Itoa(n) == prefix + ("-" + Itoa(n));
  }

  /** What stands where in such a text: digits after the hyphen, and the hyphen before them. */
  lemma NumberPlaces(s: string, n: nat, k: nat)
    requires EndsInNumber(s, n) && |s| - |Itoa(n)| - 1 <= k < |s|
    ensures s[k] == '-' <==> k == |s| - |Itoa(n)| - 1
  {
    var start := |s| - |Itoa(n)| - 1;
    assert s[k] == s[start..][k - start] == ("-" + Itoa(n))[k - start];
  }

  /** A text ends in at most one number. */
  lemma EndsInOneNumber(s: string, m: nat, n: nat)
    requires EndsInNumber(s, m) && EndsInNumber(s, n)
    ensures m == n
  {
    var a, b := |s| - |Itoa(m)| - 1, |s| - |Itoa(n)| - 1;
    NumberPlaces(s, m, a);
    NumberPlaces(s, n, b);
    if a < b {
      NumberPlaces(s, m, b);
    } else {
      NumberPlaces(s, n, a);
    }
    assert Itoa(m) == ("-" + Itoa(m))[1..] && Itoa(n) == ("-" + Itoa(n))[1..];
    ItoaInjective(m, n);
  }
}
