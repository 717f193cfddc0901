/** Decimal text: the shortest form (`strconv.Itoa`), the zero-padded form, and their reader. */
module Decimals {
  predicate IsDigit(c: char) { '0' <= c <= '9' }

  ghost predicate AllDigits(s: string) { forall c <- s :: IsDigit(c) }

  function Digit(d: nat): (c: char)
    requires d < 10
    ensures IsDigit(c)
  {
    (48 + d) as char
  }

  function DigitValue(c: char): (d: nat)
    requires IsDigit(c)
    ensures d < 10 && Digit(d) == c
  {
    c as int - 48
  }

  /** Reads a digit string; the empty string is 0. */
  function Value(s: string): nat
    requires AllDigits(s)
  {
    if s == [] then 0 else 10 * Value(s[..|s| - 1]) + DigitValue(s[|s| - 1])
  }

  /** The shortest decimal form of n. */
  function Itoa(n: nat): (s: string)
    ensures s != [] && AllDigits(s)
  {
    if n < 10 then [Digit(n)] else Itoa(n / 10) + [Digit(n % 10)]
  }

  lemma {:induction false} ItoaValue(n: nat)
    ensures Value(Itoa(n)) == n
  {
    if n >= 10 {
      ItoaValue(n / 10);
      var s := Itoa(n);
      assert s[..|s| - 1] == Itoa(n / 10);
    }
  }

  lemma ItoaInjective(m: nat, n: nat)
    requires Itoa(m) == Itoa(n)
    ensures m == n
  {
    ItoaValue(m);
    ItoaValue(n);
  }

  function Pow10(k: nat): (p: nat)
    ensures p > 0
  {
    if k == 0 then 1 else 10 * Pow10(k - 1)
  }

  /** The last k decimal digits of n, zero-padded. */
  function Pad(n: nat, k: nat): (s: string)
    ensures |s| == k && AllDigits(s)
  {
    if k == 0 then "" else Pad(n / 10, k - 1) + [Digit(n % 10)]
  }

  lemma {:induction false} PadValue(n: nat, k: nat)
    requires n < Pow10(k)
    ensures Value(Pad(n, k)) == n
  {
    if k > 0 {
      PadValue(n / 10, k - 1);
      var s := Pad(n, k);
      assert s[..k - 1] == Pad(n / 10, k - 1);
    }
  }

  lemma {:induction false} ValueBound(s: string)
    requires AllDigits(s)
    ensures Value(s) < Pow10(|s|)
  {
    if s != [] {
      ValueBound(s[..|s| - 1]);
    }
  }

  lemma LastDigit(n: nat, d: nat)
    requires d < 10
    ensures (10 * n + d) / 10 == n && (10 * n + d) % 10 == d
  {
  }

  lemma {:induction false} ValuePad(s: string)
    requires AllDigits(s)
    ensures Value(s) < Pow10(|s|) && Pad(Value(s), |s|) == s
  {
    ValueBound(s);
    if s != [] {
      var k := |s| - 1;
      ValuePad(s[..k]);
      LastDigit(Value(s[..k]), DigitValue(s[k]));
      assert s == s[..k] + [s[k]];
    }
  }
}
