/** Powers of ten and decimal numerals. */
module Digits {

  function Pow10(n: nat): (p: nat)
    ensures p >= 1
  {
    if n == 0 then 1 else 10 * Pow10(n - 1)
  }

  lemma PowerZero()
    ensures Pow10(0) == 1
  {
  }

  lemma {:induction false} Pow10Add(a: nat, b: nat)
    ensures Pow10(a + b) == Pow10(a) * Pow10(b)
  {
    if a > 0 {
      Pow10Add(a - 1, b);
      assert 10 * (Pow10(a - 1) * Pow10(b)) == (10 * Pow10(a - 1)) * Pow10(b);
    }
  }

  lemma {:induction false} Pow10Monotone(a: nat, b: nat)
    requires a <= b
    ensures Pow10(a) <= Pow10(b)
    ensures a < b ==> Pow10(a) < Pow10(b)
    decreases b
  {
    if a < b {
      Pow10Monotone(a, b - 1);
    }
  }

  /** The number of digits of a coefficient; zero has one digit. */
  function DigitCount(n: nat): (c: nat)
    ensures c >= 1
  {
    if n < 10 then 1 else 1 + DigitCount(n / 10)
  }

  lemma {:induction false} DigitCountBounds(n: nat)
    ensures n < Pow10(DigitCount(n))
    ensures n > 0 ==> Pow10(DigitCount(n) - 1) <= n
  {
    if n >= 10 {
      DigitCountBounds(n / 10);
    } else {
      assert Pow10(1) == 10;
    }
  }

  /** A coefficient below 10^k has at most k digits. */
  lemma DigitCountAtMost(n: nat, k: nat)
    requires n < Pow10(k) && k >= 1
    ensures DigitCount(n) <= k
  {
    DigitCountBounds(n);
    if DigitCount(n) > k {
      if n > 0 {
        Pow10Monotone(k, DigitCount(n) - 1);
      }
    }
  }

  lemma DigitCountExact(n: nat, k: nat)
    requires k >= 1 && Pow10(k - 1) <= n < Pow10(k)
    ensures DigitCount(n) == k
  {
    DigitCountAtMost(n, k);
    DigitCountBounds(n);
    if DigitCount(n) < k {
      Pow10Monotone(DigitCount(n), k - 1);
    }
  }

  lemma Regroup(a: int, b: int, c: int)
    ensures a * (b * c) == (a * b) * c
  {
  }

  lemma ScaleMonotone(a: int, b: int, c: nat)
    ensures a <= b ==> a * c <= b * c
    ensures a < b && c > 0 ==> a * c < b * c
  {
  }

  lemma ProductBelow(a: nat, b: nat, p: nat, q: nat)
    requires a < p && b < q
    ensures a * b < p * q
  {
    ScaleMonotone(a, p, b);
    ScaleMonotone(b, q, p);
  }

  lemma DigitCountShift(n: nat, k: nat)
    requires n > 0
    ensures n * Pow10(k) > 0
    ensures DigitCount(n * Pow10(k)) == DigitCount(n) + k
  {
    var c := DigitCount(n);
    DigitCountBounds(n);
    Pow10Add(c - 1, k);
    Pow10Add(c, k);
    ScaleMonotone(Pow10(c - 1), n, Pow10(k));
    ScaleMonotone(n, Pow10(c), Pow10(k));
    DigitCountExact(n * Pow10(k), c + k);
  }

  function DigitChar(d: nat): (c: char)
    requires d < 10
    ensures '0' <= c <= '9'
  {
    '0' + d as char
  }

  predicate IsDigit(c: char) {
    '0' <= c <= '9'
  }

  predicate AllDigits(s: string) {
    forall i :: 0 <= i < |s| ==> IsDigit(s[i])
  }

  /** The decimal numeral of a coefficient, without leading zeros. */
  function Numeral(n: nat): (s: string)
    ensures |s| == DigitCount(n)
    ensures AllDigits(s)
  {
    if n < 10 then [DigitChar(n)] else Numeral(n / 10) + [DigitChar(n % 10)]
  }

  /** The number a string of digits denotes. */
  function Reading(s: string): nat
    requires AllDigits(s)
  {
    if s == [] then 0 else 10 * Reading(s[..|s| - 1]) + (s[|s| - 1] as int - '0' as int)
  }

  lemma {:induction false} ReadingOfNumeral(n: nat)
    ensures Reading(Numeral(n)) == n
  {
    var s := Numeral(n);
    if n < 10 {
      assert s[..0] == [];
    } else {
      ReadingOfNumeral(n / 10);
      assert s[..|s| - 1] == Numeral(n / 10);
    }
  }

  lemma NumeralInjective(a: nat, b: nat)
    requires Numeral(a) == Numeral(b)
    ensures a == b
  {
    ReadingOfNumeral(a);
    ReadingOfNumeral(b);
  }

  function Zeros(n: nat): (s: string)
    ensures |s| == n
    ensures forall i :: 0 <= i < n ==> s[i] == '0'
  {
    seq(n, _ => '0')
  }

  lemma {:induction false} ReadingOfPadded(n: nat, s: string)
    requires AllDigits(s)
    ensures Reading(Zeros(n) + s) == Reading(s)
    decreases n + |s|
  {
    var t := Zeros(n) + s;
    if s != [] {
      ReadingOfPadded(n, s[..|s| - 1]);
      assert t[..|t| - 1] == Zeros(n) + s[..|s| - 1];
    } else if n > 0 {
      ReadingOfPadded(n - 1, []);
      assert t[..|t| - 1] == Zeros(n - 1) + [];
    }
  }

  lemma NumeralTimesTen(n: nat)
    requires n > 0
    ensures Numeral(10 * n) == Numeral(n) + "0"
  {
  }

  /** An integer's shortest numeral, signed. */
  function IntText(n: int): (s: string)
    ensures |s| > 0
    ensures s[0] == '-' || IsDigit(s[0])
  {
    if n < 0 then "-" + Numeral(-n) else Numeral(n)
  }
}
