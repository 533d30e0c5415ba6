/** The running total of a group: additions in a context of 100 digits that rounds without complaint. */
module Totals {
  import opened Prelude
  import opened Digits
  import opened Decimals
  import opened Meters

  const TOTAL_DIGITS := 100
  /** Members beyond which a total might no longer be exact: 10 to this power. */
  const MEMBERS_DIGITS := 24

  /** Round half-even to `precision` digits. */
  function Rounded(d: Decimal, precision: nat): Decimal {
    var excess := DigitsOf(d) - precision;
    if excess <= 0 then d
    else
      var p := Pow10(excess);
      var kept, rest := d.coef / p, d.coef % p;
      var coef := if 2 * rest > p || (2 * rest == p && kept % 2 == 1) then kept + 1 else kept;
      if DigitCount(coef) > precision then Decimal(d.neg, coef / 10, d.exp + excess + 1)
      else Decimal(d.neg, coef, d.exp + excess)
  }

  /** `sum(values, start=Decimal(0))`. */
  function RunningSum(values: seq<Decimal>): Decimal {
    if values == [] then ZERO
    else Rounded(Sum(RunningSum(values[..|values| - 1]), values[|values| - 1]), TOTAL_DIGITS)
  }

  // ---- Exact arithmetic in units of 10^-18 ----

  function Quotient(n: nat, p: nat): nat
    requires p > 0
  {
    n / p
  }

  /** The number counted in units of 10^-18. */
  function Units(d: Decimal): int {
    if d.exp >= -STORED_SCALE then At(d, -STORED_SCALE)
    else Signed(Decimal(d.neg, Quotient(d.coef, Pow10(-STORED_SCALE - d.exp)), 0))
  }

  function SumUnits(values: seq<Decimal>): int {
    if values == [] then 0 else SumUnits(values[..|values| - 1]) + Units(values[|values| - 1])
  }

  predicate Fits(d: Decimal) {
    Accepted(d) && Storable(d)
  }

  lemma UnitsAt(d: Decimal, m: int)
    requires Divides(d, STORED_SCALE) && m <= d.exp && m <= -STORED_SCALE
    ensures At(d, m) == Units(d) * Pow10(-STORED_SCALE - m)
  {
    if d.exp >= -STORED_SCALE {
      AtFiner(d, -STORED_SCALE, -STORED_SCALE - m);
    } else {
      var p, q := Pow10(-STORED_SCALE - d.exp), Pow10(d.exp - m);
      DivisionBack(d.coef, p);
      Pow10Add(-STORED_SCALE - d.exp, d.exp - m);
      SignedProduct(d.neg, d.coef / p, p);
      Regroup(Units(d), p, q);
    }
  }

  lemma UnitsFrom(d: Decimal, u: int)
    requires d.exp < -STORED_SCALE && Signed(d) == u * Pow10(-STORED_SCALE - d.exp)
    ensures Divides(d, STORED_SCALE) && Units(d) == u
  {
    var p := Pow10(-STORED_SCALE - d.exp);
    var v := Abs(u);
    SignedProduct(u < 0, v, p);
    assert d.coef == v * p;
    MultipleRemainder(v, p);
    DivisionBack(d.coef, p);
    Cancel(d.coef / p, v, p);
    if u != 0 {
      ScaleMonotone(1, v, p);
    }
  }

  lemma SignedSum(a: Decimal, b: Decimal)
    ensures var m := Min(a.exp, b.exp);
            Sum(a, b).exp == m && Signed(Sum(a, b)) == At(a, m) + At(b, m)
  {
  }

  /** Addition is exact in units. */
  lemma UnitsAdd(a: Decimal, b: Decimal)
    requires Divides(a, STORED_SCALE) && Divides(b, STORED_SCALE)
    ensures Divides(Sum(a, b), STORED_SCALE) && Units(Sum(a, b)) == Units(a) + Units(b)
  {
    hide Divides, Units, At, Sum;
    var m := Min(a.exp, b.exp);
    SignedSum(a, b);
    if m >= -STORED_SCALE {
      UnitsOfFine(a);
      UnitsOfFine(b);
      UnitsOfFine(Sum(a, b));
      AtFiner(a, m, m + STORED_SCALE);
      AtFiner(b, m, m + STORED_SCALE);
      AtFiner(Sum(a, b), m, m + STORED_SCALE);
      AtOwn(Sum(a, b));
      Distribute(At(a, m), At(b, m), Pow10(m + STORED_SCALE));
    } else {
      UnitsAt(a, m);
      UnitsAt(b, m);
      Distribute(Units(a), Units(b), Pow10(-STORED_SCALE - m));
      UnitsFrom(Sum(a, b), Units(a) + Units(b));
    }
  }

  lemma UnitsOfFine(d: Decimal)
    requires d.exp >= -STORED_SCALE
    ensures Divides(d, STORED_SCALE) && Units(d) == At(d, -STORED_SCALE)
  {
  }

  lemma AtOwn(d: Decimal)
    ensures At(d, d.exp) == Signed(d)
  {
    assert Pow10(0) == 1;
  }

  lemma FewDigits(d: Decimal)
    requires d.exp >= -STORED_SCALE && Abs(At(d, -STORED_SCALE)) < Pow10(TOTAL_DIGITS)
    ensures Rounded(d, TOTAL_DIGITS) == d
  {
    hide Pow10, At;
    AtMagnitude(d, -STORED_SCALE);
    ScaleMonotone(1, Pow10(d.exp + STORED_SCALE), d.coef);
    DigitCountAtMost(d.coef, TOTAL_DIGITS);
  }

  lemma DropZeros(d: Decimal, kept: nat, excess: nat)
    requires excess == DigitsOf(d) - TOTAL_DIGITS > 0 && d.coef == kept * Pow10(excess)
    requires kept > 0
    ensures Rounded(d, TOTAL_DIGITS) == Decimal(d.neg, kept, d.exp + excess)
  {
    hide Pow10;
    var p := Pow10(excess);
    MultipleRemainder(kept, p);
    DivisionBack(d.coef, p);
    Cancel(d.coef / p, kept, p);
    DigitCountShift(kept, excess);
  }

  /** Digits beyond the hundredth are zeros. */
  lemma ExcessIsZeros(d: Decimal, u: nat, k: nat)
    requires u > 0 && d.coef == u * Pow10(k) && d.exp == -STORED_SCALE - k
    requires u < Pow10(TOTAL_DIGITS) && DigitsOf(d) > TOTAL_DIGITS
    ensures var excess := DigitsOf(d) - TOTAL_DIGITS;
            excess <= k && Rounded(d, TOTAL_DIGITS) == Decimal(d.neg, u * Pow10(k - excess), d.exp + excess)
  {
    hide Pow10, Rounded;
    DigitCountShift(u, k);
    DigitCountAtMost(u, TOTAL_DIGITS);
    var excess := DigitsOf(d) - TOTAL_DIGITS;
    Pow10Add(k - excess, excess);
    Regroup(u, Pow10(k - excess), Pow10(excess));
    ScaleMonotone(1, u, Pow10(k - excess));
    DropZeros(d, u * Pow10(k - excess), excess);
  }

  lemma RoundingDropsZeros(d: Decimal)
    requires Divides(d, STORED_SCALE) && Abs(Units(d)) < Pow10(TOTAL_DIGITS) && d.exp < -STORED_SCALE
    ensures Divides(Rounded(d, TOTAL_DIGITS), STORED_SCALE) && Units(Rounded(d, TOTAL_DIGITS)) == Units(d)
  {
    hide Pow10, Rounded, DigitCount;
    var k := -STORED_SCALE - d.exp;
    var u := d.coef / Pow10(k);
    DivisionBack(d.coef, Pow10(k));
    if u > 0 && DigitsOf(d) > TOTAL_DIGITS {
      ExcessIsZeros(d, u, k);
      StaysWhole(Rounded(d, TOTAL_DIGITS), u);
    } else {
      KeptWhenShort(d);
    }
  }

  lemma KeptWhenShort(d: Decimal)
    requires DigitsOf(d) <= TOTAL_DIGITS || d.coef == 0
    ensures Rounded(d, TOTAL_DIGITS) == d
  {
    hide Pow10;
  }

  /** Rounding a total of at most 100 digits above 10^-18 loses only zeros, and none when it has at most 18 decimals. */
  lemma RoundingIsExact(d: Decimal)
    requires Divides(d, STORED_SCALE) && Abs(Units(d)) < Pow10(TOTAL_DIGITS)
    ensures var r := Rounded(d, TOTAL_DIGITS);
            Divides(r, STORED_SCALE) && Units(r) == Units(d) && (d.exp >= -STORED_SCALE ==> r == d)
  {
    hide Pow10, Rounded, DigitCount, At;
    if d.exp >= -STORED_SCALE {
      FewDigits(d);
    } else {
      RoundingDropsZeros(d);
    }
  }

  lemma StaysWhole(r: Decimal, u: nat)
    requires r.exp <= -STORED_SCALE && r.coef == u * Pow10(-STORED_SCALE - r.exp)
    ensures Divides(r, STORED_SCALE) && Units(r) == Signed(Decimal(r.neg, u, 0))
  {
    var p := Pow10(-STORED_SCALE - r.exp);
    SignedProduct(r.neg, u, p);
    if r.exp < -STORED_SCALE {
      UnitsFrom(r, Signed(Decimal(r.neg, u, 0)));
    } else {
      assert p == 1;
    }
  }

  lemma FitsUnits(d: Decimal)
    requires Fits(d)
    ensures Divides(d, STORED_SCALE) && Abs(Units(d)) < Pow10(STORED_INTEGER_DIGITS + STORED_SCALE)
  {
    BelowMeansDigits(d, STORED_INTEGER_DIGITS);
    var m := Min(d.exp, -STORED_SCALE);
    UnitsAt(d, m);
    UnitsBelow(d, m);
  }

  lemma UnitsBelow(d: Decimal, m: int)
    requires m <= d.exp && m <= -STORED_SCALE
    requires At(d, m) == Units(d) * Pow10(-STORED_SCALE - m)
    requires d.coef == 0 || Adjusted(d) < STORED_INTEGER_DIGITS
    ensures Abs(Units(d)) < Pow10(STORED_INTEGER_DIGITS + STORED_SCALE)
  {
    hide Units;
    var q := Pow10(-STORED_SCALE - m);
    var top := Pow10(STORED_INTEGER_DIGITS + STORED_SCALE);
    AtBelow(d, m);
    if d.coef != 0 {
      Pow10Monotone(DigitsOf(d) + d.exp - m, STORED_INTEGER_DIGITS - m);
    } else {
      AtMagnitude(d, m);
    }
    Pow10Add(STORED_INTEGER_DIGITS + STORED_SCALE, -STORED_SCALE - m);
    assert Abs(At(d, m)) < top * q;
    SignedProduct(Units(d) < 0, Abs(Units(d)), q);
    if Abs(Units(d)) >= top {
      ScaleMonotone(top, Abs(Units(d)), q);
    }
  }

  lemma {:induction false} SumUnitsBound(values: seq<Decimal>)
    requires forall i :: 0 <= i < |values| ==> Fits(values[i])
    ensures Abs(SumUnits(values)) <= |values| * Pow10(76) - |values|
  {
    hide Fits, Units;
    if values != [] {
      var n := |values| - 1;
      SumUnitsBound(values[..n]);
      FitsUnits(values[n]);
      Distribute(n, 1, Pow10(76));
    }
  }

  lemma BoundedTotal(n: nat, s: int)
    requires n <= Pow10(MEMBERS_DIGITS) && Abs(s) <= n * Pow10(76) - n
    ensures Abs(s) < Pow10(TOTAL_DIGITS)
  {
    Pow10Add(MEMBERS_DIGITS, 76);
    ScaleMonotone(n, Pow10(MEMBERS_DIGITS), Pow10(76));
  }

  /**
    The running total never loses anything: for up to 10^24 members that fit storage it is their exact sum,
    even though the context would round silently.
   */
  lemma {:induction false} RunningSumIsExact(values: seq<Decimal>)
    requires |values| <= Pow10(MEMBERS_DIGITS)
    requires forall i :: 0 <= i < |values| ==> Fits(values[i])
    ensures Divides(RunningSum(values), STORED_SCALE) && Units(RunningSum(values)) == SumUnits(values)
  {
    hide Fits, Units, Divides, Rounded, Sum, Pow10;
    if values == [] {
      UnitsOfFine(ZERO);
    } else {
      var n := |values| - 1;
      RunningSumIsExact(values[..n]);
      FitsUnits(values[n]);
      var acc := RunningSum(values[..n]);
      UnitsAdd(acc, values[n]);
      SumUnitsBound(values);
      BoundedTotal(|values|, SumUnits(values));
      RoundingIsExact(Sum(acc, values[n]));
    }
  }

  // ---- The exact sum ----

  lemma {:induction false} SumUnitsConcat(xs: seq<Decimal>, ys: seq<Decimal>)
    ensures SumUnits(xs + ys) == SumUnits(xs) + SumUnits(ys)
  {
    hide Units;
    if ys == [] {
      assert xs + ys == xs;
    } else {
      var n := |ys| - 1;
      assert (xs + ys)[..|xs| + n] == xs + ys[..n];
      SumUnitsConcat(xs, ys[..n]);
    }
  }

  lemma SumUnitsOne(d: Decimal)
    ensures SumUnits([d]) == Units(d)
  {
    hide Units;
    assert [d][..0] == [];
  }

  lemma SumUnitsWithout(ys: seq<Decimal>, j: nat)
    requires j < |ys|
    ensures SumUnits(ys) == Units(ys[j]) + SumUnits(ys[..j] + ys[j + 1..])
    ensures multiset(ys[..j] + ys[j + 1..]) == multiset(ys) - multiset{ys[j]}
  {
    hide Units, SumUnits;
    assert ys == ys[..j] + ([ys[j]] + ys[j + 1..]);
    SumUnitsConcat(ys[..j], [ys[j]] + ys[j + 1..]);
    SumUnitsConcat([ys[j]], ys[j + 1..]);
    SumUnitsConcat(ys[..j], ys[j + 1..]);
    SumUnitsOne(ys[j]);
  }

  /** The exact sum does not depend on the order of the members. */
  lemma {:induction false} SumUnitsPermuted(xs: seq<Decimal>, ys: seq<Decimal>)
    requires multiset(xs) == multiset(ys)
    ensures SumUnits(xs) == SumUnits(ys)
  {
    hide Units, SumUnits;
    assert |xs| == |multiset(xs)| == |multiset(ys)| == |ys|;
    if xs == [] {
      assert xs == ys;
    } else {
      assert xs[0] in multiset(ys);
      var j :| 0 <= j < |ys| && ys[j] == xs[0];
      SumUnitsWithout(xs, 0);
      SumUnitsWithout(ys, j);
      SumUnitsPermuted(xs[..0] + xs[1..], ys[..j] + ys[j + 1..]);
    }
  }

  /** Whatever scales the members have, the order never changes the number. */
  lemma TotalNumberIgnoresOrder(xs: seq<Decimal>, ys: seq<Decimal>)
    requires multiset(xs) == multiset(ys) && |xs| <= Pow10(MEMBERS_DIGITS)
    requires forall i :: 0 <= i < |xs| ==> Fits(xs[i])
    ensures Divides(RunningSum(xs), STORED_SCALE) && Divides(RunningSum(ys), STORED_SCALE)
            && Units(RunningSum(xs)) == Units(RunningSum(ys))
  {
    hide Fits, Units, Divides, RunningSum, SumUnits, Pow10;
    assert |xs| == |multiset(xs)| == |multiset(ys)| == |ys|;
    forall i | 0 <= i < |ys| ensures Fits(ys[i]) {
      assert ys[i] in multiset(xs);
    }
    RunningSumIsExact(xs);
    RunningSumIsExact(ys);
    SumUnitsPermuted(xs, ys);
  }
}
