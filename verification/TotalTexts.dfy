/**
  The exponent that a running total ends with. Its number never depends on the order of the members, its
  text can: this module says exactly when it does.
 */
module TotalTexts {
  import opened Prelude
  import opened Digits
  import opened Decimals
  import opened Texts
  import opened Meters
  import opened Totals
  import StoredRecords

  /** Members that fit storage, few enough for their total to be exact. */
  ghost predicate Summable(values: seq<Decimal>) {
    |values| <= Pow10(MEMBERS_DIGITS) && forall i :: 0 <= i < |values| ==> Fits(values[i])
  }

  // ---- The exponent of a running sum ----

  /** The exponent of the leading digit of `u` units of 10^-18. */
  function Place(u: int): int {
    DigitCount(Abs(u)) - 1 - STORED_SCALE
  }

  /** The exponent after adding a member: the finer of both, unless a hundred digits do not reach that far. */
  function NextExponent(e: int, x: int, u: int): int {
    if u == 0 then Min(e, x) else Max(Min(e, x), Place(u) - (TOTAL_DIGITS - 1))
  }

  function Exponent(values: seq<Decimal>): int {
    if values == [] then 0
    else NextExponent(Exponent(values[..|values| - 1]), values[|values| - 1].exp, SumUnits(values))
  }

  lemma ZeroUnits(d: Decimal)
    requires Divides(d, STORED_SCALE)
    ensures Units(d) == 0 <==> d.coef == 0
  {
    hide Units, Divides;
    var m := Min(d.exp, -STORED_SCALE);
    UnitsAt(d, m);
    AtMagnitude(d, m);
    SignedProduct(Units(d) < 0, Abs(Units(d)), Pow10(-STORED_SCALE - m));
    if Units(d) != 0 {
      ScaleMonotone(1, Abs(Units(d)), Pow10(-STORED_SCALE - m));
    }
    if d.coef != 0 {
      ScaleMonotone(1, d.coef, Pow10(d.exp - m));
    }
  }

  lemma UnitsPlace(d: Decimal)
    requires Divides(d, STORED_SCALE) && Units(d) != 0
    ensures Adjusted(d) == Place(Units(d))
  {
    hide Units, Divides, At, DigitCount;
    var m := Min(d.exp, -STORED_SCALE);
    UnitsAt(d, m);
    AtMagnitude(d, m);
    SignedProduct(Units(d) < 0, Abs(Units(d)), Pow10(-STORED_SCALE - m));
    ZeroUnits(d);
    DigitCountShift(Abs(Units(d)), -STORED_SCALE - m);
    DigitCountShift(d.coef, d.exp - m);
  }

  /** Rounding to a hundred digits: nothing to drop, or all digits beyond the hundredth are zeros. */
  lemma RoundedPlace(s: Decimal)
    requires Divides(s, STORED_SCALE) && 0 < Abs(Units(s)) < Pow10(TOTAL_DIGITS)
    ensures Rounded(s, TOTAL_DIGITS).exp == Max(s.exp, Place(Units(s)) - (TOTAL_DIGITS - 1))
  {
    hide Units, Divides, At, DigitCount, Pow10, Rounded;
    UnitsPlace(s);
    ZeroUnits(s);
    if DigitsOf(s) <= TOTAL_DIGITS {
      KeptWhenShort(s);
    } else {
      LongIsFine(s);
      var k, u := FineParts(s);
      ExcessIsZeros(s, u, k);
    }
  }

  lemma LongIsFine(s: Decimal)
    requires DigitsOf(s) > TOTAL_DIGITS && Divides(s, STORED_SCALE) && Abs(Units(s)) < Pow10(TOTAL_DIGITS)
    ensures s.exp < -STORED_SCALE
  {
    hide At, Pow10, DigitCount, Rounded;
    if s.exp >= -STORED_SCALE {
      ShortWhenCoarse(s);
    }
  }

  lemma ShortWhenCoarse(s: Decimal)
    requires s.exp >= -STORED_SCALE && Abs(At(s, -STORED_SCALE)) < Pow10(TOTAL_DIGITS)
    ensures DigitsOf(s) <= TOTAL_DIGITS
  {
    hide Pow10, At;
    AtMagnitude(s, -STORED_SCALE);
    ScaleMonotone(1, Pow10(s.exp + STORED_SCALE), s.coef);
    DigitCountAtMost(s.coef, TOTAL_DIGITS);
  }

  lemma FineParts(s: Decimal) returns (k: nat, u: nat)
    requires s.exp < -STORED_SCALE && Divides(s, STORED_SCALE) && 0 < Abs(Units(s)) < Pow10(TOTAL_DIGITS)
    ensures s.exp == -STORED_SCALE - k && s.coef == u * Pow10(k) && 0 < u < Pow10(TOTAL_DIGITS)
  {
    hide Pow10;
    k := -STORED_SCALE - s.exp;
    u := Quotient(s.coef, Pow10(k));
    DivisionBack(s.coef, Pow10(k));
  }

  lemma StepExponent(acc: Decimal, x: Decimal)
    requires Divides(acc, STORED_SCALE) && Divides(x, STORED_SCALE)
    requires Abs(Units(acc) + Units(x)) < Pow10(TOTAL_DIGITS)
    ensures Rounded(Sum(acc, x), TOTAL_DIGITS).exp == NextExponent(acc.exp, x.exp, Units(acc) + Units(x))
  {
    hide Units, Divides, Rounded, Sum, Pow10, Place;
    SignedSum(acc, x);
    UnitsAdd(acc, x);
    var s := Sum(acc, x);
    if Units(s) == 0 {
      ZeroUnits(s);
      KeptWhenShort(s);
    } else {
      RoundedPlace(s);
    }
  }

  lemma SumOfPlainZeros(a: Decimal, b: Decimal)
    requires (a.coef == 0 ==> !a.neg) && (b.coef == 0 ==> !b.neg)
    ensures Sum(a, b).coef == 0 ==> !Sum(a, b).neg
  {
    var m := Min(a.exp, b.exp);
    AtMagnitude(a, m);
    AtMagnitude(b, m);
    ScaleMonotone(1, Pow10(a.exp - m), a.coef);
    ScaleMonotone(1, Pow10(b.exp - m), b.coef);
  }

  lemma FitsAreSigned(d: Decimal)
    requires Fits(d)
    ensures d.coef == 0 ==> !d.neg
  {
  }

  lemma RoundedZeros(s: Decimal)
    requires Divides(s, STORED_SCALE) && Abs(Units(s)) < Pow10(TOTAL_DIGITS) && (s.coef == 0 ==> !s.neg)
    ensures Rounded(s, TOTAL_DIGITS).coef == 0 ==> !Rounded(s, TOTAL_DIGITS).neg
  {
    hide Units, Divides, Rounded, Pow10;
    RoundingIsExact(s);
    ZeroUnits(s);
    ZeroUnits(Rounded(s, TOTAL_DIGITS));
    if s.coef == 0 {
      KeptWhenShort(s);
    }
  }

  /** A running sum is decided by its exact number and by its exponent. */
  lemma {:induction false} RunningSumDecided(values: seq<Decimal>)
    requires Summable(values)
    ensures var r := RunningSum(values);
            && Divides(r, STORED_SCALE) && Units(r) == SumUnits(values)
            && r.exp == Exponent(values) && (r.coef == 0 ==> !r.neg)
  {
    hide Fits, Units, Divides, Rounded, Sum, Pow10, NextExponent;
    RunningSumIsExact(values);
    if values != [] {
      var n := |values| - 1;
      RunningSumDecided(values[..n]);
      FitsUnits(values[n]);
      FitsAreSigned(values[n]);
      var acc := RunningSum(values[..n]);
      UnitsAdd(acc, values[n]);
      SumUnitsBound(values);
      BoundedTotal(|values|, SumUnits(values));
      StepExponent(acc, values[n]);
      SumOfPlainZeros(acc, values[n]);
      RoundedZeros(Sum(acc, values[n]));
    }
  }

  lemma ExponentAndUnitsFix(a: Decimal, b: Decimal)
    requires a.exp == b.exp && Divides(a, STORED_SCALE) && Divides(b, STORED_SCALE) && Units(a) == Units(b)
    requires (a.coef == 0 ==> !a.neg) && (b.coef == 0 ==> !b.neg)
    ensures a == b
  {
    hide Pow10, Units, Divides;
    var m := Min(a.exp, -STORED_SCALE);
    UnitsAt(a, m);
    UnitsAt(b, m);
    ScaleMonotone(Signed(a), Signed(b), Pow10(a.exp - m));
    ScaleMonotone(Signed(b), Signed(a), Pow10(a.exp - m));
  }

  /** Two orders give one decimal exactly when they end with one exponent. */
  lemma SameExponentSameTotal(xs: seq<Decimal>, ys: seq<Decimal>)
    requires Summable(xs) && multiset(xs) == multiset(ys)
    ensures Summable(ys)
    ensures RunningSum(xs) == RunningSum(ys) <==> Exponent(xs) == Exponent(ys)
  {
    hide Fits, Units, Divides, RunningSum, SumUnits, Pow10, Exponent;
    assert |xs| == |multiset(xs)| == |multiset(ys)| == |ys|;
    forall i | 0 <= i < |ys| ensures Fits(ys[i]) {
      assert ys[i] in multiset(xs);
    }
    RunningSumDecided(xs);
    RunningSumDecided(ys);
    SumUnitsPermuted(xs, ys);
    if Exponent(xs) == Exponent(ys) {
      ExponentAndUnitsFix(RunningSum(xs), RunningSum(ys));
    }
  }

  // ---- The members around the shown exponent ----

  /** The finest exponent among the members, at most 0. */
  function FinestExponent(values: seq<Decimal>): int {
    if values == [] then 0 else Min(FinestExponent(values[..|values| - 1]), values[|values| - 1].exp)
  }

  /** The finest exponent a total of these members can show: the finest member's, as far as a hundred digits reach. */
  function ShownExponent(values: seq<Decimal>): int {
    NextExponent(FinestExponent(values), 0, SumUnits(values))
  }

  function Filter<T>(p: T -> bool, s: seq<T>): seq<T> {
    if s == [] then []
    else Filter(p, s[..|s| - 1]) + if p(s[|s| - 1]) then [s[|s| - 1]] else []
  }

  predicate IsFine(d: Decimal, c: int) {
    d.exp <= c
  }

  predicate IsGain(d: Decimal, c: int) {
    d.exp > c && Units(d) > 0
  }

  predicate IsLoss(d: Decimal, c: int) {
    d.exp > c && Units(d) <= 0
  }

  /** The members as fine as the shown exponent, and the coarser ones by sign. */
  function FineMembers(values: seq<Decimal>, c: int): seq<Decimal> {
    Filter(d => IsFine(d, c), values)
  }

  function Gains(values: seq<Decimal>, c: int): seq<Decimal> {
    Filter(d => IsGain(d, c), values)
  }

  function Losses(values: seq<Decimal>, c: int): seq<Decimal> {
    Filter(d => IsLoss(d, c), values)
  }

  /** `u` units of 10^-18 are less than 10^e in magnitude. */
  predicate UnitsUnder(u: int, e: int) {
    Below(Decimal(u < 0, Abs(u), -STORED_SCALE), e)
  }

  /** Neither the fine members with all coarse gains, nor with all coarse losses, reach a hundred digits above `c`. */
  predicate FitsAt(values: seq<Decimal>, c: int) {
    var fine := SumUnits(FineMembers(values, c));
    && UnitsUnder(fine + SumUnits(Gains(values, c)), TOTAL_DIGITS + c)
    && UnitsUnder(fine + SumUnits(Losses(values, c)), TOTAL_DIGITS + c)
  }

  predicate FitsInAnyOrder(values: seq<Decimal>) {
    FitsAt(values, ShownExponent(values))
  }

  /** Every order of the members gives the same decimal. */
  ghost predicate OrderNeverShows(values: seq<Decimal>) {
    forall ys :: multiset(ys) == multiset(values) ==> RunningSum(ys) == RunningSum(values)
  }

  lemma UnderMeansPlace(u: int, c: int)
    ensures UnitsUnder(u, TOTAL_DIGITS + c) <==> u == 0 || Place(u) - (TOTAL_DIGITS - 1) <= c
  {
    hide Below;
    BelowMeansDigits(Decimal(u < 0, Abs(u), -STORED_SCALE), TOTAL_DIGITS + c);
  }

  lemma UnderBetween(low: int, u: int, high: int, e: int)
    requires low <= u <= high && UnitsUnder(low, e) && UnitsUnder(high, e)
    ensures UnitsUnder(u, e)
  {
    var m := Min(-STORED_SCALE, e);
    var p, q := Pow10(-STORED_SCALE - m), Pow10(e - m);
    ScaleMonotone(Abs(u), Max(Abs(low), Abs(high)), p);
  }

  lemma {:induction false} FinestExponentMeans(values: seq<Decimal>)
    ensures FinestExponent(values) <= 0 && forall d :: d in values ==> FinestExponent(values) <= d.exp
    ensures FinestExponent(values) == 0 || exists i :: 0 <= i < |values| && values[i].exp == FinestExponent(values)
  {
    if values != [] {
      var n := |values| - 1;
      FinestExponentMeans(values[..n]);
      assert values == values[..n] + [values[n]];
      if FinestExponent(values) != 0 && values[n].exp != FinestExponent(values) {
        var i :| 0 <= i < n && values[..n][i].exp == FinestExponent(values[..n]);
        assert values[i].exp == FinestExponent(values);
      }
    }
  }

  lemma FinestExponentPermuted(xs: seq<Decimal>, ys: seq<Decimal>)
    requires multiset(xs) == multiset(ys)
    ensures FinestExponent(xs) == FinestExponent(ys)
  {
    hide FinestExponent;
    FinestExponentMeans(xs);
    FinestExponentMeans(ys);
    forall d ensures d in xs <==> d in ys {
      assert d in multiset(xs) <==> d in multiset(ys);
    }
  }

  lemma {:induction false} FilterMeaning<T>(p: T -> bool, s: seq<T>, x: T)
    ensures multiset(Filter(p, s))[x] == if p(x) then multiset(s)[x] else 0
  {
    if s != [] {
      FilterMeaning(p, s[..|s| - 1], x);
      assert s == s[..|s| - 1] + [s[|s| - 1]];
    }
  }

  lemma FilterPermuted(p: Decimal -> bool, xs: seq<Decimal>, ys: seq<Decimal>)
    requires multiset(xs) == multiset(ys)
    ensures multiset(Filter(p, xs)) == multiset(Filter(p, ys))
  {
    hide Filter;
    var a, b := multiset(Filter(p, xs)), multiset(Filter(p, ys));
    forall x ensures a[x] == b[x] {
      FilterMeaning(p, xs, x);
      FilterMeaning(p, ys, x);
    }
    assert a == b;
  }

  lemma Filtered<T>(p: T -> bool, s: seq<T>)
    ensures forall x :: x in Filter(p, s) <==> x in s && p(x)
  {
    hide Filter;
    forall x ensures x in Filter(p, s) <==> x in s && p(x) {
      FilterMeaning(p, s, x);
      assert x in Filter(p, s) <==> x in multiset(Filter(p, s));
      assert x in s <==> x in multiset(s);
    }
  }

  /** Every member is fine, a gain or a loss. */
  lemma ThreeParts(values: seq<Decimal>, c: int)
    ensures multiset(Gains(values, c) + FineMembers(values, c) + Losses(values, c)) == multiset(values)
    ensures multiset(Losses(values, c) + FineMembers(values, c) + Gains(values, c)) == multiset(values)
  {
    hide Filter, Units;
    forall x
      ensures multiset(Gains(values, c))[x] + multiset(FineMembers(values, c))[x] + multiset(Losses(values, c))[x]
              == multiset(values)[x]
    {
      FilterMeaning((d: Decimal) => IsFine(d, c), values, x);
      FilterMeaning((d: Decimal) => IsGain(d, c), values, x);
      FilterMeaning((d: Decimal) => IsLoss(d, c), values, x);
    }
  }

  lemma PartSums(values: seq<Decimal>, c: int)
    ensures SumUnits(values)
            == SumUnits(FineMembers(values, c)) + SumUnits(Gains(values, c)) + SumUnits(Losses(values, c))
  {
    hide Filter, SumUnits, Gains, Losses, FineMembers;
    var g, f, l := Gains(values, c), FineMembers(values, c), Losses(values, c);
    ThreeParts(values, c);
    SumUnitsPermuted(g + f + l, values);
    SumUnitsConcat(g + f, l);
    SumUnitsConcat(g, f);
  }

  lemma PartsPermuted(xs: seq<Decimal>, ys: seq<Decimal>, c: int)
    requires multiset(xs) == multiset(ys)
    ensures SumUnits(FineMembers(xs, c)) == SumUnits(FineMembers(ys, c))
    ensures SumUnits(Gains(xs, c)) == SumUnits(Gains(ys, c)) && SumUnits(Losses(xs, c)) == SumUnits(Losses(ys, c))
  {
    hide Filter, SumUnits;
    FilterPermuted((d: Decimal) => IsFine(d, c), xs, ys);
    FilterPermuted((d: Decimal) => IsGain(d, c), xs, ys);
    FilterPermuted((d: Decimal) => IsLoss(d, c), xs, ys);
    SumUnitsPermuted(FineMembers(xs, c), FineMembers(ys, c));
    SumUnitsPermuted(Gains(xs, c), Gains(ys, c));
    SumUnitsPermuted(Losses(xs, c), Losses(ys, c));
  }

  lemma FitsAtPermuted(xs: seq<Decimal>, ys: seq<Decimal>, c: int)
    requires multiset(xs) == multiset(ys)
    ensures FitsAt(xs, c) <==> FitsAt(ys, c)
  {
    hide SumUnits, FineMembers, Gains, Losses, UnitsUnder;
    PartsPermuted(xs, ys, c);
  }

  /** The condition is about the members, not about their order. */
  lemma ConditionPermuted(xs: seq<Decimal>, ys: seq<Decimal>)
    requires multiset(xs) == multiset(ys)
    ensures ShownExponent(xs) == ShownExponent(ys) && (FitsInAnyOrder(xs) <==> FitsInAnyOrder(ys))
  {
    hide SumUnits, FinestExponent, FitsAt, NextExponent;
    SumUnitsPermuted(xs, ys);
    FinestExponentPermuted(xs, ys);
    FitsAtPermuted(xs, ys, ShownExponent(xs));
  }

  // ---- Every order ends at the shown exponent or above it ----

  lemma {:induction false} ExponentAboveFinest(values: seq<Decimal>)
    ensures Exponent(values) >= FinestExponent(values)
  {
    if values != [] {
      ExponentAboveFinest(values[..|values| - 1]);
    }
  }

  lemma NeverFinerThanShown(values: seq<Decimal>)
    ensures Exponent(values) >= ShownExponent(values)
  {
    hide Place, DigitCount;
    ExponentAboveFinest(values);
    NoMembersNoUnits();
    FinestExponentMeans(values);
  }

  lemma NoMembersNoUnits()
    ensures SumUnits([]) == 0
  {
  }

  lemma SmallPlace(u: int)
    requires Abs(u) < Pow10(TOTAL_DIGITS)
    ensures Place(u) - (TOTAL_DIGITS - 1) <= -STORED_SCALE
  {
    hide Pow10, DigitCount;
    DigitCountAtMost(Abs(u), TOTAL_DIGITS);
  }

  lemma SummableBound(values: seq<Decimal>)
    requires Summable(values)
    ensures Abs(SumUnits(values)) < Pow10(TOTAL_DIGITS)
  {
    hide Pow10, SumUnits, Fits;
    SumUnitsBound(values);
    BoundedTotal(|values|, SumUnits(values));
  }

  lemma SummablePrefix(values: seq<Decimal>, k: nat)
    requires Summable(values) && k <= |values|
    ensures Summable(values[..k])
  {
    hide Fits;
  }

  lemma {:induction false} ExponentAtMostZero(values: seq<Decimal>)
    requires Summable(values)
    ensures Exponent(values) <= 0
  {
    hide Place, SumUnits, Fits, Pow10;
    if values != [] {
      SummablePrefix(values, |values| - 1);
      ExponentAtMostZero(values[..|values| - 1]);
      SummableBound(values);
      SmallPlace(SumUnits(values));
    }
  }

  lemma ShownAtMostZero(values: seq<Decimal>)
    requires Summable(values)
    ensures ShownExponent(values) <= 0
    ensures ShownExponent(values) == 0 ==> FinestExponent(values) == 0
  {
    hide Place, SumUnits, Fits, Pow10;
    SummableBound(values);
    SmallPlace(SumUnits(values));
    FinestExponentMeans(values);
  }

  // ---- If the condition holds, no order ends above it ----

  lemma {:induction false} FilterConcat<T>(p: T -> bool, xs: seq<T>, ys: seq<T>)
    ensures Filter(p, xs + ys) == Filter(p, xs) + Filter(p, ys)
  {
    if ys == [] {
      assert xs + ys == xs;
    } else {
      var n := |ys| - 1;
      assert (xs + ys)[..|xs| + n] == xs + ys[..n];
      FilterConcat(p, xs, ys[..n]);
    }
  }

  lemma {:induction false} FilterNothing<T>(p: T -> bool, s: seq<T>)
    requires forall x :: x in s ==> !p(x)
    ensures Filter(p, s) == []
  {
    if s != [] {
      assert s[|s| - 1] in s;
      FilterNothing(p, s[..|s| - 1]);
    }
  }

  lemma {:induction false} SumKeepsSign(values: seq<Decimal>)
    ensures (forall d :: d in values ==> Units(d) > 0) ==> SumUnits(values) >= 0
    ensures (forall d :: d in values ==> Units(d) <= 0) ==> SumUnits(values) <= 0
  {
    hide Units;
    if values != [] {
      var n := |values| - 1;
      assert values[n] in values;
      SumKeepsSign(values[..n]);
      assert forall d :: d in values[..n] ==> d in values;
    }
  }

  lemma PartsAreSigned(values: seq<Decimal>, c: int)
    ensures SumUnits(Gains(values, c)) >= 0 && SumUnits(Losses(values, c)) <= 0
  {
    hide Units, Filter, SumUnits;
    Filtered((d: Decimal) => IsGain(d, c), values);
    Filtered((d: Decimal) => IsLoss(d, c), values);
    SumKeepsSign(Gains(values, c));
    SumKeepsSign(Losses(values, c));
  }

  /** Once all fine members are in, a partial sum lies between the fine ones with all losses and with all gains. */
  lemma PartialSumBetween(values: seq<Decimal>, c: int, k: nat)
    requires k <= |values| && forall i :: k <= i < |values| ==> values[i].exp > c
    ensures var fine := SumUnits(FineMembers(values, c));
            fine + SumUnits(Losses(values, c)) <= SumUnits(values[..k]) <= fine + SumUnits(Gains(values, c))
  {
    hide Units, Filter, SumUnits, Gains, Losses, FineMembers;
    var head, rest := values[..k], values[k..];
    assert values == head + rest;
    PartSums(head, c);
    PartsAreSigned(head, c);
    PartsAreSigned(rest, c);
    SplitParts(head, rest, c);
    NoFineRest(rest, c);
  }

  lemma NoFineRest(rest: seq<Decimal>, c: int)
    requires forall i :: 0 <= i < |rest| ==> rest[i].exp > c
    ensures SumUnits(FineMembers(rest, c)) == 0
  {
    hide Units, Filter, SumUnits;
    FilterNothing((d: Decimal) => IsFine(d, c), rest);
    NoMembersNoUnits();
  }

  lemma SplitParts(head: seq<Decimal>, rest: seq<Decimal>, c: int)
    ensures SumUnits(FineMembers(head + rest, c)) == SumUnits(FineMembers(head, c)) + SumUnits(FineMembers(rest, c))
    ensures SumUnits(Gains(head + rest, c)) == SumUnits(Gains(head, c)) + SumUnits(Gains(rest, c))
    ensures SumUnits(Losses(head + rest, c)) == SumUnits(Losses(head, c)) + SumUnits(Losses(rest, c))
  {
    hide Units, Filter, SumUnits;
    FilterConcat((d: Decimal) => IsFine(d, c), head, rest);
    FilterConcat((d: Decimal) => IsGain(d, c), head, rest);
    FilterConcat((d: Decimal) => IsLoss(d, c), head, rest);
    SumUnitsConcat(FineMembers(head, c), FineMembers(rest, c));
    SumUnitsConcat(Gains(head, c), Gains(rest, c));
    SumUnitsConcat(Losses(head, c), Losses(rest, c));
  }

  lemma {:induction false} StaysAtMost(values: seq<Decimal>, c: int, k: nat, j: nat)
    requires FitsAt(values, c) && j < k <= |values| && values[j].exp <= c
    requires forall i :: k <= i < |values| ==> values[i].exp > c
    ensures Exponent(values[..k]) <= c
    decreases k
  {
    hide SumUnits, FineMembers, Gains, Losses, UnitsUnder, Place;
    var fine := SumUnits(FineMembers(values, c));
    PartialSumBetween(values, c, k);
    var u := SumUnits(values[..k]);
    UnderBetween(fine + SumUnits(Losses(values, c)), u, fine + SumUnits(Gains(values, c)), TOTAL_DIGITS + c);
    UnderMeansPlace(u, c);
    assert values[..k][..k - 1] == values[..k - 1];
    if values[k - 1].exp > c {
      StaysAtMost(values, c, k - 1, j);
    }
  }

  /** Every order with a member as fine as `c` ends at `c` or below. */
  lemma EndsAtMost(values: seq<Decimal>, c: int)
    requires FitsAt(values, c) && FinestExponent(values) <= c < 0
    ensures Exponent(values) <= c
  {
    hide FitsAt, Exponent, FinestExponent;
    FinestExponentMeans(values);
    var j :| 0 <= j < |values| && values[j].exp == FinestExponent(values);
    StaysAtMost(values, c, |values|, j);
    assert values[..|values|] == values;
  }

  lemma EndsShown(values: seq<Decimal>)
    requires Summable(values) && FitsInAnyOrder(values)
    ensures Exponent(values) == ShownExponent(values)
  {
    hide SumUnits, FitsAt, NextExponent, Exponent, FinestExponent, Fits, Pow10;
    NeverFinerThanShown(values);
    ShownAtMostZero(values);
    ExponentAtMostZero(values);
    if ShownExponent(values) < 0 {
      FinestIsShown(values);
      EndsAtMost(values, ShownExponent(values));
    }
  }

  lemma FinestIsShown(values: seq<Decimal>)
    requires Summable(values) && ShownExponent(values) < 0
    ensures FinestExponent(values) <= ShownExponent(values) && FinestExponent(values) < 0
  {
    hide SumUnits, Fits, Pow10, Place;
    SummableBound(values);
    SmallPlace(SumUnits(values));
    FinestExponentMeans(values);
  }

  // ---- If the condition fails, some order ends above it ----

  lemma {:induction false} StaysAbove(head: seq<Decimal>, rest: seq<Decimal>, c: int)
    requires Exponent(head) > c && forall i :: 0 <= i < |rest| ==> rest[i].exp > c
    ensures Exponent(head + rest) > c
  {
    hide SumUnits, Place;
    if rest == [] {
      assert head + rest == head;
    } else {
      var n := |rest| - 1;
      assert (head + rest)[..|head| + n] == head + rest[..n];
      StaysAbove(head, rest[..n], c);
    }
  }

  /** An order that needs more than a hundred digits after its fine members ends above the shown exponent. */
  lemma EndsAbove(head: seq<Decimal>, rest: seq<Decimal>, c: int)
    requires head != [] && !UnitsUnder(SumUnits(head), TOTAL_DIGITS + c)
    requires forall i :: 0 <= i < |rest| ==> rest[i].exp > c
    ensures Exponent(head + rest) > c
  {
    hide SumUnits, Place, UnitsUnder;
    UnderMeansPlace(SumUnits(head), c);
    StaysAbove(head, rest, c);
  }

  lemma FilteredExponents(values: seq<Decimal>, c: int)
    ensures forall i :: 0 <= i < |Losses(values, c)| ==> Losses(values, c)[i].exp > c
    ensures forall i :: 0 <= i < |Gains(values, c)| ==> Gains(values, c)[i].exp > c
  {
    hide Filter, Units;
    Filtered((d: Decimal) => IsGain(d, c), values);
    Filtered((d: Decimal) => IsLoss(d, c), values);
    var g, l := Gains(values, c), Losses(values, c);
    forall i | 0 <= i < |g| ensures g[i].exp > c { assert g[i] in g; }
    forall i | 0 <= i < |l| ensures l[i].exp > c { assert l[i] in l; }
  }

  /** An order whose total is coarser than `c`. */
  lemma CoarserOrder(values: seq<Decimal>, c: int) returns (ys: seq<Decimal>)
    requires !FitsAt(values, c)
    ensures multiset(ys) == multiset(values) && Exponent(ys) > c
  {
    hide Filter, SumUnits, Exponent, UnitsUnder, FineMembers, Gains, Losses;
    var g, f, l := Gains(values, c), FineMembers(values, c), Losses(values, c);
    ThreeParts(values, c);
    FilteredExponents(values, c);
    SumUnitsConcat(g, f);
    SumUnitsConcat(l, f);
    if !UnitsUnder(SumUnits(g + f), TOTAL_DIGITS + c) {
      NothingIsBelow(g + f, c);
      EndsAbove(g + f, l, c);
      ys := g + f + l;
    } else {
      NothingIsBelow(l + f, c);
      EndsAbove(l + f, g, c);
      ys := l + f + g;
    }
  }

  lemma NothingIsBelow(values: seq<Decimal>, c: int)
    requires !UnitsUnder(SumUnits(values), TOTAL_DIGITS + c)
    ensures values != []
  {
    hide Place, UnitsUnder;
    UnderMeansPlace(SumUnits(values), c);
    NoMembersNoUnits();
  }

  /** An order that ends with the finest member shows as much as any can. */
  lemma FinestOrder(values: seq<Decimal>) returns (ys: seq<Decimal>)
    requires Summable(values)
    ensures multiset(ys) == multiset(values) && Exponent(ys) == ShownExponent(values)
  {
    hide SumUnits, FinestExponent, Fits, Place, Pow10, Exponent, ShownExponent;
    FinestExponentMeans(values);
    NeverFinerThanShown(values);
    if FinestExponent(values) == 0 {
      ys := values;
      ExponentAtMostZero(values);
      NothingFiner(values);
    } else {
      var i :| 0 <= i < |values| && values[i].exp == FinestExponent(values);
      ys := values[..i] + values[i + 1..] + [values[i]];
      assert values == values[..i] + [values[i]] + values[i + 1..];
      EndsWithFinest(values, values[..i] + values[i + 1..], values[i]);
    }
  }

  lemma NothingFiner(values: seq<Decimal>)
    requires Summable(values) && FinestExponent(values) == 0
    ensures ShownExponent(values) == 0
  {
    hide SumUnits, FinestExponent, Fits, Place, Pow10;
    SummableBound(values);
    SmallPlace(SumUnits(values));
  }

  lemma EndsWithFinest(values: seq<Decimal>, rest: seq<Decimal>, x: Decimal)
    requires multiset(rest + [x]) == multiset(values) && x.exp == FinestExponent(values)
    ensures Exponent(rest + [x]) == ShownExponent(values)
  {
    hide SumUnits, FinestExponent, Place;
    assert (rest + [x])[..|rest|] == rest;
    ExponentAboveFinest(rest);
    FinestExponentMeans(rest);
    FinestExponentMeans(values);
    SumUnitsPermuted(rest + [x], values);
    forall d | d in rest ensures d in values {
      assert d in multiset(rest + [x]);
    }
    FinestOfSome(rest, values);
  }

  lemma FinestOfSome(some: seq<Decimal>, all: seq<Decimal>)
    requires forall d :: d in some ==> d in all
    ensures FinestExponent(some) >= FinestExponent(all)
  {
    hide FinestExponent;
    FinestExponentMeans(some);
    FinestExponentMeans(all);
    if FinestExponent(some) != 0 {
      var i :| 0 <= i < |some| && some[i].exp == FinestExponent(some);
      assert some[i] in some;
    }
  }

  // ---- The exact condition ----

  /**
    Whatever scales the members have, all orders give one decimal exactly when neither the fine members with all
    coarse gains nor with all coarse losses reach 10^100 above the exponent that the total can show.
   */
  lemma OrderNeverShowsExactly(values: seq<Decimal>)
    requires Summable(values)
    ensures OrderNeverShows(values) <==> FitsInAnyOrder(values)
  {
    hide Summable, FitsAt, ShownExponent, Exponent, RunningSum;
    if FitsInAnyOrder(values) {
      forall ys | multiset(ys) == multiset(values) ensures RunningSum(ys) == RunningSum(values) {
        SameExponentSameTotal(values, ys);
        ConditionPermuted(values, ys);
        EndsShown(values);
        EndsShown(ys);
      }
    } else {
      var fine := FinestOrder(values);
      var coarse := CoarserOrder(values, ShownExponent(values));
      SameExponentSameTotal(values, fine);
      SameExponentSameTotal(values, coarse);
    }
  }

  lemma NothingGained(some: seq<Decimal>, all: seq<Decimal>)
    requires Summable(all) && multiset(some) <= multiset(all)
    ensures Summable(some)
  {
    hide Fits, Pow10;
    assert |some| == |multiset(some)| <= |multiset(all)| == |all| by { SmallerMultiset(multiset(some), multiset(all)); }
    forall i | 0 <= i < |some| ensures Fits(some[i]) {
      assert some[i] in multiset(all);
    }
  }

  lemma SmallerMultiset<T>(a: multiset<T>, b: multiset<T>)
    requires a <= b
    ensures |a| <= |b|
  {
    assert b == a + (b - a);
  }

  /** With at most 18 decimals per member a hundred digits always reach. */
  lemma EighteenDecimalsFit(values: seq<Decimal>)
    requires Summable(values) && forall i :: 0 <= i < |values| ==> values[i].exp >= -STORED_SCALE
    ensures FitsInAnyOrder(values)
  {
    hide Fits, SumUnits, Filter, UnitsUnder, Place, FineMembers, Gains, Losses, Summable;
    var c := ShownExponent(values);
    FinestExponentMeans(values);
    var g, f, l := Gains(values, c), FineMembers(values, c), Losses(values, c);
    ThreeParts(values, c);
    NothingGained(g + f, values);
    NothingGained(l + f, values);
    SumUnitsConcat(g, f);
    SumUnitsConcat(l, f);
    ReachesThere(g + f, c);
    ReachesThere(l + f, c);
  }

  lemma ReachesThere(values: seq<Decimal>, c: int)
    requires Summable(values) && c >= -STORED_SCALE
    ensures UnitsUnder(SumUnits(values), TOTAL_DIGITS + c)
  {
    hide Fits, SumUnits, UnitsUnder, Place;
    SummableBound(values);
    SmallPlace(SumUnits(values));
    UnderMeansPlace(SumUnits(values), c);
  }

  /** The total is the same decimal, hence the same text, whatever order normalized members arrive in. */
  lemma RunningSumPermuted(xs: seq<Decimal>, ys: seq<Decimal>)
    requires multiset(xs) == multiset(ys) && |xs| <= Pow10(MEMBERS_DIGITS)
    requires forall i :: 0 <= i < |xs| ==> Fits(xs[i]) && xs[i].exp >= -STORED_SCALE
    ensures RunningSum(xs) == RunningSum(ys)
  {
    hide Fits, RunningSum, FitsInAnyOrder, Pow10;
    EighteenDecimalsFit(xs);
    OrderNeverShowsExactly(xs);
  }

  // ---- When a total can be stored ----

  lemma TotalInDomain(values: seq<Decimal>)
    requires Summable(values)
    ensures InDomain(RunningSum(values)) <==> (SumUnits(values) != 0 || Exponent(values) >= -MAX_DIGITS)
    ensures SumUnits(values) != 0 ==> Adjusted(RunningSum(values)) == Place(SumUnits(values))
    ensures SumUnits(values) == 0 <==> RunningSum(values).coef == 0
  {
    hide Pow10, RunningSum, Exponent, SumUnits, Units, Divides, Fits, DigitCount, Place;
    RunningSumDecided(values);
    var r := RunningSum(values);
    ZeroUnits(r);
    SummableBound(values);
    ExponentAtMostZero(values);
    if SumUnits(values) != 0 {
      UnitsPlace(r);
      PlaceBounds(SumUnits(values));
      ReachesHundredDigits(values);
    } else {
      OneDigitZero();
    }
  }

  lemma OneDigitZero()
    ensures DigitCount(0) == 1
  {
  }

  lemma ReachesHundredDigits(values: seq<Decimal>)
    requires SumUnits(values) != 0
    ensures Exponent(values) >= Place(SumUnits(values)) - (TOTAL_DIGITS - 1)
  {
    hide Place, Units;
  }

  lemma PlaceBounds(u: int)
    requires u != 0 && Abs(u) < Pow10(TOTAL_DIGITS)
    ensures -STORED_SCALE <= Place(u) <= TOTAL_DIGITS - 1 - STORED_SCALE
  {
    hide Pow10, DigitCount;
    DigitCountAtMost(Abs(u), TOTAL_DIGITS);
  }

  /**
    A total is storable exactly below 10^58, except that a zero of more than a thousand decimals is refused as an input.
   */
  lemma TotalStorableExactly(values: seq<Decimal>)
    requires Summable(values)
    ensures StorageResult(RunningSum(values)).Ok?
            <==> && Abs(SumUnits(values)) < Pow10(STORED_INTEGER_DIGITS + STORED_SCALE)
                 && (SumUnits(values) == 0 ==> Exponent(values) >= -MAX_DIGITS)
  {
    hide Pow10, RunningSum, Exponent, SumUnits, Units, Divides, Fits, DigitCount, Place, InDomain;
    TotalInDomain(values);
    RunningSumDecided(values);
    if SumUnits(values) != 0 {
      PlaceBelow(SumUnits(values));
    } else {
      Pow10Monotone(0, STORED_INTEGER_DIGITS + STORED_SCALE);
      ZeroIsStorable();
    }
  }

  lemma ZeroIsStorable()
    ensures Storable(ZERO)
  {
  }

  lemma PlaceBelow(u: int)
    requires u != 0
    ensures Place(u) < STORED_INTEGER_DIGITS <==> Abs(u) < Pow10(STORED_INTEGER_DIGITS + STORED_SCALE)
  {
    hide Pow10;
    DigitCountBounds(Abs(u));
    if Abs(u) < Pow10(STORED_INTEGER_DIGITS + STORED_SCALE) {
      DigitCountAtMost(Abs(u), STORED_INTEGER_DIGITS + STORED_SCALE);
    } else if DigitCount(Abs(u)) <= STORED_INTEGER_DIGITS + STORED_SCALE {
      Pow10Monotone(DigitCount(Abs(u)), STORED_INTEGER_DIGITS + STORED_SCALE);
    }
  }

  // ---- The text of a total, and the total that is stored ----

  /** Every order of the members gives one text. */
  ghost predicate TextNeverShows(values: seq<Decimal>) {
    forall ys :: multiset(ys) == multiset(values) ==> DecimalText(RunningSum(ys)) == DecimalText(RunningSum(values))
  }

  /** In every order the same total is stored, or the same error raised. */
  ghost predicate StoredNeverShows(values: seq<Decimal>) {
    forall ys :: multiset(ys) == multiset(values) ==> StorageResult(RunningSum(ys)) == StorageResult(RunningSum(values))
  }

  lemma PermutedSummable(xs: seq<Decimal>, ys: seq<Decimal>)
    requires Summable(xs) && multiset(xs) == multiset(ys)
    ensures Summable(ys) && SumUnits(ys) == SumUnits(xs)
  {
    hide Fits, Pow10, SumUnits;
    NothingGained(ys, xs);
    SumUnitsPermuted(xs, ys);
  }

  /** A nonzero total's text tells its exponent. */
  lemma TextTellsExponent(a: Decimal, b: Decimal)
    requires a.coef != 0 && b.coef != 0 && a.exp <= 0 && b.exp <= 0 && DecimalText(a) == DecimalText(b)
    ensures a.exp == b.exp
  {
    hide DecimalText, ParseDecimal;
    StoredRecords.ParsePrinted(a);
    StoredRecords.ParsePrinted(b);
  }

  lemma ZeroTotalText(values: seq<Decimal>)
    requires Summable(values) && SumUnits(values) == 0
    ensures DecimalText(RunningSum(values)) == "0"
  {
    hide Summable, SumUnits, RunningSum, DecimalText, ParseDecimal, Exponent;
    TotalInDomain(values);
    StoredRecords.ParsePrinted(RunningSum(values));
  }

  /** A nonzero total whose order can show at all has two orders of different exponents. */
  lemma TwoExponents(values: seq<Decimal>) returns (xs: seq<Decimal>, ys: seq<Decimal>)
    requires Summable(values) && !FitsInAnyOrder(values)
    ensures multiset(xs) == multiset(ys) == multiset(values) && Summable(xs) && Summable(ys)
    ensures RunningSum(xs).exp < RunningSum(ys).exp <= 0
    ensures SumUnits(xs) == SumUnits(ys) == SumUnits(values)
  {
    hide Summable, FitsAt, ShownExponent, Exponent, RunningSum, SumUnits;
    xs := FinestOrder(values);
    ys := CoarserOrder(values, ShownExponent(values));
    PermutedSummable(values, xs);
    PermutedSummable(values, ys);
    RunningSumDecided(xs);
    RunningSumDecided(ys);
    ExponentAtMostZero(ys);
  }

  /** The text of a total never depends on the order exactly if the total is zero or the decimal does not. */
  lemma TextNeverShowsExactly(values: seq<Decimal>)
    requires Summable(values)
    ensures TextNeverShows(values) <==> SumUnits(values) == 0 || FitsInAnyOrder(values)
  {
    hide Summable, FitsInAnyOrder, RunningSum, SumUnits, DecimalText, Exponent;
    if SumUnits(values) == 0 {
      ZeroTotalText(values);
      forall ys | multiset(ys) == multiset(values) ensures DecimalText(RunningSum(ys)) == "0" {
        PermutedSummable(values, ys);
        ZeroTotalText(ys);
      }
    } else if FitsInAnyOrder(values) {
      OrderNeverShowsExactly(values);
    } else {
      var xs, ys := TwoExponents(values);
      TotalInDomain(xs);
      TotalInDomain(ys);
      if DecimalText(RunningSum(xs)) == DecimalText(RunningSum(ys)) {
        TextTellsExponent(RunningSum(xs), RunningSum(ys));
      }
    }
  }

  /** What the aggregate stores of a total. */
  lemma StoredTotal(values: seq<Decimal>)
    requires Summable(values)
    ensures StorageResult(RunningSum(values))
            == if SumUnits(values) == 0 then
                 (if Exponent(values) < -MAX_DIGITS then Err(InvalidUsage) else Ok(ZERO))
               else if Abs(SumUnits(values)) < Pow10(STORED_INTEGER_DIGITS + STORED_SCALE) then Ok(RunningSum(values))
               else Err(DecimalOverflow)
  {
    hide Summable, RunningSum, SumUnits, Exponent, Storable, InDomain, Pow10;
    TotalInDomain(values);
    TotalStorableExactly(values);
    ZeroIsStorable();
  }

  /** No member has more than a thousand decimals, or every nonzero one has. */
  predicate ZeroStoredAlike(values: seq<Decimal>) {
    || (forall d :: d in values ==> d.exp >= -MAX_DIGITS)
    || (forall d :: d in values && d.coef != 0 ==> d.exp < -MAX_DIGITS)
  }

  lemma {:induction false} PositiveSum(values: seq<Decimal>)
    requires forall d :: d in values ==> Units(d) > 0
    ensures SumUnits(values) == 0 <==> values == []
  {
    hide Units;
    SumKeepsSign(values);
    if values != [] {
      var n := |values| - 1;
      assert forall d :: d in values[..n] ==> d in values;
      assert values[n] in values;
      SumKeepsSign(values[..n]);
    }
  }

  lemma {:induction false} NoPositiveSum(values: seq<Decimal>)
    requires forall d :: d in values ==> Units(d) <= 0
    ensures SumUnits(values) == 0 <==> forall d :: d in values ==> Units(d) == 0
  {
    hide Units;
    if values != [] {
      var n := |values| - 1;
      assert values == values[..n] + [values[n]];
      assert forall d :: d in values <==> d in values[..n] || d == values[n];
      NoPositiveSum(values[..n]);
      SumKeepsSign(values[..n]);
    }
  }

  lemma NothingCoarse(values: seq<Decimal>, c: int)
    ensures SumUnits(Gains(values, c)) == 0 && SumUnits(Losses(values, c)) == 0
            <==> forall d :: d in values && d.exp > c ==> Units(d) == 0
  {
    hide Units, Filter, SumUnits;
    Filtered((d: Decimal) => IsGain(d, c), values);
    Filtered((d: Decimal) => IsLoss(d, c), values);
    PositiveSum(Gains(values, c));
    NoPositiveSum(Losses(values, c));
    if SumUnits(Gains(values, c)) == 0 && SumUnits(Losses(values, c)) == 0 {
      forall d | d in values && d.exp > c ensures Units(d) == 0 {
        assert d !in Gains(values, c);
        assert d in Losses(values, c);
      }
    } else if SumUnits(Gains(values, c)) != 0 {
      var g := Gains(values, c);
      assert g[0] in g;
    }
  }

  lemma OnlyZeroIsUnder(u: int, c: int)
    requires c < -STORED_SCALE - TOTAL_DIGITS
    ensures UnitsUnder(u, TOTAL_DIGITS + c) <==> u == 0
  {
    hide UnitsUnder, DigitCount;
    UnderMeansPlace(u, c);
  }

  lemma FitsBeyond(values: seq<Decimal>)
    requires Summable(values) && SumUnits(values) == 0
    ensures FitsAt(values, -MAX_DIGITS - 1) <==> forall d :: d in values && d.coef != 0 ==> d.exp < -MAX_DIGITS
  {
    hide Units, SumUnits, UnitsUnder, FineMembers, Gains, Losses, Pow10, Divides, InDomain;
    var c := -MAX_DIGITS - 1;
    PartSums(values, c);
    NothingCoarse(values, c);
    OnlyZeroIsUnder(SumUnits(FineMembers(values, c)) + SumUnits(Gains(values, c)), c);
    OnlyZeroIsUnder(SumUnits(FineMembers(values, c)) + SumUnits(Losses(values, c)), c);
    forall d | d in values ensures Units(d) == 0 <==> d.coef == 0 {
      ZeroUnits(d);
    }
  }

  lemma ZeroStoredMeans(values: seq<Decimal>)
    requires Summable(values) && SumUnits(values) == 0
    ensures ZeroStoredAlike(values) <==> ShownExponent(values) >= -MAX_DIGITS || FitsAt(values, -MAX_DIGITS - 1)
  {
    hide Summable, SumUnits, FinestExponent, FitsAt;
    FitsBeyond(values);
    FinestExponentMeans(values);
    if ShownExponent(values) < -MAX_DIGITS {
      var i :| 0 <= i < |values| && values[i].exp == FinestExponent(values);
      assert values[i] in values;
    }
  }

  lemma ZeroTotalAlike(values: seq<Decimal>)
    requires Summable(values) && SumUnits(values) == 0
    ensures StoredNeverShows(values) <==> ZeroStoredAlike(values)
  {
    hide Summable, RunningSum, SumUnits, Exponent, FinestExponent, ShownExponent, FitsAt, Pow10, StorageResult,
        ZeroStoredAlike;
    var beyond := -MAX_DIGITS - 1;
    StoredTotal(values);
    ZeroStoredMeans(values);
    if ZeroStoredAlike(values) {
      forall ys | multiset(ys) == multiset(values)
        ensures StorageResult(RunningSum(ys)) == StorageResult(RunningSum(values))
      {
        PermutedSummable(values, ys);
        StoredTotal(ys);
        NeverFinerThanShown(values);
        NeverFinerThanShown(ys);
        ConditionPermuted(values, ys);
        if ShownExponent(values) <= beyond {
          FitsAtPermuted(values, ys, beyond);
          FinestWhenBeyond(values, beyond);
          FinestWhenBeyond(ys, beyond);
          EndsAtMost(values, beyond);
          EndsAtMost(ys, beyond);
        }
      }
    } else {
      var xs := FinestOrder(values);
      var ys := CoarserOrder(values, beyond);
      PermutedSummable(values, xs);
      PermutedSummable(values, ys);
      StoredTotal(xs);
      StoredTotal(ys);
    }
  }

  lemma FinestWhenBeyond(values: seq<Decimal>, c: int)
    requires SumUnits(values) == 0 && ShownExponent(values) <= c < 0
    ensures FinestExponent(values) <= c
  {
    hide SumUnits, FinestExponent;
  }

  /**
    The stored total, or the refusal to store one, never depends on the order exactly in these cases: it is too large,
    or nonzero and one decimal in every order, or zero while no member, or every nonzero one, has more than a thousand
    decimals.
   */
  lemma StoredNeverShowsExactly(values: seq<Decimal>)
    requires Summable(values)
    ensures StoredNeverShows(values)
            <==> if SumUnits(values) == 0 then ZeroStoredAlike(values)
                 else Abs(SumUnits(values)) >= Pow10(STORED_INTEGER_DIGITS + STORED_SCALE) || FitsInAnyOrder(values)
  {
    hide Summable, RunningSum, SumUnits, Exponent, FitsInAnyOrder, ZeroStoredAlike, Pow10, StorageResult;
    if SumUnits(values) == 0 {
      ZeroTotalAlike(values);
    } else if Abs(SumUnits(values)) >= Pow10(STORED_INTEGER_DIGITS + STORED_SCALE) {
      StoredTotal(values);
      forall ys | multiset(ys) == multiset(values)
        ensures StorageResult(RunningSum(ys)) == StorageResult(RunningSum(values))
      {
        PermutedSummable(values, ys);
        StoredTotal(ys);
      }
    } else if FitsInAnyOrder(values) {
      OrderNeverShowsExactly(values);
    } else {
      var xs, ys := TwoExponents(values);
      StoredTotal(xs);
      StoredTotal(ys);
    }
  }

  // ---- Members whose order shows ----

  /** One, written with a hundred decimals: storable, but not what a meter leaves. */
  const PADDED_ONE := Decimal(false, Pow10(100), -100)
  const MINUS_PADDED_ONE := Decimal(true, Pow10(100), -100)
  const LARGE := Decimal(false, 1, 57)
  const MINUS_LARGE := Decimal(true, 1, 57)

  lemma PowerDigits(n: nat)
    ensures DigitCount(Pow10(n)) == n + 1
  {
    hide Pow10;
    Pow10Monotone(n, n + 1);
    DigitCountExact(Pow10(n), n + 1);
  }

  lemma PaddedOneIsOne()
    ensures Fits(PADDED_ONE) && Units(PADDED_ONE) == Pow10(18)
  {
    hide Pow10;
    PowerDigits(100);
    Pow10Add(18, 82);
    MultipleRemainder(Pow10(18), Pow10(82));
    DivisionBack(Pow10(100), Pow10(82));
    Cancel(Quotient(Pow10(100), Pow10(82)), Pow10(18), Pow10(82));
  }

  lemma LargeUnits()
    ensures Fits(LARGE) && Fits(MINUS_LARGE) && Units(LARGE) == Pow10(75) && Units(MINUS_LARGE) == -(Pow10(75) as int)
  {
    hide Pow10;
  }

  lemma Places()
    ensures Place(Pow10(18)) == 0 && Place(Pow10(75)) == 57 && Place(Pow10(75) + Pow10(18)) == 57
  {
    hide Pow10, DigitCount;
    PowerDigits(18);
    PowerDigits(75);
    Pow10Monotone(18, 75);
    TwoPowers(Pow10(75), Pow10(18), Pow10(76));
    DigitCountExact(Pow10(75) + Pow10(18), 76);
  }

  lemma TwoPowers(a: nat, b: nat, c: nat)
    requires b < a && c == Pow10(76) && a == Pow10(75)
    ensures a <= a + b < c
  {
  }

  lemma OneMore(values: seq<Decimal>, d: Decimal)
    ensures SumUnits(values + [d]) == SumUnits(values) + Units(d)
    ensures Exponent(values + [d]) == NextExponent(Exponent(values), d.exp, SumUnits(values) + Units(d))
  {
    hide Units, Place;
    assert (values + [d])[..|values|] == values;
  }

  lemma ThreeExponents(a: Decimal, b: Decimal, c: Decimal)
    ensures Exponent([a, b, c])
            == NextExponent(NextExponent(NextExponent(0, a.exp, Units(a)), b.exp, Units(a) + Units(b)), c.exp,
                Units(a) + Units(b) + Units(c))
  {
    hide Units, NextExponent;
    OneMore([], a);
    OneMore([a], b);
    OneMore([a, b], c);
    assert [] + [a] == [a] && [a] + [b] == [a, b] && [a, b] + [c] == [a, b, c];
  }

  lemma FewAreSummable(values: seq<Decimal>)
    requires |values| <= 10 && forall i :: 0 <= i < |values| ==> Fits(values[i])
    ensures Summable(values)
  {
    hide Fits;
    assert Pow10(1) == 10;
    Pow10Monotone(1, MEMBERS_DIGITS);
  }

  /** Three storable members whose total shows 99 decimals in one order and 42 in another: both conditions fail. */
  lemma PaddedTextDependsOnOrder()
    ensures Fits(PADDED_ONE) && Fits(LARGE) && Fits(MINUS_LARGE)
    ensures RunningSum([LARGE, MINUS_LARGE, PADDED_ONE]).exp == -99
    ensures RunningSum([PADDED_ONE, LARGE, MINUS_LARGE]).exp == -42
    ensures !FitsInAnyOrder([PADDED_ONE, LARGE, MINUS_LARGE]) && !TextNeverShows([PADDED_ONE, LARGE, MINUS_LARGE])
  {
    hide Pow10, RunningSum, Exponent, Place, Fits, Units, FitsInAnyOrder, Summable, PADDED_ONE, SumUnits,
        TextNeverShows;
    PaddedOneIsOne();
    LargeUnits();
    Places();
    PaddedOneExponent();
    var first, second := [LARGE, MINUS_LARGE, PADDED_ONE], [PADDED_ONE, LARGE, MINUS_LARGE];
    ThreeExponents(LARGE, MINUS_LARGE, PADDED_ONE);
    ThreeExponents(PADDED_ONE, LARGE, MINUS_LARGE);
    FewAreSummable(first);
    FewAreSummable(second);
    RunningSumDecided(first);
    RunningSumDecided(second);
    assert multiset(first) == multiset(second);
    OrderNeverShowsExactly(second);
    SumOfThree(PADDED_ONE, LARGE, MINUS_LARGE);
    TextNeverShowsExactly(second);
  }

  lemma SumOfThree(a: Decimal, b: Decimal, c: Decimal)
    ensures SumUnits([a, b, c]) == Units(a) + Units(b) + Units(c)
  {
    hide Units;
    OneMore([], a);
    OneMore([a], b);
    OneMore([a, b], c);
    assert [] + [a] == [a] && [a] + [b] == [a, b] && [a, b] + [c] == [a, b, c];
  }

  lemma MinusPaddedOne()
    ensures Fits(MINUS_PADDED_ONE) && Units(MINUS_PADDED_ONE) == -(Pow10(18) as int) && MINUS_PADDED_ONE.exp == -100
  {
    hide Pow10;
    PaddedOneIsOne();
  }

  lemma FourExponents(a: Decimal, b: Decimal, c: Decimal, d: Decimal)
    ensures SumUnits([a, b, c, d]) == Units(a) + Units(b) + Units(c) + Units(d)
    ensures Exponent([a, b, c, d])
            == NextExponent(Exponent([a, b, c]), d.exp, Units(a) + Units(b) + Units(c) + Units(d))
  {
    hide Units, NextExponent, Exponent, SumUnits;
    SumOfThree(a, b, c);
    OneMore([a, b, c], d);
    assert [a, b, c] + [d] == [a, b, c, d];
  }

  /** A zero total that ends with 100 decimals in one order and 42 in another, and has one text in every order. */
  lemma ZeroHidesItsExponent()
    ensures RunningSum([PADDED_ONE, LARGE, MINUS_LARGE, MINUS_PADDED_ONE]).exp == -100
    ensures RunningSum([PADDED_ONE, MINUS_PADDED_ONE, LARGE, MINUS_LARGE]).exp == -42
    ensures !FitsInAnyOrder([PADDED_ONE, LARGE, MINUS_LARGE, MINUS_PADDED_ONE])
    ensures TextNeverShows([PADDED_ONE, LARGE, MINUS_LARGE, MINUS_PADDED_ONE])
    ensures StoredNeverShows([PADDED_ONE, LARGE, MINUS_LARGE, MINUS_PADDED_ONE])
  {
    hide Pow10, RunningSum, Exponent, Place, Fits, Units, FitsInAnyOrder, Summable, PADDED_ONE, MINUS_PADDED_ONE,
        SumUnits, TextNeverShows, StoredNeverShows;
    PaddedOneIsOne();
    MinusPaddedOne();
    LargeUnits();
    Places();
    PaddedOneExponent();
    var first := [PADDED_ONE, LARGE, MINUS_LARGE, MINUS_PADDED_ONE];
    var second := [PADDED_ONE, MINUS_PADDED_ONE, LARGE, MINUS_LARGE];
    ThreeExponents(PADDED_ONE, LARGE, MINUS_LARGE);
    FourExponents(PADDED_ONE, LARGE, MINUS_LARGE, MINUS_PADDED_ONE);
    ThreeExponents(PADDED_ONE, MINUS_PADDED_ONE, LARGE);
    FourExponents(PADDED_ONE, MINUS_PADDED_ONE, LARGE, MINUS_LARGE);
    FewAreSummable(first);
    FewAreSummable(second);
    RunningSumDecided(first);
    RunningSumDecided(second);
    assert multiset(first) == multiset(second);
    OrderNeverShowsExactly(first);
    TextNeverShowsExactly(first);
    StoredNeverShowsExactly(first);
  }

  lemma PaddedOneExponent()
    ensures PADDED_ONE.exp == -100
  {
  }
}
