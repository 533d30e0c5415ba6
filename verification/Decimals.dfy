/**
  Exact decimals as Python's `decimal.Decimal` represents them, the bounded input domain of
  Usage numbers, and the fixed-scale storage test Decimal(76, 18).
 */
module Decimals {
  import opened Prelude
  import opened Digits

  /** The number (-1)^neg * coef * 10^exp; `coef` is the number its coefficient digits spell. */
  datatype Decimal = Decimal(neg: bool, coef: nat, exp: int)

  const ZERO := Decimal(false, 0, 0)

  const MAX_DIGITS := 1000
  const STORED_SCALE := 18
  const STORED_INTEGER_DIGITS := 58

  function DigitsOf(d: Decimal): nat {
    DigitCount(d.coef)
  }

  /** The exponent of the leading digit. */
  function Adjusted(d: Decimal): int {
    d.exp + DigitCount(d.coef) - 1
  }

  function Signed(d: Decimal): int {
    if d.neg then -(d.coef as int) else d.coef
  }

  /** The number `d` counted in units of 10^m. */
  function At(d: Decimal, m: int): int
    requires m <= d.exp
  {
    Signed(d) * Pow10(d.exp - m)
  }

  /** Numerical equality, whatever the exponents. */
  predicate SameNumber(a: Decimal, b: Decimal) {
    var m := Min(a.exp, b.exp);
    At(a, m) == At(b, m)
  }

  predicate IsTimes(d: Decimal, k: nat, e: int) {
    SameNumber(d, Decimal(d.neg, k, e))
  }

  /** `d` is an integer multiple of 10^e. */
  ghost predicate MultipleOf(d: Decimal, e: int) {
    exists k: nat :: IsTimes(d, k, e)
  }

  /** The magnitude of `d` is less than 10^e. */
  predicate Below(d: Decimal, e: int) {
    var m := Min(d.exp, e);
    d.coef * Pow10(d.exp - m) < Pow10(e - m)
  }

  predicate InDomain(d: Decimal) {
    DigitsOf(d) <= MAX_DIGITS && Abs(Adjusted(d)) <= MAX_DIGITS
  }

  /** The accepted inputs; every zero becomes the positive zero of exponent 0. */
  function DecimalValue(d: Decimal): Result<Decimal> {
    if !InDomain(d) then Err(InvalidUsage)
    else if d.coef == 0 then Ok(ZERO)
    else Ok(d)
  }

  /** What `DecimalValue` returns. */
  predicate Accepted(d: Decimal) {
    InDomain(d) && (d.coef == 0 ==> d == ZERO)
  }

  lemma AtFiner(d: Decimal, m: int, k: nat)
    requires m <= d.exp
    ensures At(d, m - k) == At(d, m) * Pow10(k)
  {
    Pow10Add(d.exp - m, k);
    Regroup(Signed(d), Pow10(d.exp - m), Pow10(k));
  }

  /** Numerical equality may be tested in any unit fine enough for both. */
  lemma SameNumberAt(a: Decimal, b: Decimal, m: int)
    requires m <= a.exp && m <= b.exp
    ensures SameNumber(a, b) <==> At(a, m) == At(b, m)
  {
    var c := Min(a.exp, b.exp);
    AtFiner(a, c, c - m);
    AtFiner(b, c, c - m);
    ScaleMonotone(At(a, c), At(b, c), Pow10(c - m));
    ScaleMonotone(At(b, c), At(a, c), Pow10(c - m));
  }

  lemma SameNumberSymmetric(a: Decimal, b: Decimal)
    requires SameNumber(a, b)
    ensures SameNumber(b, a)
  {
  }

  lemma SameNumberTransitive(a: Decimal, b: Decimal, c: Decimal)
    requires SameNumber(a, b) && SameNumber(b, c)
    ensures SameNumber(a, c) && SameNumber(b, a)
  {
    var m := Min(a.exp, Min(b.exp, c.exp));
    SameNumberAt(a, b, m);
    SameNumberAt(b, c, m);
    SameNumberAt(a, c, m);
  }

  lemma SignedProduct(neg: bool, coef: nat, p: nat)
    ensures Signed(Decimal(neg, coef, 0)) * p == Signed(Decimal(neg, coef * p, 0))
  {
  }

  lemma ScaleUp(d: Decimal, k: nat)
    ensures SameNumber(d, Decimal(d.neg, d.coef * Pow10(k), d.exp - k))
  {
    assert Pow10(0) == 1;
    SignedProduct(d.neg, d.coef, Pow10(k));
  }

  /** Equal numbers with the same exponent are the same coefficient; zeros have no sign. */
  lemma SameNumberShape(a: Decimal, b: Decimal)
    requires SameNumber(a, b) && a.exp >= b.exp
    ensures b.coef == a.coef * Pow10(a.exp - b.exp)
    ensures a.coef != 0 <==> b.coef != 0
    ensures a.coef != 0 ==> a.neg == b.neg && Adjusted(a) == Adjusted(b)
  {
    var p := Pow10(a.exp - b.exp);
    assert Pow10(0) == 1;
    assert Signed(b) == Signed(a) * p;
    SignedProduct(a.neg, a.coef, p);
    if a.coef != 0 {
      DigitCountShift(a.coef, a.exp - b.exp);
    }
  }

  lemma BelowMeansDigits(d: Decimal, e: int)
    ensures Below(d, e) <==> d.coef == 0 || Adjusted(d) < e
  {
    DigitCountBounds(d.coef);
    if d.exp >= e {
      assert Pow10(0) == 1;
      if d.coef > 0 {
        ScaleMonotone(1, d.coef, Pow10(d.exp - e));
      }
    } else {
      assert Pow10(0) == 1;
      if d.coef < Pow10(e - d.exp) {
        DigitCountAtMost(d.coef, e - d.exp);
      } else if Adjusted(d) < e {
        Pow10Monotone(DigitCount(d.coef), e - d.exp);
      }
    }
  }

  lemma MultipleMeansRemainder(d: Decimal, e: int)
    ensures MultipleOf(d, e) <==> (d.exp >= e || d.coef % Pow10(e - d.exp) == 0)
  {
    if d.exp >= e {
      ScaleUp(d, d.exp - e);
      assert IsTimes(d, d.coef * Pow10(d.exp - e), e);
    } else {
      var p := Pow10(e - d.exp);
      if d.coef % p == 0 {
        var k := d.coef / p;
        assert k * p == d.coef;
        ScaleUp(Decimal(d.neg, k, e), e - d.exp);
        SameNumberTransitive(Decimal(d.neg, k, e), d, Decimal(d.neg, k, e));
        assert IsTimes(d, k, e);
      }
      if MultipleOf(d, e) {
        var k: nat :| IsTimes(d, k, e);
        SameNumberTransitive(d, Decimal(d.neg, k, e), d);
        SameNumberShape(Decimal(d.neg, k, e), d);
        MultipleRemainder(k, p);
      }
    }
  }

  lemma MultipleRemainder(k: nat, p: nat)
    requires p > 0
    ensures (k * p) % p == 0
  {
    var q, r := (k * p) / p, (k * p) % p;
    assert k * p == q * p + r;
    assert r == (k - q) * p;
    if k - q >= 1 {
      ScaleMonotone(1, k - q, p);
    } else if k - q <= -1 {
      ScaleMonotone(k - q, -1, p);
    }
  }

  /** `d` is a multiple of 10^-scale: nothing but zeros stands beyond that place. */
  predicate Divides(d: Decimal, scale: int) {
    d.exp >= -scale || d.coef % Pow10(-scale - d.exp) == 0
  }

  /** Fits Decimal(76, 18): at most 18 decimals and at most 58 integer digits. */
  predicate Storable(d: Decimal) {
    && Divides(d, STORED_SCALE)
    && Max(1, Adjusted(d) + 1) <= STORED_INTEGER_DIGITS
  }

  /** The storage test's result on an arbitrary decimal. */
  function StorageResult(d: Decimal): Result<Decimal> {
    var v :- DecimalValue(d);
    if Storable(v) then Ok(v) else Err(DecimalOverflow)
  }

  lemma ZerosAreEqual(a: Decimal, b: Decimal)
    requires a.coef == 0 && b.coef == 0
    ensures SameNumber(a, b)
  {
  }

  /** Inputs have at most 1000 digits, and their first one stands at most 1000 places from the point. */
  lemma DomainExactly(d: Decimal)
    ensures DecimalValue(d).Ok? <==> DigitsOf(d) <= 1000 && -1000 <= Adjusted(d) <= 1000
    ensures DecimalValue(d).Ok? ==> DecimalValue(d).value == if d.coef == 0 then Decimal(false, 0, 0) else d
    ensures DecimalValue(d).Err? ==> DecimalValue(d).error == InvalidUsage
  {
  }

  lemma DecimalValueKeeps(d: Decimal)
    requires DecimalValue(d).Ok?
    ensures Accepted(DecimalValue(d).value) && SameNumber(DecimalValue(d).value, d)
  {
    hide SameNumber;
    if d.coef == 0 {
      ZerosAreEqual(ZERO, d);
    } else {
      SelfSame(d);
    }
  }

  lemma SelfSame(d: Decimal)
    ensures SameNumber(d, d)
  {
  }

  /** What storage returns is an accepted, storable input: the number it was given. */
  lemma StorageKeeps(d: Decimal)
    requires StorageResult(d).Ok?
    ensures var r := StorageResult(d).value; Accepted(r) && Storable(r) && SameNumber(r, d)
  {
    hide SameNumber, Storable;
    DecimalValueKeeps(d);
  }

  /** Storage accepts exactly the multiples of 10^-18 below 10^58 in magnitude, and keeps the text. */
  lemma StorageAcceptsExactly(d: Decimal)
    requires InDomain(d)
    ensures StorageResult(d).Ok? <==> MultipleOf(d, -18) && Below(d, 58)
    ensures StorageResult(d).Ok? ==> SameNumber(StorageResult(d).value, d)
    ensures StorageResult(d).Ok? && d.coef != 0 ==> StorageResult(d).value == d
    ensures StorageResult(d).Err? ==> StorageResult(d).error == DecimalOverflow
  {
    MultipleMeansRemainder(d, -STORED_SCALE);
    BelowMeansDigits(d, STORED_INTEGER_DIGITS);
    if d.coef == 0 {
      assert Pow10(-STORED_SCALE - Min(d.exp, -STORED_SCALE)) > 0;
    }
  }

  /** A coefficient with a nonzero last digit is not a multiple of any higher power of ten. */
  lemma LastDigitBlocks(coef: nat, k: nat)
    requires coef % 10 != 0 && k > 0
    ensures coef % Pow10(k) != 0
  {
    var p := Pow10(k);
    var q := coef / p;
    if coef % p == 0 {
      DivisionBack(coef, p);
      TenDivides(q, k);
    }
  }

  lemma DivisionBack(n: nat, p: nat)
    requires p > 0 && n % p == 0
    ensures n == (n / p) * p
  {
  }

  lemma TenDivides(q: nat, k: nat)
    requires k > 0
    ensures (q * Pow10(k)) % 10 == 0
  {
    Regroup(q, Pow10(k - 1), 10);
    MultipleRemainder(q * Pow10(k - 1), 10);
  }

  /** Stripping zeros decides the storage scale: exponent `scale` is the largest that carries the number. */
  lemma StrippedScale(coef: nat, exp: int, digits: nat, scale: int)
    requires scale >= exp && exp < -STORED_SCALE
    requires coef == digits * Pow10(scale - exp)
    requires digits % 10 != 0 || scale == exp == 0
    ensures coef % Pow10(-STORED_SCALE - exp) == 0 <==> scale >= -STORED_SCALE
  {
    var p := -STORED_SCALE - exp;
    if scale >= -STORED_SCALE {
      Pow10Add(scale + STORED_SCALE, p);
      Regroup(digits, Pow10(scale + STORED_SCALE), Pow10(p));
      MultipleRemainder(digits * Pow10(scale + STORED_SCALE), Pow10(p));
    } else {
      Pow10Add(-STORED_SCALE - scale, scale - exp);
      LastDigitBlocks(digits, -STORED_SCALE - scale);
      CommonFactor(digits, Pow10(-STORED_SCALE - scale), Pow10(scale - exp));
    }
  }

  /** The digit loop: strip trailing zeros of the coefficient, then test scale and integer digits. */
  method StorageDecimal(d: Decimal) returns (r: Result<Decimal>)
    ensures r == StorageResult(d)
  {
    var selected :- DecimalValue(d);
    var digits, scale := selected.coef, selected.exp;
    while DigitCount(digits) > 1 && digits % 10 == 0
      invariant scale >= selected.exp
      invariant selected.coef == digits * Pow10(scale - selected.exp)
      invariant selected.coef == 0 ==> scale == selected.exp
      decreases digits
    {
      Regroup(digits / 10, 10, Pow10(scale - selected.exp));
      digits, scale := digits / 10, scale + 1;
    }
    if selected.exp < -STORED_SCALE {
      StrippedScale(selected.coef, selected.exp, digits, scale);
    }
    if Max(0, -scale) > STORED_SCALE || Max(1, Adjusted(selected) + 1) > STORED_INTEGER_DIGITS {
      return Err(DecimalOverflow);
    }
    return Ok(selected);
  }

  lemma Cancel(a: nat, b: nat, c: nat)
    requires c > 0 && a * c == b * c
    ensures a == b
  {
    ScaleMonotone(a, b, c);
    ScaleMonotone(b, a, c);
  }

  lemma CommonFactor(a: nat, p: nat, c: nat)
    requires p > 0 && c > 0 && a % p != 0
    ensures (a * c) % (p * c) != 0
  {
    assert p * c > 0;
    if (a * c) % (p * c) == 0 {
      var q := (a * c) / (p * c);
      Regroup(q, p, c);
      Cancel(a, q * p, c);
      MultipleRemainder(q, p);
    }
  }
}
