/** Exact unit conversion and the Decimal precision rules of a meter. */
module Meters {
  import opened Prelude
  import opened Digits
  import opened Decimals

  // ---- Decimal arithmetic in a context of limited precision with Inexact trapped ----

  function Product(a: Decimal, b: Decimal): Decimal {
    Decimal(a.neg != b.neg, a.coef * b.coef, a.exp + b.exp)
  }

  /** The unrounded sum, at the smaller exponent; an exact zero is negative only if both terms are. */
  function Sum(a: Decimal, b: Decimal): Decimal {
    var m := Min(a.exp, b.exp);
    var s := At(a, m) + At(b, m);
    Decimal(s < 0 || (s == 0 && a.neg && b.neg), Abs(s), m)
  }

  /** Round to `precision` digits with the Inexact trap set: only zeros may be dropped. */
  function Trapped(d: Decimal, precision: nat): Result<Decimal> {
    var excess := DigitsOf(d) - precision;
    if excess <= 0 then Ok(d)
    else if d.coef % Pow10(excess) != 0 then Err(InexactArithmetic)
    else Ok(Decimal(d.neg, d.coef / Pow10(excess), d.exp + excess))
  }

  datatype UnitTransform = UnitTransform(scale: Decimal, offset: Decimal) {

    function Precision(operand: Decimal): nat {
      Max(100,
          DigitsOf(operand) + DigitsOf(scale) + DigitsOf(offset)
          + Abs(Adjusted(operand)) + Abs(Adjusted(scale)) + Abs(Adjusted(offset)) + 20)
    }

    function Apply(value: Decimal): Result<Decimal> {
      var selected :- DecimalValue(value);
      var product :- Trapped(Product(selected, scale), Precision(selected));
      Trapped(Sum(product, offset), Precision(selected))
    }
  }

  const IDENTITY := UnitTransform(Decimal(false, 1, 0), ZERO)

  lemma ProductDigits(a: nat, b: nat)
    ensures DigitCount(a * b) <= DigitCount(a) + DigitCount(b)
  {
    var da, db := DigitCount(a), DigitCount(b);
    DigitCountBounds(a);
    DigitCountBounds(b);
    Pow10Add(da, db);
    ProductBelow(a, b, Pow10(da), Pow10(db));
    DigitCountAtMost(a * b, da + db);
  }

  lemma AtMagnitude(d: Decimal, m: int)
    requires m <= d.exp
    ensures Abs(At(d, m)) == d.coef * Pow10(d.exp - m)
  {
    SignedProduct(d.neg, d.coef, Pow10(d.exp - m));
  }

  lemma AtBelow(d: Decimal, m: int)
    requires m <= d.exp
    ensures Abs(At(d, m)) < Pow10(DigitsOf(d) + d.exp - m)
  {
    AtMagnitude(d, m);
    DigitCountBounds(d.coef);
    ScaleMonotone(d.coef, Pow10(DigitsOf(d)), Pow10(d.exp - m));
    Pow10Add(DigitsOf(d), d.exp - m);
  }

  lemma TwoBelow(x: int, y: int, width: nat)
    requires Abs(x) < Pow10(width) && Abs(y) < Pow10(width)
    ensures Abs(x + y) < Pow10(width + 1)
  {
  }

  /** The aligned sum has at most one digit more than the wider aligned term. */
  lemma SumDigits(a: Decimal, b: Decimal, width: nat)
    requires DigitsOf(a) + a.exp - Min(a.exp, b.exp) <= width
    requires DigitsOf(b) + b.exp - Min(a.exp, b.exp) <= width
    ensures DigitsOf(Sum(a, b)) <= width + 1
  {
    hide At, Pow10, DigitCount;
    var m := Min(a.exp, b.exp);
    AtBelow(a, m);
    AtBelow(b, m);
    Pow10Monotone(DigitsOf(a) + a.exp - m, width);
    Pow10Monotone(DigitsOf(b) + b.exp - m, width);
    TwoBelow(At(a, m), At(b, m), width);
    DigitCountAtMost(Abs(At(a, m) + At(b, m)), width + 1);
  }

  /** The working precision always suffices, for the product and for the sum: nothing is rounded. */
  lemma ConversionNeverRounds(t: UnitTransform, value: Decimal)
    requires InDomain(value)
    ensures t.Apply(value) == Ok(Sum(Product(DecimalValue(value).value, t.scale), t.offset))
  {
    var v := DecimalValue(value).value;
    var p := Product(v, t.scale);
    ProductDigits(v.coef, t.scale.coef);
    var precision := t.Precision(v);
    assert Trapped(p, precision) == Ok(p);
    AlignedWidth(v, t.scale, p, t.offset, precision);
    SumDigits(p, t.offset, precision - 1);
  }

  /** However far apart the exponents are, the aligned terms stay inside the working precision. */
  lemma AlignedWidth(v: Decimal, s: Decimal, p: Decimal, o: Decimal, precision: int)
    requires p.exp == v.exp + s.exp && DigitsOf(p) <= DigitsOf(v) + DigitsOf(s)
    requires precision >= DigitsOf(v) + DigitsOf(s) + DigitsOf(o) + Abs(Adjusted(v)) + Abs(Adjusted(s))
            + Abs(Adjusted(o)) + 20
    ensures DigitsOf(p) + p.exp - Min(p.exp, o.exp) < precision
    ensures DigitsOf(o) + o.exp - Min(p.exp, o.exp) < precision
  {
  }

  /** The converted number is value * scale + offset, read in any common unit. */
  lemma ConversionIsAffine(t: UnitTransform, value: Decimal, m: int, n: int)
    requires InDomain(value)
    requires m <= DecimalValue(value).value.exp && n <= t.scale.exp && m + n <= t.offset.exp
    ensures var r := t.Apply(value);
            && r.Ok?
            && r.value.exp >= m + n
            && At(r.value, m + n) == At(DecimalValue(value).value, m) * At(t.scale, n) + At(t.offset, m + n)
  {
    ConversionNeverRounds(t, value);
    var v := DecimalValue(value).value;
    var p := Product(v, t.scale);
    var s := Sum(p, t.offset);
    ProductAt(v, t.scale, m, n);
    var c := Min(p.exp, t.offset.exp);
    AtFiner(p, c, c - (m + n));
    AtFiner(t.offset, c, c - (m + n));
    AtFiner(s, c, c - (m + n));
    assert Pow10(0) == 1;
    assert At(s, c) == At(p, c) + At(t.offset, c);
    Distribute(At(p, c), At(t.offset, c), Pow10(c - (m + n)));
  }

  lemma Distribute(a: int, b: int, c: int)
    ensures (a + b) * c == a * c + b * c
  {
  }

  lemma ProductAt(a: Decimal, b: Decimal, m: int, n: int)
    requires m <= a.exp && n <= b.exp
    ensures At(Product(a, b), m + n) == At(a, m) * At(b, n)
  {
    var p, q := Pow10(a.exp - m), Pow10(b.exp - n);
    Pow10Add(a.exp - m, b.exp - n);
    var x, y := Signed(a), Signed(b);
    assert Signed(Product(a, b)) == x * y by { SignsMultiply(a, b); }
    Interchange(x, y, p, q);
  }

  lemma SignsMultiply(a: Decimal, b: Decimal)
    ensures Signed(Product(a, b)) == Signed(a) * Signed(b)
  {
    var x: int, y: int := a.coef, b.coef;
    assert (-x) * y == -(x * y) && x * (-y) == -(x * y) && (-x) * (-y) == x * y;
  }

  lemma Interchange(x: int, y: int, p: int, q: int)
    ensures (x * y) * (p * q) == (x * p) * (y * q)
  {
    Regroup(x * y, p, q);
    Regroup(x, y, p);
    Regroup(x, p, y);
    assert y * p == p * y;
    Regroup(x * p, y, q);
  }

  // ---- The meter's own precision and scale ----

  /** The same number at exponent -scale. */
  function Rescaled(d: Decimal, scale: int): Decimal
    requires Divides(d, scale)
  {
    Decimal(d.neg, if d.exp < -scale then d.coef / Pow10(-scale - d.exp) else d.coef * Pow10(d.exp + scale), -scale)
  }

  /** Move to exponent -scale with Inexact trapped, within `precision` coefficient digits. */
  function Quantize(d: Decimal, scale: int, precision: int): Result<Decimal> {
    if !Divides(d, scale) then Err(DecimalOverflow)
    else if DigitsOf(Rescaled(d, scale)) > precision then Err(DecimalOverflow)
    else Ok(Rescaled(d, scale))
  }

  datatype Meter = Meter(
    meterId: string,
    version: nat,
    canonicalUnit: string,
    transforms: map<string, UnitTransform>,
    required: set<string>,
    optional: set<string>,
    precision: int,
    scale: int,
    tolerance: nat,
    activeFrom: int,
    retiredAt: Option<int>)
  {
    /** What the constructor establishes. */
    ghost predicate Valid() {
      && 1 <= precision <= 76
      && 0 <= scale <= Min(precision, STORED_SCALE)
      && precision - scale <= STORED_INTEGER_DIGITS
      && canonicalUnit in transforms && transforms[canonicalUnit] == IDENTITY
    }

    function Fit(value: Decimal): Result<Decimal> {
      var quantized :- Quantize(value, scale, Max(100, precision + 20));
      var integerDigits := if quantized.coef == 0 then 1 else Max(1, Adjusted(quantized) + 1);
      if integerDigits + scale > precision then Err(DecimalOverflow) else Ok(quantized)
    }

    function Normalize(value: Decimal, unit: string): Result<Decimal> {
      if unit !in transforms then Err(UnitMismatch)
      else
        var v :- DecimalValue(value);
        var converted :- transforms[unit].Apply(v);
        Fit(converted)
    }
  }

  function IntegerDigits(d: Decimal): nat {
    if d.coef == 0 then 1 else Max(1, Adjusted(d) + 1)
  }

  lemma RescaledIsSame(d: Decimal, scale: int)
    requires Divides(d, scale)
    ensures var q := Rescaled(d, scale);
            && SameNumber(d, q)
            && (d.coef == 0 <==> q.coef == 0) && (d.coef != 0 ==> Adjusted(d) == Adjusted(q))
  {
    var q := Rescaled(d, scale);
    if d.exp < -scale {
      DivisionBack(d.coef, Pow10(-scale - d.exp));
      ScaleUp(q, -scale - d.exp);
      SameNumberTransitive(q, d, q);
      SameNumberShape(q, d);
    } else {
      ScaleUp(d, d.exp + scale);
      SameNumberShape(d, q);
    }
  }

  /** Rescaling succeeds exactly on multiples of 10^-scale that are short enough, and is exact. */
  lemma QuantizeExact(d: Decimal, scale: int, precision: int)
    requires scale >= 0
    ensures Quantize(d, scale, precision).Ok? ==>
              var q := Quantize(d, scale, precision).value;
              MultipleOf(d, -scale) && q.exp == -scale && q.neg == d.neg && SameNumber(d, q)
    ensures MultipleOf(d, -scale) && IntegerDigits(d) + scale <= precision ==> Quantize(d, scale, precision).Ok?
  {
    hide SameNumber, Pow10, DigitCount;
    MultipleMeansRemainder(d, -scale);
    ZeroHasOneDigit();
    if Divides(d, scale) {
      RescaledIsSame(d, scale);
    }
  }

  lemma ZeroHasOneDigit()
    ensures DigitCount(0) == 1
  {
  }

  /** A value fits exactly when it is a multiple of 10^-scale with few enough integer digits. */
  lemma FitsExactly(m: Meter, d: Decimal)
    requires m.Valid()
    ensures m.Fit(d).Ok? <==> MultipleOf(d, -m.scale) && IntegerDigits(d) + m.scale <= m.precision
    ensures m.Fit(d).Ok? ==> m.Fit(d).value.exp == -m.scale && SameNumber(d, m.Fit(d).value)
    ensures m.Fit(d).Err? ==> m.Fit(d).error == DecimalOverflow
  {
    QuantizeExact(d, m.scale, Max(100, m.precision + 20));
    var r := Quantize(d, m.scale, Max(100, m.precision + 20));
    if r.Ok? {
      var q := r.value;
      if d.exp >= q.exp {
        SameNumberShape(d, q);
      } else {
        SameNumberTransitive(d, q, d);
        SameNumberShape(q, d);
      }
    }
  }

  /** A meter whose precision equals its scale accepts no number at all, not even zero. */
  lemma PrecisionEqualToScaleAcceptsNothing(m: Meter, d: Decimal)
    requires m.Valid() && m.precision == m.scale
    ensures m.Fit(d) == Err(DecimalOverflow)
  {
    FitsExactly(m, d);
  }

  /** The number `Normalize` hands to `Fit`. */
  lemma NormalizeFits(m: Meter, value: Decimal, unit: string) returns (c: Decimal)
    requires m.Normalize(value, unit).Ok?
    ensures m.Fit(c) == m.Normalize(value, unit)
  {
    c := m.transforms[unit].Apply(DecimalValue(value).value).value;
  }

  /**
    Normalization converts, then fits: it succeeds exactly for a declared unit whose converted number fits, and
    returns that number at the meter's scale.
   */
  lemma NormalizesExactly(m: Meter, value: Decimal, unit: string)
    requires m.Valid() && InDomain(value)
    ensures unit !in m.transforms ==> m.Normalize(value, unit) == Err(UnitMismatch)
    ensures unit in m.transforms ==>
              && m.transforms[unit].Apply(DecimalValue(value).value).Ok?
              && var c := m.transforms[unit].Apply(DecimalValue(value).value).value;
              && (m.Normalize(value, unit).Ok?
                  <==> MultipleOf(c, -m.scale) && IntegerDigits(c) + m.scale <= m.precision)
              && (m.Normalize(value, unit).Ok? ==>
                    m.Normalize(value, unit).value.exp == -m.scale && SameNumber(c, m.Normalize(value, unit).value))
              && (m.Normalize(value, unit).Err? ==> m.Normalize(value, unit).error == DecimalOverflow)
  {
    hide InDomain, SameNumber, MultipleOf, IntegerDigits, DigitCount;
    if unit in m.transforms {
      AcceptedInDomain(value);
      ConversionNeverRounds(m.transforms[unit], DecimalValue(value).value);
      FitsExactly(m, m.transforms[unit].Apply(DecimalValue(value).value).value);
    }
  }

  lemma AcceptedInDomain(value: Decimal)
    requires InDomain(value)
    ensures DecimalValue(value).Ok? && InDomain(DecimalValue(value).value)
  {
  }

  lemma FittedIsStorable(m: Meter, c: Decimal)
    requires m.Valid() && m.Fit(c).Ok?
    ensures var r := m.Fit(c).value;
            r.exp == -m.scale && InDomain(r) && Storable(DecimalValue(r).value)
  {
    FitsExactly(m, c);
    DigitCountBounds(m.Fit(c).value.coef);
  }

  /** Whatever a valid meter normalizes can be stored, and is accepted again as an input. */
  lemma NormalizedIsStorable(m: Meter, value: Decimal, unit: string)
    requires m.Valid() && m.Normalize(value, unit).Ok?
    ensures var r := m.Normalize(value, unit).value;
            r.exp == -m.scale && InDomain(r) && Storable(DecimalValue(r).value)
  {
    var c := NormalizeFits(m, value, unit);
    FittedIsStorable(m, c);
  }

  lemma AddingZero(d: Decimal)
    requires d.exp <= 0 && (d.coef == 0 ==> d == ZERO)
    ensures Sum(d, ZERO) == d
  {
    assert Pow10(0) == 1;
    assert At(d, d.exp) == Signed(d);
    assert At(ZERO, d.exp) == 0;
  }

  lemma MultiplyingByOne(d: Decimal)
    ensures Product(d, IDENTITY.scale) == d
  {
  }

  lemma CanonicalUnitOnlyFits(m: Meter, d: Decimal)
    requires m.Valid() && Accepted(d) && d.exp <= 0
    ensures m.Normalize(d, m.canonicalUnit) == m.Fit(d)
  {
    ConversionNeverRounds(IDENTITY, d);
    MultiplyingByOne(d);
    AddingZero(d);
  }

  lemma FitKeeps(m: Meter, c: Decimal)
    requires m.Valid() && m.Fit(c).Ok?
    ensures var r := m.Fit(c).value;
            m.Fit(r) == Ok(r) && m.Fit(ZERO) == Ok(Decimal(false, 0, -m.scale))
  {
    assert Pow10(0) == 1;
  }

  lemma Refit(m: Meter, c: Decimal)
    requires m.Valid() && m.Fit(c).Ok?
    ensures InDomain(m.Fit(c).value)
    ensures var kept := DecimalValue(m.Fit(c).value).value;
            && Accepted(kept) && kept.exp <= 0
            && m.Fit(kept).Ok?
            && DecimalValue(m.Fit(kept).value) == Ok(kept)
  {
    FittedIsStorable(m, c);
    FitKeeps(m, c);
    var zero := Decimal(false, 0, -m.scale);
    assert InDomain(zero) && DecimalValue(zero) == Ok(ZERO);
  }

  /** Normalizing again changes nothing: neither the number nor its exponent. */
  lemma NormalizationIsIdempotent(m: Meter, value: Decimal, unit: string)
    requires m.Valid() && m.Normalize(value, unit).Ok?
    ensures InDomain(m.Normalize(value, unit).value)
    ensures var kept := DecimalValue(m.Normalize(value, unit).value).value;
            && m.Normalize(kept, m.canonicalUnit).Ok?
            && DecimalValue(m.Normalize(kept, m.canonicalUnit).value) == Ok(kept)
  {
    var c := NormalizeFits(m, value, unit);
    Refit(m, c);
    CanonicalUnitOnlyFits(m, DecimalValue(m.Fit(c).value).value);
  }
}
