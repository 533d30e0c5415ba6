/** Fixed-point decimal text: how a number is printed, parsed, stripped and padded. */
module Texts {
  import opened Prelude
  import opened Digits
  import opened Decimals

  /** The digits of `coef`, with leading zeros up to `width`. */
  function Padded(coef: nat, width: nat): (s: string)
    ensures AllDigits(s) && |s| == Max(width, DigitCount(coef))
  {
    Zeros(Max(0, width - DigitCount(coef))) + Numeral(coef)
  }

  /** `scale` digits after the point, and no point when `scale` is 0. */
  function Pointed(digits: string, scale: nat): string
    requires scale < |digits|
  {
    if scale == 0 then digits else digits[..|digits| - scale] + "." + digits[|digits| - scale..]
  }

  /** Fixed-point text of (-1)^neg * coef * 10^-scale. */
  function FixedText(neg: bool, coef: nat, scale: nat): string {
    (if neg then "-" else "") + Pointed(Padded(coef, scale + 1), scale)
  }

  /** The digits a decimal shows in fixed-point form, as a coefficient. */
  function ShownCoef(d: Decimal): nat {
    if d.exp >= 0 then d.coef * Pow10(d.exp) else d.coef
  }

  function ShownScale(d: Decimal): nat {
    if d.exp >= 0 then 0 else -d.exp
  }

  /** `format(value, "f")` after zeros have become the plain zero. */
  function DecimalText(d: Decimal): string {
    if d.coef == 0 then "0" else FixedText(d.neg, ShownCoef(d), ShownScale(d))
  }

  function BeforePoint(t: string): string {
    if t == "" || t[0] == '.' then "" else [t[0]] + BeforePoint(t[1..])
  }

  function AfterPoint(t: string): string {
    if t == "" then "" else if t[0] == '.' then t[1..] else AfterPoint(t[1..])
  }

  function Unsigned(t: string): string {
    if t != "" && t[0] == '-' then t[1..] else t
  }

  /** Read fixed-point text exactly. */
  function ParseDecimal(t: string): Option<Decimal> {
    var neg := t != "" && t[0] == '-';
    var body := Unsigned(t);
    var digits := BeforePoint(body) + AfterPoint(body);
    if digits == "" || !AllDigits(digits) then None
    else Some(Decimal(neg, Reading(digits), -|AfterPoint(body)|))
  }

  lemma {:induction false} SplitAtPoint(x: string, y: string)
    requires AllDigits(x)
    ensures BeforePoint(x + "." + y) == x && AfterPoint(x + "." + y) == y
    ensures BeforePoint(x) == x && AfterPoint(x) == ""
  {
    if x != "" {
      SplitAtPoint(x[1..], y);
      assert (x + "." + y)[1..] == x[1..] + "." + y;
      assert [x[0]] + x[1..] == x;
    } else {
      assert ("" + "." + y)[1..] == y;
    }
  }

  lemma PointedParts(digits: string, scale: nat)
    requires AllDigits(digits) && scale < |digits|
    ensures var t := Pointed(digits, scale);
            && t != "" && IsDigit(t[0])
            && BeforePoint(t) + AfterPoint(t) == digits
            && |AfterPoint(t)| == scale
  {
    var cut := |digits| - scale;
    SplitAtPoint(if scale == 0 then digits else digits[..cut], digits[cut..]);
    assert digits[..cut] + digits[cut..] == digits;
    assert digits + "" == digits;
    assert Pointed(digits, scale)[0] == digits[0];
  }

  lemma UnsignedFixed(neg: bool, coef: nat, scale: nat)
    ensures var t := FixedText(neg, coef, scale);
            Unsigned(t) == Pointed(Padded(coef, scale + 1), scale) && (neg <==> t != "" && t[0] == '-')
  {
    var body := Pointed(Padded(coef, scale + 1), scale);
    PointedParts(Padded(coef, scale + 1), scale);
    assert ("-" + body)[1..] == body;
    assert "" + body == body;
  }

  /** Parsing printed text gives back the number with exactly its scale. */
  lemma ParseFixed(neg: bool, coef: nat, scale: nat)
    ensures ParseDecimal(FixedText(neg, coef, scale)) == Some(Decimal(neg, coef, -(scale as int)))
  {
    var digits := Padded(coef, scale + 1);
    UnsignedFixed(neg, coef, scale);
    PointedParts(digits, scale);
    ReadingOfPadded(Max(0, scale + 1 - DigitCount(coef)), Numeral(coef));
    ReadingOfNumeral(coef);
  }

  lemma PaddedTimesTen(coef: nat, width: nat)
    requires coef > 0
    ensures Padded(10 * coef, width + 1) == Padded(coef, width) + "0"
  {
    NumeralTimesTen(coef);
    assert DigitCount(10 * coef) == DigitCount(coef) + 1;
    assert Zeros(Max(0, width + 1 - DigitCount(10 * coef))) == Zeros(Max(0, width - DigitCount(coef)));
  }

  lemma PointedOneMore(before: string, scale: nat)
    requires scale < |before|
    ensures Pointed(before + "0", scale + 1) == Pointed(before, scale) + (if scale == 0 then ".0" else "0")
  {
    var after := before + "0";
    var cut := |before| - scale;
    assert after[..cut] == before[..cut];
    assert after[cut..] == before[cut..] + "0";
    assert before[|before|..] == "";
  }

  /** One more decimal place is one more printed zero. */
  lemma AppendZero(neg: bool, coef: nat, scale: nat)
    requires coef > 0
    ensures FixedText(neg, 10 * coef, scale + 1) == FixedText(neg, coef, scale) + (if scale == 0 then ".0" else "0")
  {
    hide Padded;
    PaddedTimesTen(coef, scale + 1);
    PointedOneMore(Padded(coef, scale + 1), scale);
  }

  lemma LastDigit(neg: bool, coef: nat, scale: nat)
    ensures var t := FixedText(neg, coef, scale);
            t != "" && t[|t| - 1] == DigitChar(coef % 10) && (coef % 10 != 0 ==> RStrip(t, '0') == t)
  {
    var digits := Padded(coef, scale + 1);
    assert digits[|digits| - 1] == Numeral(coef)[DigitCount(coef) - 1];
  }

  // ---- Stripping ----

  function RStrip(t: string, c: char): string {
    if t != "" && t[|t| - 1] == c then RStrip(t[..|t| - 1], c) else t
  }

  /** `text.rstrip("0").rstrip(".")`, applied only to text with a point. */
  function Stripped(t: string): string {
    if '.' in t then RStrip(RStrip(t, '0'), '.') else t
  }

  lemma RStripAppend(t: string, c: char)
    ensures RStrip(t + [c], c) == RStrip(t, c)
  {
    assert (t + [c])[..|t|] == t;
  }

  /** Drop trailing zeros of the fraction. */
  function Reduced(coef: nat, scale: nat): (nat, nat) {
    if scale > 0 && coef % 10 == 0 then Reduced(coef / 10, scale - 1) else (coef, scale)
  }

  function ZerosStripped(neg: bool, coef: nat, scale: nat): string {
    FixedText(neg, coef, scale) + (if scale == 0 then "." else "")
  }

  lemma {:induction false} StripZeros(neg: bool, coef: nat, scale: nat)
    requires coef > 0 && scale > 0
    ensures RStrip(FixedText(neg, coef, scale), '0')
            == ZerosStripped(neg, Reduced(coef, scale).0, Reduced(coef, scale).1)
    decreases scale
  {
    if coef % 10 == 0 {
      var c := coef / 10;
      assert coef == 10 * c && Reduced(coef, scale) == Reduced(c, scale - 1);
      StripOneZero(neg, c, scale - 1);
      if scale > 1 {
        StripZeros(neg, c, scale - 1);
      } else {
        assert Reduced(c, 0) == (c, 0);
      }
    } else {
      assert Reduced(coef, scale) == (coef, scale);
      StripNothing(neg, coef, scale);
    }
  }

  lemma StripNothing(neg: bool, coef: nat, scale: nat)
    requires coef % 10 != 0 && scale > 0
    ensures RStrip(FixedText(neg, coef, scale), '0') == ZerosStripped(neg, coef, scale)
  {
    LastDigit(neg, coef, scale);
    assert ZerosStripped(neg, coef, scale) == FixedText(neg, coef, scale);
  }

  lemma StripOneZero(neg: bool, coef: nat, scale: nat)
    requires coef > 0
    ensures var t := FixedText(neg, coef, scale);
            RStrip(FixedText(neg, 10 * coef, scale + 1), '0') == if scale == 0 then t + "." else RStrip(t, '0')
  {
    var t := FixedText(neg, coef, scale);
    AppendZero(neg, coef, scale);
    if scale == 0 {
      assert t + ".0" == (t + ".") + "0";
      RStripAppend(t + ".", '0');
    } else {
      RStripAppend(t, '0');
    }
  }

  lemma PointIffScale(neg: bool, coef: nat, scale: nat)
    ensures '.' in FixedText(neg, coef, scale) <==> scale > 0
  {
    var digits := Padded(coef, scale + 1);
    assert '.' !in digits;
  }

  /** Stripping printed text prints the reduced number. */
  lemma StrippedText(neg: bool, coef: nat, scale: nat)
    requires coef > 0
    ensures var (c, s) := Reduced(coef, scale); Stripped(FixedText(neg, coef, scale)) == FixedText(neg, c, s)
  {
    PointIffScale(neg, coef, scale);
    if scale > 0 {
      StripZeros(neg, coef, scale);
      var (c, s) := Reduced(coef, scale);
      LastDigit(neg, c, s);
      if s == 0 {
        RStripAppend(FixedText(neg, c, s), '.');
      } else {
        assert FixedText(neg, c, s) + "" == FixedText(neg, c, s);
      }
    }
  }

  lemma {:induction false} ReducedBack(coef: nat, scale: nat)
    ensures var (c, s) := Reduced(coef, scale);
            s <= scale && coef == c * Pow10(scale - s) && (s > 0 ==> c % 10 != 0) && (coef > 0 ==> c > 0)
    decreases scale
  {
    if scale > 0 && coef % 10 == 0 {
      ReducedBack(coef / 10, scale - 1);
      var (c, s) := Reduced(coef / 10, scale - 1);
      Regroup(10, c, Pow10(scale - 1 - s));
      Regroup(c, 10, Pow10(scale - 1 - s));
      assert 10 * c == c * 10;
    } else {
      assert Pow10(0) == 1;
    }
  }

  lemma {:induction false} ReducedShift(coef: nat, scale: nat, k: nat)
    requires coef > 0
    ensures Reduced(coef * Pow10(k), scale + k) == Reduced(coef, scale)
    decreases k
  {
    if k > 0 {
      Regroup(coef, Pow10(k - 1), 10);
      assert Pow10(k) == Pow10(k - 1) * 10;
      assert (coef * Pow10(k)) / 10 == coef * Pow10(k - 1);
      ReducedShift(coef, scale, k - 1);
    } else {
      assert Pow10(0) == 1;
    }
  }

  /** Numerically equal decimals reduce to the same digits. */
  lemma SameReduced(a: Decimal, b: Decimal)
    requires SameNumber(a, b) && a.coef > 0 && b.coef > 0
    ensures Reduced(ShownCoef(a), ShownScale(a)) == Reduced(ShownCoef(b), ShownScale(b))
    ensures a.neg == b.neg && Adjusted(a) == Adjusted(b)
  {
    SameNumberTransitive(a, b, a);
    if a.exp >= b.exp {
      ReducedOfFiner(a, b);
    } else {
      ReducedOfFiner(b, a);
    }
  }

  lemma ReducedOfFiner(a: Decimal, b: Decimal)
    requires SameNumber(a, b) && a.coef > 0 && a.exp >= b.exp
    ensures Reduced(ShownCoef(a), ShownScale(a)) == Reduced(ShownCoef(b), ShownScale(b))
    ensures a.neg == b.neg && Adjusted(a) == Adjusted(b)
  {
    SameNumberShape(a, b);
    var k := ShownScale(b) - ShownScale(a);
    if b.exp >= 0 {
      Pow10Add(a.exp - b.exp, b.exp);
      Regroup(a.coef, Pow10(a.exp - b.exp), Pow10(b.exp));
    } else {
      if a.exp >= 0 {
        Pow10Add(a.exp, -b.exp);
        Regroup(a.coef, Pow10(a.exp), Pow10(-b.exp));
        ScaleMonotone(1, a.coef, Pow10(a.exp));
      }
      ReducedShift(ShownCoef(a), ShownScale(a), k);
    }
  }

  /** Reduced digits and the leading digit's exponent determine each other. */
  lemma ReducedWidth(d: Decimal)
    requires d.coef > 0
    ensures var (c, s) := Reduced(ShownCoef(d), ShownScale(d)); c > 0 && DigitCount(c) == Adjusted(d) + s + 1
  {
    var coef, scale := ShownCoef(d), ShownScale(d);
    ReducedBack(coef, scale);
    var (c, s) := Reduced(coef, scale);
    DigitCountShift(d.coef, Max(0, d.exp));
    DigitCountShift(c, scale - s);
  }

  /** What storage accepts has at most 18 decimals once trailing zeros are dropped. */
  lemma StorableScale(d: Decimal)
    requires d.coef > 0 && Storable(d)
    ensures Reduced(ShownCoef(d), ShownScale(d)).1 <= STORED_SCALE
  {
    var (c, s) := Reduced(ShownCoef(d), ShownScale(d));
    ReducedBack(ShownCoef(d), ShownScale(d));
    if d.exp < -STORED_SCALE && s > 0 {
      StrippedScale(d.coef, d.exp, c, -(s as int));
    }
  }
}
