/**
  Which texts a stored number may have had before fixed-scale storage padded it: the bounded
  enumeration that authenticated recovery searches.
 */
module Representations {
  import opened Prelude
  import opened Digits
  import opened Decimals
  import opened Texts

  /** The shortest text of `v` with `k` further decimal places. */
  function TextWith(v: Decimal, k: nat): string {
    var (c, s) := Reduced(ShownCoef(v), ShownScale(v));
    FixedText(v.neg, c * Pow10(k), s + k)
  }

  /** Meter values have a legal scale (0..18); originals at most 1000 coefficient digits. */
  function ScaleLimit(v: Decimal, meterValue: bool): int {
    if meterValue then STORED_SCALE else MAX_DIGITS - Adjusted(v) - 1
  }

  function Extra(v: Decimal, meterValue: bool): nat {
    Max(0, ScaleLimit(v, meterValue) - Reduced(ShownCoef(v), ShownScale(v)).1)
  }

  function Candidates(value: Option<Decimal>, meterValue: bool): Result<seq<Option<string>>> {
    match value
    case None => Ok([None])
    case Some(d) =>
      var v :- StorageResult(d);
      if v.coef == 0 then Ok([Some("0")])
      else Ok(seq(1 + Extra(v, meterValue), k requires k >= 0 => Some(TextWith(v, k))))
  }

  /** The generator: strip to the shortest text, then append one zero at a time. */
  method Enumerate(value: Option<Decimal>, meterValue: bool) returns (r: Result<seq<Option<string>>>)
    ensures r == Candidates(value, meterValue)
  {
    hide FixedText, TextWith, Stripped, AfterPoint, ShownCoef, ShownScale, Storable, InDomain;
    if value.None? {
      return Ok([None]);
    }
    var selected :- StorageDecimal(value.value);
    if selected.coef == 0 {
      return Ok([Some("0")]);
    }
    var text := Stripped(DecimalText(selected));
    StrippedIsShortest(selected);
    ShortestText(selected);
    var minimumScale := |AfterPoint(text)|;
    var maximumScale := if meterValue then 18 else 1000 - Adjusted(selected) - 1;
    var yielded := [Some(text)];
    if '.' !in text {
      text := text + ".";
    }
    assert text == GrowingText(selected, 0);
    var scale: int := minimumScale;
    while scale < maximumScale
      invariant minimumScale <= scale <= Max(minimumScale, maximumScale)
      invariant |yielded| == 1 + scale - minimumScale
      invariant forall k :: 0 <= k < |yielded| ==> yielded[k] == Some(TextWith(selected, k))
      invariant text == GrowingText(selected, scale - minimumScale)
    {
      NextText(selected, scale - minimumScale);
      text := text + "0";
      yielded := yielded + [Some(text)];
      scale := scale + 1;
    }
    assert |yielded| == 1 + Extra(selected, meterValue);
    assert yielded == Candidates(value, meterValue).value;
    return Ok(yielded);
  }

  lemma StrippedIsShortest(v: Decimal)
    requires v.coef > 0
    ensures Stripped(DecimalText(v)) == TextWith(v, 0)
  {
    hide FixedText, Stripped;
    assert Pow10(0) == 1;
    DigitCountShift(v.coef, Max(0, v.exp));
    StrippedText(v.neg, ShownCoef(v), ShownScale(v));
  }

  lemma ShortestText(v: Decimal)
    requires v.coef > 0
    ensures var (c, s) := Reduced(ShownCoef(v), ShownScale(v));
            && FixedText(v.neg, c, s) == TextWith(v, 0)
            && |AfterPoint(TextWith(v, 0))| == s
            && ('.' in TextWith(v, 0) <==> s > 0)
  {
    var (c, s) := Reduced(ShownCoef(v), ShownScale(v));
    assert Pow10(0) == 1;
    UnsignedFixed(v.neg, c, s);
    PointedParts(Padded(c, s + 1), s);
    PointIffScale(v.neg, c, s);
    assert FixedText(v.neg, c, s) == (if v.neg then "-" else "") + Unsigned(FixedText(v.neg, c, s));
    SignIsNoPoint(v.neg, Unsigned(FixedText(v.neg, c, s)));
  }

  lemma SignIsNoPoint(neg: bool, body: string)
    ensures AfterPoint((if neg then "-" else "") + body) == AfterPoint(body)
  {
    assert neg ==> ("-" + body)[1..] == body;
    assert "" + body == body;
  }

  /** The loop's text after `k` zeros: the candidate, or the integer with its point already added. */
  function GrowingText(v: Decimal, k: nat): string {
    if Reduced(ShownCoef(v), ShownScale(v)).1 + k == 0 then TextWith(v, k) + "." else TextWith(v, k)
  }

  lemma TimesTen(c: nat, k: nat)
    requires c > 0
    ensures c * Pow10(k + 1) == 10 * (c * Pow10(k)) && c * Pow10(k) > 0
  {
    Regroup(c, Pow10(k), 10);
    ScaleMonotone(1, c, Pow10(k));
  }

  lemma NextText(v: Decimal, k: nat)
    requires v.coef > 0
    ensures GrowingText(v, k) + "0" == TextWith(v, k + 1) == GrowingText(v, k + 1)
  {
    hide FixedText;
    var (c, s) := Reduced(ShownCoef(v), ShownScale(v));
    ReducedWidth(v);
    TimesTen(c, k);
    AppendZero(v.neg, c * Pow10(k), s + k);
    var t := TextWith(v, k);
    assert (t + ".") + "0" == t + ".0";
  }

  // ---- The search bound ----

  lemma ExtraBound(v: Decimal, meterValue: bool)
    requires v.coef > 0
    ensures Extra(v, meterValue) <= if meterValue then 18 else 999
    ensures !meterValue ==> Extra(v, false) <= 1000 - DigitCount(Reduced(ShownCoef(v), ShownScale(v)).0)
                            || Extra(v, false) == 0
  {
    ReducedWidth(v);
  }

  /** At most 19 texts for a meter value and 1000 for an original, no text twice. */
  lemma SearchIsBounded(value: Option<Decimal>, meterValue: bool)
    requires Candidates(value, meterValue).Ok?
    ensures var texts := Candidates(value, meterValue).value;
            && 1 <= |texts| <= (if meterValue then 19 else 1000)
            && forall i, j :: 0 <= i < j < |texts| ==> texts[i] != texts[j]
  {
    if value.Some? && StorageResult(value.value).value.coef > 0 {
      var v := StorageResult(value.value).value;
      var texts := Candidates(value, meterValue).value;
      ExtraBound(v, meterValue);
      forall i, j | 0 <= i < j < |texts| ensures texts[i] != texts[j] {
        TextsDiffer(v, i, j);
      }
    }
  }

  lemma FixedTextsDiffer(neg: bool, a: nat, b: nat, s: nat, t: nat)
    requires s != t
    ensures FixedText(neg, a, s) != FixedText(neg, b, t)
  {
    ParseFixed(neg, a, s);
    ParseFixed(neg, b, t);
  }

  lemma TextsDiffer(v: Decimal, i: nat, j: nat)
    requires i != j
    ensures TextWith(v, i) != TextWith(v, j)
  {
    hide FixedText;
    var (c, s) := Reduced(ShownCoef(v), ShownScale(v));
    FixedTextsDiffer(v.neg, c * Pow10(i), c * Pow10(j), s + i, s + j);
  }

  // ---- Soundness of one candidate ----

  /** The decimal that candidate k denotes. */
  function NumberWith(v: Decimal, k: nat): Decimal {
    var (c, s) := Reduced(ShownCoef(v), ShownScale(v));
    Decimal(v.neg, c * Pow10(k), -((s + k) as int))
  }

  /** Every candidate parses to the stored number, prints as itself and is an accepted input. */
  lemma CandidateIsSound(v: Decimal, meterValue: bool, k: nat)
    requires v.coef > 0 && Storable(v) && InDomain(v) && k <= Extra(v, meterValue)
    ensures ParseDecimal(TextWith(v, k)) == Some(NumberWith(v, k))
    ensures SameNumber(v, NumberWith(v, k))
    ensures Accepted(NumberWith(v, k)) && DecimalText(NumberWith(v, k)) == TextWith(v, k)
    ensures meterValue ==> -STORED_SCALE <= NumberWith(v, k).exp
  {
    hide FixedText, ParseDecimal, Storable, SameNumber, InDomain;
    var (c, s) := Reduced(ShownCoef(v), ShownScale(v));
    var coef := c * Pow10(k);
    ReducedNumber(v, k);
    CandidateInDomain(v, meterValue, k);
    ParseFixed(v.neg, coef, s + k);
    PrintedAsShown(v.neg, coef, s + k);
  }

  lemma PrintedAsShown(neg: bool, coef: nat, scale: nat)
    requires coef > 0
    ensures DecimalText(Decimal(neg, coef, -(scale as int))) == FixedText(neg, coef, scale)
  {
    assert Pow10(0) == 1;
  }

  lemma ReducedNumber(v: Decimal, k: nat)
    requires v.coef > 0
    ensures SameNumber(v, NumberWith(v, k)) && NumberWith(v, k).coef > 0
  {
    var coef, scale := ShownCoef(v), ShownScale(v);
    var (c, s) := Reduced(coef, scale);
    ReducedBack(coef, scale);
    var base, shown := Decimal(v.neg, c, -(s as int)), Decimal(v.neg, coef, -(scale as int));
    ScaleUp(base, scale - s);
    ScaleUp(v, Max(0, v.exp));
    assert Pow10(0) == 1;
    SameNumberTransitive(base, shown, base);
    SameNumberTransitive(v, shown, base);
    ScaleUp(base, k);
    SameNumberTransitive(v, base, NumberWith(v, k));
    SameNumberShape(base, NumberWith(v, k));
    DigitCountShift(v.coef, Max(0, v.exp));
  }

  lemma CandidateInDomain(v: Decimal, meterValue: bool, k: nat)
    requires v.coef > 0 && Storable(v) && InDomain(v) && k <= Extra(v, meterValue)
    ensures InDomain(NumberWith(v, k))
    ensures meterValue ==> -STORED_SCALE <= NumberWith(v, k).exp
  {
    var (c, s) := Reduced(ShownCoef(v), ShownScale(v));
    ReducedWidth(v);
    StorableScale(v);
    ExtraBound(v, meterValue);
    DigitCountShift(c, k);
  }

  // ---- Completeness ----

  /** The text of any admissible number equal to the stored one is among the candidates. */
  lemma CandidatesAreComplete(stored: Decimal, x: Decimal, meterValue: bool)
    requires InDomain(stored) && SameNumber(x, stored) && Accepted(x) && Storable(x)
    requires meterValue ==> -STORED_SCALE <= x.exp
    ensures Candidates(Some(stored), meterValue).Ok?
    ensures Some(DecimalText(x)) in Candidates(Some(stored), meterValue).value
  {
    StorageFollowsNumber(x, stored);
    if x.coef > 0 {
      var k := ItsCandidate(x, stored, meterValue);
      assert Candidates(Some(stored), meterValue).value[k] == Some(TextWith(stored, k));
    }
  }

  /** The candidate with as many decimals as `x` shows is `x`'s own text. */
  lemma ItsCandidate(x: Decimal, v: Decimal, meterValue: bool) returns (k: nat)
    requires SameNumber(x, v) && x.coef > 0 && v.coef > 0 && Accepted(x)
    requires meterValue ==> -STORED_SCALE <= x.exp
    ensures k <= Extra(v, meterValue) && TextWith(v, k) == DecimalText(x)
  {
    hide FixedText;
    SameReduced(x, v);
    var coef, scale := ShownCoef(x), ShownScale(x);
    var (c, s) := Reduced(coef, scale);
    ReducedBack(coef, scale);
    k := scale - s;
    assert TextWith(v, k) == FixedText(x.neg, coef, scale);
    assert k == 0 || scale <= ScaleLimit(v, meterValue);
  }

  /** Storage looks at the number only. */
  lemma StorageFollowsNumber(x: Decimal, stored: Decimal)
    requires InDomain(stored) && SameNumber(x, stored) && Accepted(x) && Storable(x)
    ensures StorageResult(stored).Ok?
    ensures x.coef == 0 <==> stored.coef == 0
    ensures x.coef > 0 ==> StorageResult(stored) == Ok(stored)
  {
    if x.exp >= stored.exp {
      SameNumberShape(x, stored);
    } else {
      SameNumberTransitive(x, stored, x);
      SameNumberShape(stored, x);
    }
    if x.coef > 0 {
      MultipleMeansRemainder(x, -STORED_SCALE);
      var k: nat :| IsTimes(x, k, -STORED_SCALE);
      SameNumberTransitive(x, stored, x);
      SameNumberTransitive(stored, x, Decimal(x.neg, k, -STORED_SCALE));
      assert IsTimes(stored, k, -STORED_SCALE);
      MultipleMeansRemainder(stored, -STORED_SCALE);
    }
  }
}
