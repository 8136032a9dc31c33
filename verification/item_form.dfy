/**
 * The field rules of the add/edit form (the `formSchema` of
 * crud-app/src/components/item-form.tsx): text lengths for title and
 * description, and trim-then-pattern rules for price, stock and rating.
 */
module ItemForm {
  import opened TextOps
  import opened NumericParams

  /** `z.string().min(2).max(255)` for the title and the description. */
  predicate LengthValid(s: string) { 2 <= |s| <= 255 }

  lemma LengthExamples()
    ensures !LengthValid("") && !LengthValid("a") && LengthValid("ab")
    ensures LengthValid(seq(255, _ => 'x')) && !LengthValid(seq(256, _ => 'x'))
  {
  }

  // ---------------------------------------------------------------------
  // Price: `^(0(\.\d+)?|[1-9]\d*(\.\d+)?)$` and a value of at most 1000

  /** End of the integer part: a lone `0`, or a run of digits starting with 1-9. */
  function IntegerEnd(t: string): (e: nat)
    requires 0 < |t| && IsDigit(t[0])
    ensures 1 <= e <= |t|
    ensures forall k :: 0 <= k < e ==> IsDigit(t[k])
    ensures t[0] != '0' ==> e == |t| || !IsDigit(t[e])
  {
    if t[0] == '0' then 1 else DigitRun(t, 0)
  }

  /** The price pattern on already trimmed text. */
  predicate PriceShape(t: string) {
    0 < |t| && IsDigit(t[0]) &&
    var e := IntegerEnd(t);
    e == |t| || (t[e] == '.' && e + 1 < |t| && DigitRun(t, e + 1) == |t|)
  }

  function IntegerPart(t: string): (r: string)
    requires PriceShape(t)
    ensures 0 < |r| && AllDigits(r)
  {
    t[..IntegerEnd(t)]
  }

  function FractionPart(t: string): (r: string)
    requires PriceShape(t)
    ensures AllDigits(r)
  {
    var e := IntegerEnd(t);
    if e == |t| then [] else
      var f := t[e + 1..];
      assert forall k :: 0 <= k < |f| ==> f[k] == t[e + 1 + k];
      f
  }

  function Pow10(n: nat): (p: nat)
    ensures p >= 1
  {
    if n == 0 then 1 else 10 * Pow10(n - 1)
  }

  /** A digit string is below the next power of ten. */
  lemma {:induction false} DigitsValueBelowPow10(s: string)
    requires AllDigits(s)
    ensures DigitsValue(s) < Pow10(|s|)
  {
    if s != [] {
      DigitsValueBelowPow10(s[..|s| - 1]);
    }
  }

  /** The exact value of the price text. */
  function PriceValue(t: string): real
    requires PriceShape(t)
  {
    var f := FractionPart(t);
    DigitsValue(IntegerPart(t)) as real + DigitsValue(f) as real / Pow10(|f|) as real
  }

  /** The refinement: trimmed, then the pattern, then at most 1000. */
  predicate PriceValid(raw: string) {
    var t := Trim(raw);
    PriceShape(t) && PriceValue(t) <= 1000.0
  }

  /**
   * The bound decided on the digits: under 1000 before the point, or
   * exactly 1000 with only zeros after it.
   */
  lemma PriceBound(t: string)
    requires PriceShape(t)
    ensures PriceValue(t) <= 1000.0 <==>
      DigitsValue(IntegerPart(t)) < 1000 ||
      (DigitsValue(IntegerPart(t)) == 1000 && DigitsValue(FractionPart(t)) == 0)
  {
    var f := FractionPart(t);
    DigitsValueBelowPow10(f);
    FractionBelowOne(DigitsValue(f), Pow10(|f|));
    BoundSplit(DigitsValue(IntegerPart(t)), DigitsValue(f) as real / Pow10(|f|) as real);
  }

  lemma FractionBelowOne(num: nat, den: nat)
    requires num < den
    ensures var frac := num as real / den as real; 0.0 <= frac < 1.0 && (frac == 0.0 <==> num == 0)
  {
    var frac := num as real / den as real;
    assert frac * den as real == num as real;
  }

  lemma BoundSplit(whole: nat, frac: real)
    requires 0.0 <= frac < 1.0
    ensures whole as real + frac <= 1000.0 <==> whole < 1000 || (whole == 1000 && frac == 0.0)
  {
  }

  lemma DigitsValue1000()
    ensures DigitsValue("1000") == 1000
    ensures DigitsValue("00") == 0 && DigitsValue("01") == 1
  {
    assert "1000"[..3] == "100" && "100"[..2] == "10" && "10"[..1] == "1";
    assert "00"[..1] == "0" && "01"[..1] == "0";
  }

  /** `"1000.00"` is accepted and `"1000.01"` is not. */
  lemma PriceLimitExamples()
    ensures PriceValid("1000.00")
    ensures !PriceValid("1000.01")
  {
    PriceExampleParts("1000.00", "00");
    PriceExampleParts("1000.01", "01");
    DigitsValue1000();
    PriceBound("1000.00");
    PriceBound("1000.01");
  }

  /** `"1000." + frac` for two digits of fraction: its parts, untouched by trimming. */
  lemma PriceExampleParts(t: string, frac: string)
    requires |frac| == 2 && AllDigits(frac) && t == "1000." + frac
    ensures Trim(t) == t && PriceShape(t)
    ensures IntegerPart(t) == "1000" && FractionPart(t) == frac
  {
    assert IsDigit(t[|t| - 1]);
    TrimKeepsUnpadded(t);
    DigitRunExact(t, 0, 4);
    DigitRunExact(t, 5, 7);
    assert t[..4] == "1000" && t[5..] == frac;
  }

  /** A leading zero before more digits, a bare fraction, a trailing dot, signs and exponents are refused. */
  lemma PriceShapeRejects()
    ensures !PriceShape("01") && !PriceShape(".5") && !PriceShape("1.")
    ensures !PriceShape("+1") && !PriceShape("-1") && !PriceShape("1e3") && !PriceShape("")
  {
    assert DigitRun("1e3", 1) == 1;
  }

  /** Accepted price text is numeric, so the submit handler turns it into a number. */
  lemma PriceShapeIsNumeric(t: string)
    requires PriceShape(t)
    ensures IsNumericString(t)
  {
    var e := IntegerEnd(t);
    var m := t[0..|t|];
    assert m == t;
    assert t[..0] == [] && t[|t|..] == [];
    assert AllDigits(t[..e]);
    if e < |t| {
      var f := t[e + 1..];
      assert forall k :: 0 <= k < |f| ==> f[k] == t[e + 1 + k];
      assert AllDigits(f);
    }
    assert DigitsFirstAt(m, e);
    assert SplitsAt(t, 0, |t|);
    NumericStringIffPattern(t);
  }

  // ---------------------------------------------------------------------
  // Stock and rating

  /** `^[0-9]+$` on the trimmed text; the `Number(val) >= 0` half holds for every such text. */
  predicate StockValid(raw: string) {
    var t := Trim(raw);
    0 < |t| && AllDigits(t)
  }

  /** `^[1-5]$` on the trimmed text. */
  predicate RatingValid(raw: string) {
    var t := Trim(raw);
    |t| == 1 && '1' <= t[0] <= '5'
  }

  /** Accepted stock text is numeric, so the submit handler turns it into a number. */
  lemma StockIsNumeric(raw: string)
    requires StockValid(raw)
    ensures IsNumericString(Trim(raw))
  {
    var t := Trim(raw);
    DigitRunExact(t, 0, |t|);
  }

  /** An accepted rating is the number 1 to 5, and numeric. */
  lemma RatingRange(raw: string)
    requires RatingValid(raw)
    ensures AllDigits(Trim(raw)) && 1 <= DigitsValue(Trim(raw)) <= 5
    ensures IsNumericString(Trim(raw))
  {
    var t := Trim(raw);
    assert t[..0] == [];
    DigitRunExact(t, 0, 1);
  }

  /** The text an edited item's stock renders to (`stock.toString()`) passes the stock rule. */
  lemma StockTextValid(stock: nat)
    ensures StockValid(NatToString(stock))
  {
    var s := NatToString(stock);
    assert IsDigit(s[0]) && IsDigit(s[|s| - 1]);
    TrimKeepsUnpadded(s);
  }

  /** The text of a rating 1 to 5 passes the rating rule, and no other number's text does. */
  lemma RatingTextValid(rating: nat)
    ensures RatingValid(NatToString(rating)) <==> 1 <= rating <= 5
  {
    var s := NatToString(rating);
    assert IsDigit(s[0]) && IsDigit(s[|s| - 1]);
    TrimKeepsUnpadded(s);
    if rating >= 10 {
      assert |s| > 1 by { NatToStringRoundTrip(rating); }
    }
  }

  /** The new-item defaults: price "0", stock "0" and rating "1" are all accepted. */
  lemma DefaultsValid()
    ensures PriceValid("0") && StockValid("0") && RatingValid("1")
  {
    DefaultPriceValid();
    DefaultStockValid();
    DefaultRatingValid();
  }

  lemma DefaultPriceValid()
    ensures PriceValid("0")
  {
    TrimKeepsUnpadded("0");
    ZeroPriceValue();
  }

  lemma DefaultStockValid()
    ensures StockValid("0")
  {
    TrimKeepsUnpadded("0");
  }

  lemma DefaultRatingValid()
    ensures RatingValid("1")
  {
    TrimKeepsUnpadded("1");
  }

  /** The default price text reads as 0. */
  lemma ZeroPriceValue()
    ensures PriceShape("0") && PriceValue("0") == 0.0
  {
    assert IntegerEnd("0") == 1;
    assert IntegerPart("0") == "0" && FractionPart("0") == [];
    assert DigitsValue("0") == 0;
  }
}
