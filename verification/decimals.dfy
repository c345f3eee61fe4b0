/** Exact decimal numbers, standing in for the `double`s the source reads
    with `Double.parseDouble`. The source only ever parses text from which
    every character other than digits, '-' and '.' has been deleted, so only
    that part of the `Double.parseDouble` grammar is modelled; values are kept
    exact instead of being rounded to the nearest `double`.
 */
module Decimals {
  import opened Results
  import opened Numbers
  import opened Text

  /** The number `units / 10^scale`, negated when `negative` holds. */
  datatype Decimal = Decimal(negative: bool, units: nat, scale: nat)

  function Magnitude(d: Decimal): real {
    (d.units as real) / (Pow10(d.scale) as real)
  }

  function ToReal(d: Decimal): real {
    if d.negative then -Magnitude(d) else Magnitude(d)
  }

  /** The texts over digits and '.' that `Double.parseDouble` accepts:
      either digits, or digits around one point with at least one digit on
      some side. */
  predicate IsUnsignedDecimalText(body: string) {
    || (|body| > 0 && AllDigits(body))
    || (exists k :: 0 <= k < |body| && body[k] == '.' && 1 < |body|
                    && AllDigits(body[..k]) && AllDigits(body[k + 1..]))
  }

  function StripMinus(s: string): string {
    if |s| > 0 && s[0] == '-' then s[1..] else s
  }

  /** The same, with an optional leading minus. */
  predicate IsDecimalText(s: string) {
    IsUnsignedDecimalText(StripMinus(s))
  }

  /** The parts around the first point of a text. */
  function Whole(body: string): string {
    body[..IndexOf(body, '.')]
  }

  function Fraction(body: string): string {
    var k := IndexOf(body, '.');
    if k < |body| then body[k + 1..] else ""
  }

  /** Splitting at the first point recognises exactly the unsigned decimal texts. */
  lemma FirstDotSplit(body: string)
    ensures IsUnsignedDecimalText(body) <==>
            AllDigits(Whole(body)) && AllDigits(Fraction(body)) && 0 < |Whole(body)| + |Fraction(body)|
  {
    if AllDigits(Whole(body)) && AllDigits(Fraction(body)) && 0 < |Whole(body)| + |Fraction(body)| {
      PartsMakeDecimal(body);
    }
    if IsUnsignedDecimalText(body) {
      DecimalHasParts(body);
    }
  }

  /** Digits around the first point make an unsigned decimal text. */
  lemma PartsMakeDecimal(body: string)
    requires AllDigits(Whole(body)) && AllDigits(Fraction(body)) && 0 < |Whole(body)| + |Fraction(body)|
    ensures IsUnsignedDecimalText(body)
  {
    var k := IndexOf(body, '.');
    if k == |body| {
      assert Whole(body) == body;
    } else {
      assert body[..k] == Whole(body) && body[k + 1..] == Fraction(body);
    }
  }

  /** An unsigned decimal text has digits around its first point. */
  lemma DecimalHasParts(body: string)
    requires IsUnsignedDecimalText(body)
    ensures AllDigits(Whole(body)) && AllDigits(Fraction(body)) && 0 < |Whole(body)| + |Fraction(body)|
  {
    var k := IndexOf(body, '.');
    if |body| > 0 && AllDigits(body) {
      assert forall i :: 0 <= i < |body| ==> body[i] != '.';
      assert Whole(body) == body;
    } else {
      var j :| 0 <= j < |body| && body[j] == '.' && 1 < |body| && AllDigits(body[..j]) && AllDigits(body[j + 1..]);
      assert forall i :: 0 <= i < j ==> body[i] != '.' by {
        forall i | 0 <= i < j
          ensures body[i] != '.'
        {
          assert body[..j][i] == body[i];
        }
      }
      assert k == j;
    }
  }

  /** The value of an unsigned decimal text, read part by part: the
      digits before the point, plus the digits after it divided by ten to
      the power of their count. An empty side counts as zero. */
  function UnsignedTextValue(body: string): real
    requires IsUnsignedDecimalText(body)
  {
    DecimalHasParts(body);
    var fraction := Fraction(body);
    DigitsValue(Whole(body)) as real + DigitsValue(fraction) as real / Pow10(|fraction|) as real
  }

  /** The value of a decimal text with an optional leading minus. */
  function DecimalTextValue(s: string): real
    requires IsDecimalText(s)
  {
    if |s| > 0 && s[0] == '-' then -UnsignedTextValue(StripMinus(s)) else UnsignedTextValue(StripMinus(s))
  }

  /** Dividing `w * p + f` by `p` gives `w` plus the fraction `f / p`. */
  lemma ScaledSum(w: nat, f: nat, p: nat)
    requires p > 0
    ensures ((w * p + f) as real) / (p as real) == (w as real) + (f as real) / (p as real)
  {
    var pr := p as real;
    assert ((w * p + f) as real) == (w as real) * pr + (f as real);
    assert ((w as real) * pr + (f as real)) / pr == (w as real) * pr / pr + (f as real) / pr;
  }

  /** The digits of an unsigned decimal text read as one integer, and the
      number of digits after the point. */
  function ParseUnsigned(body: string): (r: Option<(nat, nat)>)
    ensures r.Some? <==> IsUnsignedDecimalText(body)
    ensures r.Some? ==> r.value.1 == |Fraction(body)|
  {
    var whole := Whole(body);
    var fraction := Fraction(body);
    FirstDotSplit(body);
    if AllDigits(whole) && AllDigits(fraction) && 0 < |whole| + |fraction| then
      AllDigitsAppend(whole, fraction);
      Some((DigitsValue(whole + fraction), |fraction|))
    else
      None
  }

  /** `Double.parseDouble(s)` on a text over digits, '-' and '.'. */
  function ParseDecimal(s: string): (r: Option<Decimal>)
    ensures r.Some? <==> IsDecimalText(s)
    ensures r.Some? ==> (r.value.negative <==> s[0] == '-')
    ensures |s| > 0 && AllDigits(s) ==> r == Some(Decimal(false, DigitsValue(s), 0))
  {
    if |s| > 0 && AllDigits(s) then
      ParseWholeUnsigned(s);
      Some(Decimal(false, DigitsValue(s), 0))
    else
      match ParseUnsigned(StripMinus(s))
      case None => None
      case Some((units, scale)) => Some(Decimal(|s| > 0 && s[0] == '-', units, scale))
  }

  /** The integer `ParseUnsigned` reads, divided by ten to the power of the
      scale, is the part-by-part value of the text. */
  lemma ParseUnsignedValue(body: string)
    requires IsUnsignedDecimalText(body)
    ensures ParseUnsigned(body).Some?
    ensures var (units, scale) := ParseUnsigned(body).value;
            (units as real) / (Pow10(scale) as real) == UnsignedTextValue(body)
  {
    var whole := Whole(body);
    var fraction := Fraction(body);
    DecimalHasParts(body);
    DigitsValueAppend(whole, fraction);
    ScaledSum(DigitsValue(whole), DigitsValue(fraction), Pow10(|fraction|));
  }

  /** An accepted decimal text reads as its part-by-part value. */
  lemma ParseDecimalValue(s: string)
    requires IsDecimalText(s)
    ensures ParseDecimal(s).Some? && ToReal(ParseDecimal(s).value) == DecimalTextValue(s)
  {
    ParseUnsignedValue(StripMinus(s));
    if |s| > 0 && AllDigits(s) {
      ParseWholeUnsigned(s);
      assert StripMinus(s) == s;
    }
  }

  /** Digits, a point and digits split at that point. */
  lemma SplitParts(w: string, f: string)
    requires AllDigits(w) && AllDigits(f) && 0 < |w| + |f|
    ensures Whole(w + "." + f) == w && Fraction(w + "." + f) == f
    ensures IsUnsignedDecimalText(w + "." + f)
  {
    var body := w + "." + f;
    assert body == w + ("." + f);
    IndexOfDotAfterDigits(w, "." + f);
    assert body[..|w|] == w && body[|w| + 1..] == f;
    PartsMakeDecimal(body);
  }

  /** The part-by-part value of digits `w`, a point and digits `f`, after
      an optional minus. */
  lemma TextValueOfParts(s: string, w: string, f: string)
    requires AllDigits(w) && AllDigits(f) && 0 < |w| + |f|
    requires StripMinus(s) == w + "." + f
    ensures IsDecimalText(s)
    ensures var v := DigitsValue(w) as real + DigitsValue(f) as real / Pow10(|f|) as real;
            DecimalTextValue(s) == if s[0] == '-' then -v else v
  {
    SplitParts(w, f);
  }

  /** The value of digits `w`, a point and digits `f`, after an optional
      minus: `w` plus `f` divided by ten to the power of its length. */
  lemma ParseDecimalOfParts(s: string, w: string, f: string)
    requires AllDigits(w) && AllDigits(f) && 0 < |w| + |f|
    requires StripMinus(s) == w + "." + f
    ensures ParseDecimal(s).Some?
    ensures var v := DigitsValue(w) as real + DigitsValue(f) as real / Pow10(|f|) as real;
            ToReal(ParseDecimal(s).value) == if s[0] == '-' then -v else v
  {
    TextValueOfParts(s, w, f);
    ParseDecimalValue(s);
  }

  /** A side of the point may be empty: ".5" is 0.5 and "-.5" is -0.5. */
  lemma ParseDecimalEmptyWhole(s: string)
    requires s == ".5" || s == "-.5"
    ensures ParseDecimal(s).Some? && ToReal(ParseDecimal(s).value) == if s == ".5" then 0.5 else -0.5
  {
    assert DigitsValue("5") == 5 && DigitsValue("") == 0 && Pow10(1) == 10;
    assert StripMinus(s) == "" + "." + "5";
    ParseDecimalOfParts(s, "", "5");
  }

  /** "5." is 5. */
  lemma ParseDecimalEmptyFraction(s: string)
    requires s == "5."
    ensures ParseDecimal(s).Some? && ToReal(ParseDecimal(s).value) == 5.0
  {
    assert DigitsValue("5") == 5 && DigitsValue("") == 0 && Pow10(0) == 1;
    assert StripMinus(s) == "5" + "." + "";
    ParseDecimalOfParts(s, "5", "");
  }

  /** Leading zeros count for nothing: "01.5" is 1.5. */
  lemma ParseDecimalLeadingZero(s: string)
    requires s == "01.5"
    ensures ParseDecimal(s).Some? && ToReal(ParseDecimal(s).value) == 1.5
  {
    assert DigitsValue("5") == 5 && Pow10(1) == 10;
    assert DigitsValue("01") == 1 by {
      assert "01"[..1] == "0";
    }
    assert StripMinus(s) == "01" + "." + "5";
    ParseDecimalOfParts(s, "01", "5");
  }

  /** The first point of a text is the one after a run of digits. */
  lemma IndexOfDotAfterDigits(whole: string, rest: string)
    requires AllDigits(whole)
    requires |rest| == 0 || rest[0] == '.'
    ensures IndexOf(whole + rest, '.') == |whole|
  {
    assert forall i :: 0 <= i < |whole| ==> IsDigit(whole[i]);
    IndexOfAfter(whole, rest, '.');
  }

  lemma ParseWholeUnsigned(whole: string)
    requires |whole| > 0 && AllDigits(whole)
    ensures ParseUnsigned(whole) == Some((DigitsValue(whole), 0))
  {
    IndexOfDotAfterDigits(whole, "");
    assert whole + "" == whole;
    assert whole[..|whole|] == whole;
  }

  lemma ParseFractionUnsigned(whole: string, fraction: string)
    requires |whole| > 0 && AllDigits(whole) && AllDigits(fraction)
    ensures AllDigits(whole + fraction)
    ensures ParseUnsigned(whole + "." + fraction) == Some((DigitsValue(whole + fraction), |fraction|))
  {
    AllDigitsAppend(whole, fraction);
    var body := whole + "." + fraction;
    assert body == whole + ("." + fraction);
    IndexOfDotAfterDigits(whole, "." + fraction);
    assert body[..|whole|] == whole;
    assert body[|whole| + 1..] == fraction;
  }

  /** A minus sign, if any, is the only thing `StripMinus` removes. */
  lemma StripSign(negative: bool, body: string)
    requires |body| > 0 && IsDigit(body[0])
    ensures StripMinus(Sign(negative) + body) == body
    ensures |Sign(negative) + body| > 0 && ((Sign(negative) + body)[0] == '-' <==> negative)
  {
    if negative {
      assert (Sign(negative) + body)[1..] == body;
    }
  }

  /** A digit string of exactly `width` characters (leading zeros kept)
      whose value is `n`. */
  function PadDigits(n: nat, width: nat): (s: string)
    requires n < Pow10(width)
    ensures |s| == width && AllDigits(s) && DigitsValue(s) == n
  {
    if width == 0 then ""
    else
      var prefix := PadDigits(n / 10, width - 1);
      var s := prefix + [DigitChar(n % 10)];
      assert s[..|s| - 1] == prefix;
      s
  }

  function Sign(negative: bool): string {
    if negative then "-" else ""
  }

  /** The digits after the point: exactly `scale` of them. */
  function FractionDigits(units: nat, scale: nat): (s: string)
    ensures |s| == scale && AllDigits(s)
    ensures DigitsValue(s) == units % Pow10(scale)
  {
    var p := Pow10(scale);
    var r := units % p;
    DivMod(units, p);
    PadDigits(r, scale)
  }

  /** The canonical text of a decimal: optional minus, the integral digits,
      and, when the scale is positive, a point followed by exactly `scale`
      fraction digits. */
  /** The digits before the point. */
  function IntegralPart(d: Decimal): nat {
    var p := Pow10(d.scale);
    DivMod(d.units, p);
    d.units / p
  }

  function Render(d: Decimal): string {
    Sign(d.negative) + NatToString(IntegralPart(d))
      + (if d.scale == 0 then "" else "." + FractionDigits(d.units, d.scale))
  }

  /** Read together, the integral and the fraction digits give back the units. */
  lemma RenderedDigits(d: Decimal)
    ensures AllDigits(NatToString(IntegralPart(d)) + FractionDigits(d.units, d.scale))
    ensures DigitsValue(NatToString(IntegralPart(d)) + FractionDigits(d.units, d.scale)) == d.units
  {
    var whole := NatToString(IntegralPart(d));
    var fraction := FractionDigits(d.units, d.scale);
    DigitsValueAppend(whole, fraction);
    DivMod(d.units, Pow10(d.scale));
  }

  lemma DivMod(a: nat, p: nat)
    requires p > 0
    ensures a == (a / p) * p + a % p && 0 <= a % p < p
    ensures a / p >= 0
  {
  }

  /** Reading back a rendered decimal gives the same decimal. */
  lemma ParseRender(d: Decimal)
    ensures ParseDecimal(Render(d)) == Some(d)
  {
    if d.scale == 0 {
      ParseRenderWhole(d);
    } else {
      ParseRenderFraction(d);
    }
  }

  lemma ParseRenderWhole(d: Decimal)
    requires d.scale == 0
    ensures ParseDecimal(Render(d)) == Some(d)
  {
    assert Pow10(0) == 1;
    assert IntegralPart(d) == d.units;
    var whole := NatToString(d.units);
    var s := Sign(d.negative) + whole;
    assert Render(d) == s;
    StripSign(d.negative, whole);
    ParseWholeUnsigned(whole);
    if !d.negative {
      assert s == whole;
    } else {
      assert !AllDigits(s) by {
        assert !IsDigit(s[0]);
      }
    }
  }

  lemma ParseRenderFraction(d: Decimal)
    requires d.scale > 0
    ensures ParseDecimal(Render(d)) == Some(d)
  {
    var whole := NatToString(IntegralPart(d));
    var fraction := FractionDigits(d.units, d.scale);
    var body := whole + "." + fraction;
    var s := Sign(d.negative) + body;
    assert Render(d) == s;
    assert body == whole + ("." + fraction);
    StripSign(d.negative, body);
    ParseFractionUnsigned(whole, fraction);
    assert !AllDigits(s) by {
      assert s[|Sign(d.negative)| + |whole|] == '.';
    }
    RenderedDigits(d);
  }

  /** `(x * m)` truncated toward zero, for `x` the value of `d`: what the
      narrowing cast of a scaled `double` does before clamping. */
  function TruncTimes(d: Decimal, m: nat): (r: int)
    ensures !d.negative ==> 0 <= r && r as real <= ToReal(d) * (m as real) < r as real + 1.0
    ensures d.negative ==> r <= 0 && r as real - 1.0 < ToReal(d) * (m as real) <= r as real
  {
    var p := Pow10(d.scale);
    var q := d.units * m / p;
    ScaledQuotientBounds(d.units, m, p);
    if d.negative then -q else q
  }

  /** The integer quotient of `units * m` by `p` brackets the real product. */
  lemma ScaledQuotientBounds(units: nat, m: nat, p: nat)
    requires p > 0
    ensures
      var x := (units as real) / (p as real) * (m as real);
      var q := units * m / p;
      q as real <= x < q as real + 1.0
  {
    var n := units * m;
    var q := n / p;
    var r := n % p;
    assert n == q * p + r;
    var pr := p as real;
    assert (n as real) == (q as real) * pr + (r as real);
    assert (units as real) / pr * (m as real) == (n as real) / pr;
    assert (n as real) / pr == (q as real) + (r as real) / pr;
    assert 0.0 <= (r as real) / pr < 1.0;
  }
}
