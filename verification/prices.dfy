/** The two number readers of the Grand Exchange parser: `getPrice`, which
    reads a price that may carry a 'k', 'm' or 'b' suffix, and the reading
    of a percent change such as "+5.1%" into a fraction.
 */
module Prices {
  import opened Results
  import opened Numbers
  import opened Text
  import opened Decimals

  /** The characters `getPrice` keeps: digits, '-', '.', 'k', 'm' and 'b'. */
  predicate PriceChar(c: char) {
    IsDigit(c) || c == '-' || c == '.' || c == 'k' || c == 'm' || c == 'b'
  }

  /** The characters kept before a percent change is read: digits, '-' and '.'. */
  predicate DecimalChar(c: char) {
    IsDigit(c) || c == '-' || c == '.'
  }

  predicate IsSuffix(c: char) {
    c == 'k' || c == 'm' || c == 'b'
  }

  /** What a suffix stands for: a thousand, a million or a billion. */
  function Multiplier(c: char): (m: nat)
    requires IsSuffix(c)
    ensures m == 1000 || m == 1000000 || m == 1000000000
    ensures c == 'k' <==> m == 1000
    ensures c == 'b' <==> m == 1000000000
  {
    if c == 'k' then 1000 else if c == 'm' then 1000000 else 1000000000
  }

  /** `getPrice(s)`. Every character outside `PriceChar` is deleted first.
      A remaining text that ends in a suffix has the rest read as a decimal
      number, which is multiplied by the suffix's value and narrowed to an
      `int` (toward zero, saturating); any other remaining text is read with
      `Integer.parseInt`. When nothing remains, the look at the last
      character is `substring(-1)`, which throws a
      `StringIndexOutOfBoundsException`. */
  function GetPrice(s: string): (r: Result<Int32>)
    ensures r.Failure? ==> r.error.NumberFormat? || r.error.IndexOutOfRange?
    ensures |Keep(s, PriceChar)| == 0 <==> r == Failure(IndexOutOfRange(-1))
    ensures r.Success? && AllDigits(Keep(s, PriceChar)) ==> r.value == DigitsValue(Keep(s, PriceChar))
    ensures var t := Keep(s, PriceChar);
            |t| > 0 && !IsSuffix(t[|t| - 1]) ==> r == ParseInt(t)
    ensures var t := Keep(s, PriceChar);
            |t| > 0 && IsSuffix(t[|t| - 1]) ==> (r.Success? <==> IsDecimalText(t[..|t| - 1]))
  {
    KeptPrice(Keep(s, PriceChar))
  }

  /** The reading of `getPrice` after the deletion of the other characters. */
  function KeptPrice(t: string): Result<Int32> {
    if |t| == 0 then Failure(IndexOutOfRange(-1))
    else
      var last := t[|t| - 1];
      if IsSuffix(last) then
        var number := t[..|t| - 1];
        match ParseDecimal(number)
        case None => Failure(NumberFormat(number))
        case Some(d) => Success(Clamp(TruncTimes(d, Multiplier(last))))
      else
        ParseInt(t)
  }

  /** The change of a percent change trend: the characters outside
      `DecimalChar` are deleted, the rest is read as a decimal number and
      divided by 100. */
  function ParsePercentChange(s: string): (r: Result<real>)
    ensures r.Success? <==> IsDecimalText(Keep(s, DecimalChar))
    ensures r.Success? ==> r.value * 100.0 == ToReal(ParseDecimal(Keep(s, DecimalChar)).value)
    ensures r.Failure? ==> r.error == NumberFormat(Keep(s, DecimalChar))
  {
    var t := Keep(s, DecimalChar);
    match ParseDecimal(t)
    case None => Failure(NumberFormat(t))
    case Some(d) => Success(ToReal(d) / 100.0)
  }

  /** The price read depends only on the characters `getPrice` keeps: all
      other characters (spaces, commas, currency text) are ignored. */
  lemma GetPriceIgnoresOtherCharacters(s: string)
    ensures GetPrice(s) == GetPrice(Keep(s, PriceChar))
  {
    KeepIdempotent(s, PriceChar);
  }

  /** Every `int`, written the way `Integer.toString` writes it, is read back. */
  lemma GetPriceOfInt(i: Int32)
    ensures GetPrice(IntToString(i)) == Success(i)
  {
    var s := IntToString(i);
    assert forall k :: 0 <= k < |s| ==> PriceChar(s[k]) by {
      forall k | 0 <= k < |s|
        ensures PriceChar(s[k])
      {
        if i < 0 && k > 0 {
          assert s[k] == s[1..][k - 1];
        }
      }
    }
    KeepAll(s, PriceChar);
    ParseIntRoundTrip(i);
  }

  /** The text of a decimal is made of digits, '-' and '.' only. */
  lemma RenderOverDecimalChars(d: Decimal)
    ensures forall k :: 0 <= k < |Render(d)| ==> DecimalChar(Render(d)[k])
  {
    var sign := Sign(d.negative);
    var whole := NatToString(IntegralPart(d));
    var tail := if d.scale == 0 then "" else "." + FractionDigits(d.units, d.scale);
    var s := sign + whole + tail;
    assert Render(d) == s;
    forall k | 0 <= k < |s|
      ensures DecimalChar(s[k])
    {
      if k < |sign| {
        assert s[k] == '-';
      } else if k < |sign| + |whole| {
        assert s[k] == whole[k - |sign|];
      } else if d.scale > 0 {
        var f := FractionDigits(d.units, d.scale);
        assert s[k] == tail[k - |sign| - |whole|];
        assert k - |sign| - |whole| == 0 || tail[k - |sign| - |whole|] == f[k - |sign| - |whole| - 1];
      }
    }
  }

  /** A decimal followed by a suffix is read as the decimal times the
      suffix's value, truncated toward zero and saturated to the `int` range. */
  lemma GetPriceOfSuffixed(d: Decimal, suffix: char)
    requires IsSuffix(suffix)
    ensures GetPrice(Render(d) + [suffix]) == Success(Clamp(TruncTimes(d, Multiplier(suffix))))
  {
    var s := Render(d) + [suffix];
    RenderOverDecimalChars(d);
    assert forall k :: 0 <= k < |s| ==> PriceChar(s[k]) by {
      forall k | 0 <= k < |s|
        ensures PriceChar(s[k])
      {
        if k < |Render(d)| {
          assert s[k] == Render(d)[k] && DecimalChar(Render(d)[k]);
        }
      }
    }
    KeepAll(s, PriceChar);
    assert s[..|s| - 1] == Render(d);
    ParseRender(d);
  }

  /** A percent change written as a decimal followed by '%' is read as that
      decimal divided by 100. */
  lemma ParsePercentChangeOfRendered(d: Decimal)
    ensures ParsePercentChange(Render(d) + "%") == Success(ToReal(d) / 100.0)
  {
    KeepRenderedPercent(d);
    ParseRender(d);
  }

  /** Only the '%' is deleted from a rendered percent change. */
  lemma KeepRenderedPercent(d: Decimal)
    ensures Keep(Render(d) + "%", DecimalChar) == Render(d)
  {
    RenderOverDecimalChars(d);
    KeepAppend(Render(d), "%", DecimalChar);
    assert Keep("%", DecimalChar) == "";
    KeepAll(Render(d), DecimalChar);
    assert Render(d) + "" == Render(d);
  }

  /** "250k" is 250 000. */
  lemma GetPriceThousands()
    ensures GetPrice("250k") == Success(250000)
  {
    ExamplesKeptWhole();
    ReadTwoHundredFifty();
    assert "250k"[..3] == "250";
    assert TruncTimes(Decimal(false, 250, 0), 1000) == 250000 by {
      assert Pow10(0) == 1;
    }
  }

  /** "1.5m" is 1 500 000. */
  lemma GetPriceFractionalMillions()
    ensures GetPrice("1.5m") == Success(1500000)
  {
    ExamplesKeptWhole();
    ReadOneAndAHalf();
    assert "1.5m" == "1.5" + ['m'];
    KeptPriceSuffixed("1.5", 'm', Decimal(false, 15, 1));
    assert TruncTimes(Decimal(false, 15, 1), 1000000) == 1500000 by {
      assert Pow10(1) == 10;
    }
  }

  /** A kept text that ends in a suffix after a decimal reads as their product. */
  lemma KeptPriceSuffixed(number: string, suffix: char, d: Decimal)
    requires IsSuffix(suffix) && ParseDecimal(number) == Some(d)
    ensures KeptPrice(number + [suffix]) == Success(Clamp(TruncTimes(d, Multiplier(suffix))))
  {
    assert (number + [suffix])[..|number|] == number;
  }

  /** "3b" is beyond the `int` range and saturates at its maximum. */
  lemma GetPriceSaturates()
    ensures GetPrice("3b") == Success(MaxInt)
  {
    ExamplesKeptWhole();
    assert "3b"[..1] == "3";
    assert ParseDecimal("3") == Some(Decimal(false, 3, 0));
    assert TruncTimes(Decimal(false, 3, 0), 1000000000) == 3000000000 by {
      assert Pow10(0) == 1;
    }
  }

  /** The example prices are made of kept characters only. */
  lemma ExamplesKeptWhole()
    ensures Keep("250k", PriceChar) == "250k"
    ensures Keep("1.5m", PriceChar) == "1.5m"
    ensures Keep("3b", PriceChar) == "3b"
  {
    KeepAll("250k", PriceChar);
    KeepAll("1.5m", PriceChar);
    KeepAll("3b", PriceChar);
  }

  lemma ReadTwoHundredFifty()
    ensures ParseDecimal("250") == Some(Decimal(false, 250, 0))
  {
    assert DigitsValue("250") == 250 by {
      assert "250"[..2] == "25" && "25"[..1] == "2";
    }
  }

  lemma ReadOneAndAHalf()
    ensures ParseDecimal("1.5") == Some(Decimal(false, 15, 1))
  {
    var d := Decimal(false, 15, 1);
    assert Render(d) == "1.5" by {
      assert Pow10(1) == 10;
      assert IntegralPart(d) == 1;
      assert NatToString(1) == "1";
      assert FractionDigits(15, 1) == "5" by {
        assert PadDigits(5, 1) == PadDigits(0, 0) + [DigitChar(5)];
      }
    }
    ParseRender(d);
  }

  lemma ReadFivePointOne()
    ensures ParseDecimal("5.1") == Some(Decimal(false, 51, 1))
  {
    var d := Decimal(false, 51, 1);
    assert Render(d) == "5.1" by {
      assert Pow10(1) == 10;
      assert IntegralPart(d) == 5;
      assert FractionDigits(51, 1) == "1" by {
        assert PadDigits(1, 1) == PadDigits(0, 0) + [DigitChar(1)];
      }
    }
    ParseRender(d);
  }

  /** A character outside `PriceChar` (a separator, a space, a currency
      sign) can be inserted anywhere without changing the price read. */
  lemma GetPriceIgnoresCharacter(a: string, c: char, b: string)
    requires !PriceChar(c)
    ensures GetPrice(a + [c] + b) == GetPrice(a + b)
  {
    KeepAppend(a + [c], b, PriceChar);
    KeepAppend(a, [c], PriceChar);
    KeepAppend(a, b, PriceChar);
    assert Keep([c], PriceChar) == "";
    assert Keep(a, PriceChar) + "" == Keep(a, PriceChar);
    GetPriceIgnoresOtherCharacters(a + [c] + b);
    GetPriceIgnoresOtherCharacters(a + b);
  }

  /** A decimal text is made of digits, '-' and '.' only. */
  lemma DecimalTextChars(s: string)
    requires IsDecimalText(s)
    ensures forall i :: 0 <= i < |s| ==> DecimalChar(s[i])
  {
    var body := StripMinus(s);
    assert forall j :: 0 <= j < |body| ==> IsDigit(body[j]) || body[j] == '.' by {
      if !(|body| > 0 && AllDigits(body)) {
        var k :| 0 <= k < |body| && body[k] == '.' && AllDigits(body[..k]) && AllDigits(body[k + 1..]);
        forall j | 0 <= j < |body|
          ensures IsDigit(body[j]) || body[j] == '.'
        {
          if j < k {
            assert body[j] == body[..k][j];
          } else if j > k {
            assert body[j] == body[k + 1..][j - k - 1];
          }
        }
      }
    }
    forall i | 0 <= i < |s|
      ensures DecimalChar(s[i])
    {
      if |s| > 0 && s[0] == '-' && i > 0 {
        assert s[i] == body[i - 1];
      }
    }
  }

  /** A suffix letter inside a text keeps it from being an `int`. */
  lemma SuffixNotInt(t: string, i: nat)
    requires i < |t| && IsSuffix(t[i])
    ensures !IsIntText(t)
  {
    if i > 0 {
      assert !IsDigit(t[1..][i - 1]);
    }
  }

  /** A suffix letter inside a text keeps it from being a decimal. */
  lemma SuffixNotDecimal(t: string, i: nat)
    requires i < |t| && IsSuffix(t[i])
    ensures !IsDecimalText(t)
  {
    assert !DecimalChar(t[i]);
    if IsDecimalText(t) {
      DecimalTextChars(t);
    }
  }

  /** A 'k', 'm' or 'b' anywhere but at the end of the kept text makes the
      price fail: it is neither part of a decimal before a suffix nor of an
      `int`. */
  lemma GetPriceRejectsEmbeddedSuffix(s: string, i: nat)
    requires i + 1 < |Keep(s, PriceChar)| && IsSuffix(Keep(s, PriceChar)[i])
    ensures GetPrice(s).Failure?
  {
    KeptPriceRejectsEmbeddedSuffix(Keep(s, PriceChar), i);
  }

  lemma KeptPriceRejectsEmbeddedSuffix(t: string, i: nat)
    requires i + 1 < |t| && IsSuffix(t[i])
    ensures KeptPrice(t).Failure?
  {
    if IsSuffix(t[|t| - 1]) {
      SuffixNotDecimal(t[..|t| - 1], i);
    } else {
      SuffixNotInt(t, i);
    }
  }

  /** A fraction without a suffix is not an `int`: "1.5" fails. */
  lemma GetPriceRejectsBareFraction()
    ensures GetPrice("1.5").Failure?
  {
    assert Keep("1.5", PriceChar) == "1.5";
  }

  /** A text with no kept character fails at `substring(-1)`. */
  lemma GetPriceRejectsEmpty()
    ensures GetPrice("n/a") == Failure(IndexOutOfRange(-1))
  {
    assert Keep("n/a", PriceChar) == "";
  }

  /** "+5.1%" is a change of 0.051. */
  lemma ParsePercentChangeExample()
    ensures ParsePercentChange("+5.1%") == Success(0.051)
  {
    assert Keep("+5.1%", DecimalChar) == "5.1" by {
      assert "+5.1%"[1..] == "5.1%";
      assert "5.1%" == "5.1" + "%";
      KeepAppend("5.1", "%", DecimalChar);
      KeepAll("5.1", DecimalChar);
      assert Keep("%", DecimalChar) == "";
      assert "5.1" + "" == "5.1";
    }
    ReadFivePointOne();
    assert ToReal(Decimal(false, 51, 1)) == 5.1 by {
      assert Pow10(1) == 10;
    }
  }
}
