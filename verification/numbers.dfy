/** Java `int` values and their decimal text: `Integer.toString` (also what
    string concatenation of an `int` produces) and `Integer.parseInt`.
 */
module Numbers {
  import opened Results

  const MinInt: int := -0x8000_0000
  const MaxInt: int := 0x7FFF_FFFF

  /** A Java `int`. */
  type Int32 = x: int | -0x8000_0000 <= x <= 0x7FFF_FFFF

  /** The Java narrowing conversion from an (exact) integral value to `int`,
      which saturates at the ends of the range. */
  function Clamp(x: int): (r: Int32)
    ensures MinInt <= x <= MaxInt ==> r == x
    ensures x > MaxInt ==> r == MaxInt
    ensures x < MinInt ==> r == MinInt
  {
    if x > MaxInt then MaxInt else if x < MinInt then MinInt else x
  }

  /** How far apart two integers are. */
  function Distance(a: int, b: int): nat {
    if a <= b then b - a else a - b
  }

  /** The narrowed value is the `int` nearest to the exact one, and
      narrowing keeps the order of values. */
  lemma ClampIsNearest(x: int, y: Int32, z: int)
    ensures Distance(Clamp(x), x) <= Distance(y, x)
    ensures x <= z ==> Clamp(x) <= Clamp(z)
  {
  }

  function Pow10(n: nat): (p: nat)
    ensures p >= 1
  {
    if n == 0 then 1 else 10 * Pow10(n - 1)
  }

  predicate IsDigit(c: char) {
    '0' <= c <= '9'
  }

  /** Every character is a decimal digit (the empty string qualifies). */
  predicate AllDigits(s: string) {
    forall i :: 0 <= i < |s| ==> IsDigit(s[i])
  }

  function DigitValue(c: char): nat
    requires IsDigit(c)
  {
    c as int - '0' as int
  }

  function DigitChar(d: nat): (c: char)
    requires d < 10
    ensures IsDigit(c) && DigitValue(c) == d
  {
    ('0' as int + d) as char
  }

  /** The value of a string of decimal digits, most significant first. */
  function DigitsValue(s: string): nat
    requires AllDigits(s)
  {
    if |s| == 0 then 0 else DigitsValue(s[..|s| - 1]) * 10 + DigitValue(s[|s| - 1])
  }

  /** A digit string without a superfluous leading zero: "0" is the only
      one that starts with '0'. */
  predicate IsCanonical(s: string) {
    |s| > 0 && AllDigits(s) && (s[0] == '0' ==> |s| == 1)
  }

  /** `Integer.toString` of a non-negative value: the shortest digit string. */
  function NatToString(n: nat): (s: string)
    ensures IsCanonical(s)
    ensures DigitsValue(s) == n
    ensures s[0] == '0' ==> n == 0
  {
    if n < 10 then [DigitChar(n)]
    else
      var prefix := NatToString(n / 10);
      var s := prefix + [DigitChar(n % 10)];
      assert s[..|s| - 1] == prefix;
      s
  }

  /** `Integer.toString`: a minus sign before the magnitude of a negative value. */
  function IntToString(i: int): (s: string)
    ensures |s| > 0
    ensures i >= 0 ==> IsCanonical(s) && DigitsValue(s) == i
    ensures i < 0 ==> s[0] == '-' && IsCanonical(s[1..]) && DigitsValue(s[1..]) == -i
  {
    if i < 0 then
      var s := "-" + NatToString(-i);
      assert s[1..] == NatToString(-i);
      s
    else NatToString(i)
  }

  /** The message of a failed `checkArgument(test, "template (%s)", value)`:
      Guava substitutes the value's `toString` for `%s`. */
  function Reason(template: string, value: int): string {
    template + " (" + IntToString(value) + ")"
  }

  /** The texts `Integer.parseInt` reads: an optional sign followed by at
      least one digit. */
  predicate IsIntText(s: string) {
    && |s| > 0
    && AllDigits(s[1..])
    && (IsDigit(s[0]) || (|s| > 1 && (s[0] == '-' || s[0] == '+')))
  }

  /** The value such a text stands for, before the range check. */
  function IntTextValue(s: string): int
    requires IsIntText(s)
  {
    if s[0] == '-' then 0 - DigitsValue(s[1..]) as int
    else if s[0] == '+' then DigitsValue(s[1..])
    else DigitsValue(s)
  }

  /** A text is all digits when its head is a digit and its tail is all digits. */
  lemma AllDigitsCons(s: string)
    requires |s| > 0
    ensures AllDigits(s) <==> IsDigit(s[0]) && AllDigits(s[1..])
  {
    if IsDigit(s[0]) && AllDigits(s[1..]) {
      forall i | 0 < i < |s|
        ensures IsDigit(s[i])
      {
        assert s[i] == s[1..][i - 1];
      }
    }
  }

  /** `Integer.parseInt(s)`: an optional sign, at least one digit, and a value
      inside the `int` range; anything else is a `NumberFormatException`. */
  function ParseInt(s: string): (r: Result<Int32>)
    ensures r.Success? <==> IsIntText(s) && MinInt <= IntTextValue(s) <= MaxInt
    ensures r.Success? ==> r.value == IntTextValue(s)
    ensures r.Failure? ==> r.error == NumberFormat(s)
  {
    if |s| == 0 then Failure(NumberFormat(s))
    else
      var body := if s[0] == '-' || s[0] == '+' then s[1..] else s;
      AllDigitsCons(s);
      if |body| == 0 || !AllDigits(body) then Failure(NumberFormat(s))
      else
        var magnitude: int := DigitsValue(body);
        var v: int := if s[0] == '-' then -magnitude else magnitude;
        if MinInt <= v <= MaxInt then Success(v) else Failure(NumberFormat(s))
  }

  /** `Integer.parseInt` reads back every `int` that `Integer.toString` writes. */
  lemma ParseIntRoundTrip(i: Int32)
    ensures ParseInt(IntToString(i)) == Success(i)
  {
    var s := IntToString(i);
    if i < 0 {
      assert s[0] == '-';
    } else {
      assert IsDigit(s[0]);
    }
  }

  /** `Integer.toString` is the only canonical spelling of a value: every
      digit string without a superfluous leading zero is the text of its
      own value. */
  lemma {:induction false} NatToStringOfCanonical(s: string)
    requires IsCanonical(s)
    ensures NatToString(DigitsValue(s)) == s
    decreases |s|
  {
    if |s| > 1 {
      var prefix := s[..|s| - 1];
      assert prefix[0] == s[0];
      assert AllDigits(prefix) by {
        forall i | 0 <= i < |prefix|
          ensures IsDigit(prefix[i])
        {
          assert prefix[i] == s[i];
        }
      }
      NatToStringOfCanonical(prefix);
      var n := DigitsValue(s);
      var d := DigitValue(s[|s| - 1]);
      assert n == DigitsValue(prefix) * 10 + d;
      assert n / 10 == DigitsValue(prefix) && n % 10 == d;
      NatToStringStep(n);
      assert DigitChar(d) == s[|s| - 1];
      assert prefix + [s[|s| - 1]] == s;
    }
  }

  /** Distinct values have distinct decimal texts. */
  lemma NatToStringInjective(a: nat, b: nat)
    ensures NatToString(a) == NatToString(b) ==> a == b
  {
  }

  /** Appending a digit `d` to both `x * p + y` and `y` multiplies the
      shift `p` by ten. */
  lemma ShiftByTen(x: int, p: int, y: int, d: int, shifted: int, right: int, whole: int)
    requires shifted == 10 * p && right == y * 10 + d && whole == (x * p + y) * 10 + d
    ensures whole == x * shifted + right
  {
  }

  lemma AllDigitsAppend(a: string, b: string)
    requires AllDigits(a) && AllDigits(b)
    ensures AllDigits(a + b)
  {
    var ab := a + b;
    forall i | 0 <= i < |ab|
      ensures IsDigit(ab[i])
    {
      if i < |a| { assert ab[i] == a[i]; } else { assert ab[i] == b[i - |a|]; }
    }
  }

  /** A value of two or more digits is written as its value divided by ten,
      followed by its last digit. */
  lemma NatToStringStep(n: nat)
    requires n >= 10
    ensures NatToString(n) == NatToString(n / 10) + [DigitChar(n % 10)]
  {
  }

  /** `DigitsValue` of a concatenation: the left part is shifted by the
      length of the right part. */
  lemma {:induction false} DigitsValueAppend(a: string, b: string)
    requires AllDigits(a) && AllDigits(b)
    ensures AllDigits(a + b)
    ensures DigitsValue(a + b) == DigitsValue(a) * Pow10(|b|) + DigitsValue(b)
  {
    var ab := a + b;
    AllDigitsAppend(a, b);
    if |b| == 0 {
      assert ab == a;
    } else {
      var b' := b[..|b| - 1];
      assert ab[..|ab| - 1] == a + b';
      assert ab[|ab| - 1] == b[|b| - 1];
      DigitsValueAppend(a, b');
      var x, y, d, p := DigitsValue(a), DigitsValue(b'), DigitValue(b[|b| - 1]), Pow10(|b'|);
      ShiftByTen(x, p, y, d, Pow10(|b|), DigitsValue(b), DigitsValue(ab));
    }
  }
}
