/** The quoting `java.net.URI` applies to the path it is given by its
    multi-argument constructors: every ASCII character that may not appear
    in a path is replaced by '%' and two upper-case hexadecimal digits of
    its code. The '%' sign itself is such a character, so quoting never
    leaves a '%' that does not start an escape, and `Unquote` undoes it.
 */
module UriQuoting {

  /** The ASCII letters and digits. */
  predicate IsAlphaNum(c: char) {
    'a' <= c <= 'z' || 'A' <= c <= 'Z' || '0' <= c <= '9'
  }

  /** The ASCII characters a path may hold as they are: the unreserved
      characters (letters, digits and the marks `-_.!~*'()`), the
      punctuation `:@&=+$,` allowed in a path segment, and `;` and `/`. */
  predicate IsPathChar(c: char) {
    || IsAlphaNum(c)
    || c == '-' || c == '_' || c == '.' || c == '!' || c == '~' || c == '*' || c == '\'' || c == '(' || c == ')'
    || c == ':' || c == '@' || c == '&' || c == '=' || c == '+' || c == '$' || c == ','
    || c == ';' || c == '/'
  }

  /** The characters that are escaped: ASCII, but not allowed in a path. */
  predicate NeedsEscape(c: char) {
    c < 128 as char && !IsPathChar(c)
  }

  /** The upper-case hexadecimal digit of a value below 16. */
  function HexDigit(n: nat): (c: char)
    requires n < 16
    ensures IsUpperHexDigit(c) && HexValue(c) == n
  {
    if n < 10 then ('0' as int + n) as char else ('A' as int + n - 10) as char
  }

  /** The hexadecimal digits `Unquote` accepts, in either case. */
  predicate IsHexDigit(c: char) {
    '0' <= c <= '9' || 'A' <= c <= 'F' || 'a' <= c <= 'f'
  }

  /** The hexadecimal digits quoting writes. */
  predicate IsUpperHexDigit(c: char) {
    '0' <= c <= '9' || 'A' <= c <= 'F'
  }

  function HexValue(c: char): (n: nat)
    requires IsHexDigit(c)
    ensures n < 16
  {
    if '0' <= c <= '9' then c as int - '0' as int
    else if 'A' <= c <= 'F' then c as int - 'A' as int + 10
    else c as int - 'a' as int + 10
  }

  /** '%' followed by the two hexadecimal digits of an ASCII code. */
  function Escape(c: char): (e: string)
    requires c < 128 as char
    ensures |e| == 3 && e[0] == '%' && IsUpperHexDigit(e[1]) && IsUpperHexDigit(e[2])
    ensures (HexValue(e[1]) * 16 + HexValue(e[2])) as char == c
  {
    var code := c as int;
    ['%', HexDigit(code / 16), HexDigit(code % 16)]
  }

  /** The text one character is quoted to. */
  function QuoteChar(c: char): (q: string)
    ensures NeedsEscape(c) ==> q == Escape(c)
    ensures !NeedsEscape(c) ==> q == [c] && c != '%'
  {
    if NeedsEscape(c) then Escape(c) else [c]
  }

  /** Position `i` of `q` starts an escape: '%' and two upper-case
      hexadecimal digits. */
  predicate StartsEscape(q: string, i: int) {
    0 <= i && i + 2 < |q| && q[i] == '%' && IsUpperHexDigit(q[i + 1]) && IsUpperHexDigit(q[i + 2])
  }

  /** A text a URI path may hold: every character is allowed in a path as
      it is, lies outside ASCII, or is the '%' of an escape. In particular
      every '%' starts an escape. */
  predicate ValidPathText(q: string) {
    forall i :: 0 <= i < |q| ==> IsPathChar(q[i]) || q[i] >= 128 as char || StartsEscape(q, i)
  }

  /** The quoting of one character is valid path text. */
  lemma ValidQuoteChar(c: char)
    ensures ValidPathText(QuoteChar(c))
  {
    if NeedsEscape(c) {
      var e := Escape(c);
      assert StartsEscape(e, 0);
      assert IsAlphaNum(e[1]) && IsAlphaNum(e[2]);
    }
  }

  /** Valid path texts joined are valid path text. */
  lemma ValidPathTextAppend(a: string, b: string)
    requires ValidPathText(a) && ValidPathText(b)
    ensures ValidPathText(a + b)
  {
    var q := a + b;
    forall i | 0 <= i < |q|
      ensures IsPathChar(q[i]) || q[i] >= 128 as char || StartsEscape(q, i)
    {
      if i < |a| {
        assert q[i] == a[i];
        if StartsEscape(a, i) {
          assert q[i + 1] == a[i + 1] && q[i + 2] == a[i + 2];
        }
      } else {
        var j := i - |a|;
        assert q[i] == b[j];
        if StartsEscape(b, j) {
          assert q[i + 1] == b[j + 1] && q[i + 2] == b[j + 2];
        }
      }
    }
  }

  /** The quoting of a path, character by character. Characters outside
      ASCII are kept as they are. The result is valid path text: no
      character that a path may not hold is left, and every '%' starts an
      escape with two upper-case hexadecimal digits. */
  function Quote(s: string): (q: string)
    ensures |q| >= |s|
    ensures |s| > 0 ==> q == QuoteChar(s[0]) + Quote(s[1..])
    ensures ValidPathText(q)
  {
    if |s| == 0 then ""
    else
      ValidQuoteChar(s[0]);
      ValidPathTextAppend(QuoteChar(s[0]), Quote(s[1..]));
      QuoteChar(s[0]) + Quote(s[1..])
  }

  /** The decoding of escapes: every '%' followed by two hexadecimal digits
      stands for the character with that code; everything else is itself. */
  function Unquote(s: string): (u: string)
    ensures |u| <= |s|
    decreases |s|
  {
    if |s| == 0 then ""
    else if |s| >= 3 && s[0] == '%' && IsHexDigit(s[1]) && IsHexDigit(s[2]) then
      [(HexValue(s[1]) * 16 + HexValue(s[2])) as char] + Unquote(s[3..])
    else [s[0]] + Unquote(s[1..])
  }

  /** Decoding a quoted text gives the original text back, so no two texts
      are quoted alike. */
  lemma {:induction false} UnquoteQuote(s: string)
    ensures Unquote(Quote(s)) == s
    decreases |s|
  {
    if |s| > 0 {
      var tail := Quote(s[1..]);
      UnquoteQuoteChar(s[0], tail);
      UnquoteQuote(s[1..]);
      assert s == [s[0]] + s[1..];
    }
  }

  /** The quoting of one character decodes to that character, whatever follows. */
  lemma UnquoteQuoteChar(c: char, tail: string)
    ensures Unquote(QuoteChar(c) + tail) == [c] + Unquote(tail)
  {
    var q := QuoteChar(c) + tail;
    if NeedsEscape(c) {
      var e := Escape(c);
      assert q[0] == '%' && q[1] == e[1] && q[2] == e[2];
      assert q[3..] == tail;
    } else {
      assert q[0] == c && c != '%';
      assert q[1..] == tail;
    }
  }

  /** Different texts have different quotings. */
  lemma QuoteInjective(a: string, b: string)
    ensures Quote(a) == Quote(b) ==> a == b
  {
    UnquoteQuote(a);
    UnquoteQuote(b);
  }

  /** Quoting works on each part of a text separately. */
  lemma {:induction false} QuoteAppend(a: string, b: string)
    ensures Quote(a + b) == Quote(a) + Quote(b)
    decreases |a|
  {
    if |a| == 0 {
      assert a + b == b;
    } else {
      assert (a + b)[0] == a[0] && (a + b)[1..] == a[1..] + b;
      QuoteAppend(a[1..], b);
    }
  }

  /** Every character of the text may appear in a path as it is. */
  predicate PlainPath(s: string) {
    |s| == 0 || (IsPathChar(s[0]) && PlainPath(s[1..]))
  }

  /** `PlainPath` is the character-wise condition. */
  lemma {:induction false} PlainPathChars(s: string)
    ensures PlainPath(s) <==> forall i :: 0 <= i < |s| ==> IsPathChar(s[i])
    decreases |s|
  {
    if |s| > 0 {
      PlainPathChars(s[1..]);
      assert forall i :: 0 < i < |s| ==> s[i] == s[1..][i - 1];
    }
  }

  /** A text made only of characters a path may hold is left as it is. */
  lemma {:induction false} QuotePlain(s: string)
    requires PlainPath(s)
    ensures Quote(s) == s
    decreases |s|
  {
    if |s| > 0 {
      QuotePlain(s[1..]);
      assert s == [s[0]] + s[1..];
    }
  }

  /** A space is sent as "%20" and a '%' as "%25". */
  lemma QuoteExamples()
    ensures Quote("a b") == "a%20b"
    ensures Quote("%") == "%25"
  {
    assert Quote("b") == "b";
    assert Quote(" b") == "%20" + Quote("b");
    assert Quote("%") == Escape('%') + Quote("");
  }
}
