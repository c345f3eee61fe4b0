/** The `java.lang.String` operations the core relies on, restricted to what
    it uses them for: deleting a character class with `replaceAll`,
    `startsWith`, and the case-insensitive test behind `Boolean.valueOf`.
 */
module Text {

  /** `s.replaceAll("[^C]", "")` for a character class `C`: the characters of
      `s` that belong to the class, in their original order. */
  function Keep(s: string, inClass: char -> bool): (r: string)
    ensures |r| <= |s|
    ensures forall i :: 0 <= i < |r| ==> inClass(r[i])
  {
    if |s| == 0 then ""
    else if inClass(s[0]) then [s[0]] + Keep(s[1..], inClass)
    else Keep(s[1..], inClass)
  }

  /** Every character kept belongs to the class, and every character of `s`
      that belongs to the class is kept. */
  lemma {:induction false} KeepMembers(s: string, inClass: char -> bool)
    ensures forall i :: 0 <= i < |Keep(s, inClass)| ==> inClass(Keep(s, inClass)[i])
    ensures forall c :: c in Keep(s, inClass) <==> c in s && inClass(c)
  {
    if |s| > 0 {
      KeepMembers(s[1..], inClass);
      assert forall c :: c in s <==> c == s[0] || c in s[1..];
    }
  }

  /** A text made only of characters of the class is kept whole. */
  lemma {:induction false} KeepAll(s: string, inClass: char -> bool)
    requires forall i :: 0 <= i < |s| ==> inClass(s[i])
    ensures Keep(s, inClass) == s
  {
    if |s| > 0 {
      assert forall i :: 0 <= i < |s[1..]| ==> inClass(s[1..][i]) by {
        forall i | 0 <= i < |s[1..]|
          ensures inClass(s[1..][i])
        {
          assert s[1..][i] == s[i + 1];
        }
      }
      KeepAll(s[1..], inClass);
      assert [s[0]] + s[1..] == s;
    }
  }

  /** Deleting a class twice deletes nothing more than deleting it once. */
  lemma KeepIdempotent(s: string, inClass: char -> bool)
    ensures Keep(Keep(s, inClass), inClass) == Keep(s, inClass)
  {
    KeepMembers(s, inClass);
    KeepAll(Keep(s, inClass), inClass);
  }

  /** Deleting a class works piecewise on a concatenation. */
  lemma {:induction false} KeepAppend(a: string, b: string, inClass: char -> bool)
    ensures Keep(a + b, inClass) == Keep(a, inClass) + Keep(b, inClass)
  {
    if |a| == 0 {
      assert a + b == b;
    } else {
      assert (a + b)[1..] == a[1..] + b;
      KeepAppend(a[1..], b, inClass);
    }
  }

  /** `s.startsWith(prefix)`. */
  predicate StartsWith(s: string, prefix: string) {
    |prefix| <= |s| && s[..|prefix|] == prefix
  }

  function LowerAscii(c: char): char {
    if 'A' <= c <= 'Z' then (c as int + 32) as char else c
  }

  /** `a.equalsIgnoreCase(b)` for texts whose letters are ASCII. */
  predicate EqualsIgnoreCase(a: string, b: string) {
    |a| == |b| && forall i :: 0 <= i < |a| ==> LowerAscii(a[i]) == LowerAscii(b[i])
  }

  /** `Boolean.valueOf(s)`: true exactly for "true" in any letter case. */
  function ParseBoolean(s: string): (b: bool)
    ensures b ==> |s| == 4
    ensures b ==> s[0] in "tT" && s[1] in "rR" && s[2] in "uU" && s[3] in "eE"
    ensures |s| == 4 && s[0] in "tT" && s[1] in "rR" && s[2] in "uU" && s[3] in "eE" ==> b
  {
    EqualsIgnoreCase(s, "true")
  }

  /** `s.indexOf(c)`, with `|s|` standing for -1: the position of the first
      `c` in `s`. */
  function IndexOf(s: string, c: char): (k: nat)
    ensures k <= |s|
    ensures k < |s| ==> s[k] == c
    ensures forall i :: 0 <= i < k ==> s[i] != c
  {
    if |s| == 0 then 0
    else if s[0] == c then 0
    else 1 + IndexOf(s[1..], c)
  }

  /** The first `c` of a text is the one that ends a prefix free of `c`. */
  lemma {:induction false} IndexOfAfter(x: string, y: string, c: char)
    requires forall i :: 0 <= i < |x| ==> x[i] != c
    requires |y| == 0 || y[0] == c
    ensures IndexOf(x + y, c) == |x|
    decreases |x|
  {
    if |x| == 0 {
      assert x + y == y;
    } else {
      assert (x + y)[0] == x[0];
      assert (x + y)[1..] == x[1..] + y;
      IndexOfAfter(x[1..], y, c);
    }
  }

  /** Concatenation regrouped, on sequences the solver need not look into. */
  lemma Associate<T>(a: seq<T>, b: seq<T>, c: seq<T>)
    ensures a + b + c == a + (b + c)
  {
  }
}
