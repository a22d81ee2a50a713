/** Strings as the browser script handles them: decimal digits, JavaScript's
    `<` on strings, prefixes and `Array.prototype.join`. */
module Text {

  predicate IsDigit(c: char) {
    '0' <= c <= '9'
  }

  predicate AllDigits(s: string) {
    forall i :: 0 <= i < |s| ==> IsDigit(s[i])
  }

  function DigitValue(c: char): (n: nat)
    requires IsDigit(c)
    ensures n < 10
  {
    c as int - '0' as int
  }

  function Digit(n: nat): (c: char)
    requires n < 10
    ensures IsDigit(c) && DigitValue(c) == n
  {
    ('0' as int + n) as char
  }

  function Pow10(w: nat): (p: nat)
    ensures p >= 1
  {
    if w == 0 then 1 else 10 * Pow10(w - 1)
  }

  /** `n` written with exactly `w` decimal digits, zero-padded on the left
      (as `String(n).padStart(w, "0")` does when `n` fits). */
  function PadDigits(n: nat, w: nat): (s: string)
    ensures |s| == w && AllDigits(s)
  {
    if w == 0 then [] else PadDigits(n / 10, w - 1) + [Digit(n % 10)]
  }

  /** The number a string of decimal digits denotes, most significant first. */
  function DigitsValue(s: string): nat
    requires AllDigits(s)
  {
    if s == [] then 0 else DigitsValue(s[..|s| - 1]) * 10 + DigitValue(s[|s| - 1])
  }

  /** JavaScript's conversion of a non-negative integer to text (`${n}`):
      decimal, no leading zero except for 0 itself. */
  function Decimal(n: nat): (s: string)
    ensures |s| >= 1 && AllDigits(s)
    ensures |s| > 1 ==> s[0] != '0'
  {
    if n < 10 then [Digit(n)] else Decimal(n / 10) + [Digit(n % 10)]
  }

  lemma {:induction false} DigitsValueBound(s: string)
    requires AllDigits(s)
    ensures DigitsValue(s) < Pow10(|s|)
  {
    if s != [] {
      DigitsValueBound(s[..|s| - 1]);
    }
  }

  /** Reading back a padded number gives the number, when it fits the width. */
  lemma {:induction false} PadDigitsRoundTrip(n: nat, w: nat)
    requires n < Pow10(w)
    ensures DigitsValue(PadDigits(n, w)) == n
  {
    if w > 0 {
      var s := PadDigits(n, w);
      assert s[..w - 1] == PadDigits(n / 10, w - 1);
      PadDigitsRoundTrip(n / 10, w - 1);
    }
  }

  /** Padding the value of a digit string to its own width gives the string back. */
  lemma {:induction false} DigitsValueRoundTrip(s: string)
    requires AllDigits(s)
    ensures PadDigits(DigitsValue(s), |s|) == s
  {
    if s != [] {
      var init := s[..|s| - 1];
      DigitsValueRoundTrip(init);
      var v := DigitsValue(s);
      assert v / 10 == DigitsValue(init) && v % 10 == DigitValue(s[|s| - 1]);
      assert s == init + [s[|s| - 1]];
    }
  }

  lemma {:induction false} DecimalRoundTrip(n: nat)
    ensures DigitsValue(Decimal(n)) == n
  {
    if n >= 10 {
      var s := Decimal(n);
      assert s[..|s| - 1] == Decimal(n / 10);
      DecimalRoundTrip(n / 10);
    }
  }

  predicate IsPrefix(p: string, s: string) {
    |p| <= |s| && s[..|p|] == p
  }

  /** JavaScript's `a < b` on strings: lexicographic on characters, a proper
      prefix before the longer string. */
  predicate LexLess(a: string, b: string) {
    if b == [] then false
    else if a == [] then true
    else if a[0] != b[0] then a[0] < b[0]
    else LexLess(a[1..], b[1..])
  }

  lemma {:induction false} LexLessIrreflexive(a: string)
    ensures !LexLess(a, a)
  {
    if a != [] {
      LexLessIrreflexive(a[1..]);
    }
  }

  /** Comparing two strings whose first parts have the same length compares
      the first parts, and the second parts when the first parts are equal. */
  lemma {:induction false} LexLessAppend(x1: string, y1: string, x2: string, y2: string)
    requires |x1| == |x2|
    ensures LexLess(x1 + y1, x2 + y2) <==> LexLess(x1, x2) || (x1 == x2 && LexLess(y1, y2))
  {
    if x1 == [] {
      assert x1 + y1 == y1 && x2 + y2 == y2;
      assert !LexLess(x1, x2);
    } else {
      assert (x1 + y1)[0] == x1[0] && (x2 + y2)[0] == x2[0];
      assert (x1 + y1)[1..] == x1[1..] + y1 && (x2 + y2)[1..] == x2[1..] + y2;
      LexLessAppend(x1[1..], y1, x2[1..], y2);
      if x1[0] == x2[0] {
        assert x1 == x2 <==> x1[1..] == x2[1..] by {
          if x1[1..] == x2[1..] {
            assert x1 == [x1[0]] + x1[1..] && x2 == [x2[0]] + x2[1..];
          }
        }
      }
    }
  }

  /** Two concatenations with first parts of equal length are equal only
      when the parts are. */
  lemma AppendInjective(x1: string, y1: string, x2: string, y2: string)
    requires |x1| == |x2| && x1 + y1 == x2 + y2
    ensures x1 == x2 && y1 == y2
  {
    assert x1 == (x1 + y1)[..|x1|] && x2 == (x2 + y2)[..|x2|];
    assert y1 == (x1 + y1)[|x1|..] && y2 == (x2 + y2)[|x2|..];
  }

  lemma DigitOrder(a: nat, b: nat)
    requires a < 10 && b < 10
    ensures Digit(a) < Digit(b) <==> a < b
    ensures Digit(a) == Digit(b) <==> a == b
  {
  }

  /** Zero-padded numbers of one width compare as strings the way they
      compare as numbers: the reason ISO dates sort chronologically. */
  lemma {:induction false} PadDigitsOrder(a: nat, b: nat, w: nat)
    requires a < Pow10(w) && b < Pow10(w)
    ensures LexLess(PadDigits(a, w), PadDigits(b, w)) <==> a < b
    ensures PadDigits(a, w) == PadDigits(b, w) <==> a == b
  {
    if w == 0 {
      assert a == 0 && b == 0;
    } else {
      PadDigitsOrder(a / 10, b / 10, w - 1);
      LexLessAppend(PadDigits(a / 10, w - 1), [Digit(a % 10)], PadDigits(b / 10, w - 1), [Digit(b % 10)]);
      DigitOrder(a % 10, b % 10);
      var pa, pb := PadDigits(a / 10, w - 1), PadDigits(b / 10, w - 1);
      if PadDigits(a, w) == PadDigits(b, w) {
        assert PadDigits(a, w)[..w - 1] == pa && PadDigits(b, w)[..w - 1] == pb;
        assert PadDigits(a, w)[w - 1] == Digit(a % 10) && PadDigits(b, w)[w - 1] == Digit(b % 10);
      }
    }
  }

  /** The longest run of digits at the front of `s`. */
  function LeadingDigits(s: string): (ds: string)
    ensures IsPrefix(ds, s) && AllDigits(ds)
    ensures |ds| < |s| ==> !IsDigit(s[|ds|])
  {
    if s != [] && IsDigit(s[0]) then [s[0]] + LeadingDigits(s[1..]) else []
  }

  lemma {:induction false} LeadingDigitsAppend(ds: string, rest: string)
    requires AllDigits(ds)
    requires rest == [] || !IsDigit(rest[0])
    ensures LeadingDigits(ds + rest) == ds
  {
    if ds == [] {
      assert ds + rest == rest;
    } else {
      assert (ds + rest)[1..] == ds[1..] + rest;
      LeadingDigitsAppend(ds[1..], rest);
      assert ds == [ds[0]] + ds[1..];
    }
  }

  /** `parts.join(sep)` for a non-empty array of strings. */
  function Join(parts: seq<string>, sep: string): string
    requires |parts| >= 1
  {
    if |parts| == 1 then parts[0] else parts[0] + sep + Join(parts[1..], sep)
  }
}
