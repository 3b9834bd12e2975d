/** String operations of Python's `str` that the service relies on:
    ordering, `str(n)`, `rfind`, `lower` and `strip`. Python strings are
    sequences of code points, as Dafny's are. */
module Text {
  import opened Base

  // ---------------------------------------------------------------------
  // Ordering: Python compares strings code point by code point.
  // ---------------------------------------------------------------------

  predicate LexLess(a: string, b: string)
    decreases |a|
  {
    if |a| == 0 then |b| > 0
    else if |b| == 0 then false
    else if a[0] < b[0] then true
    else if b[0] < a[0] then false
    else LexLess(a[1..], b[1..])
  }

  lemma {:induction false} LexIrreflexive(a: string)
    ensures !LexLess(a, a)
    decreases |a|
  {
    if |a| > 0 {
      LexIrreflexive(a[1..]);
    }
  }

  lemma {:induction false} LexTransitive(a: string, b: string, c: string)
    requires LexLess(a, b) && LexLess(b, c)
    ensures LexLess(a, c)
    decreases |a|
  {
    if |a| > 0 && |b| > 0 && |c| > 0 && a[0] == b[0] && b[0] == c[0] {
      LexTransitive(a[1..], b[1..], c[1..]);
    }
  }

  lemma {:induction false} LexTotal(a: string, b: string)
    ensures a == b || LexLess(a, b) || LexLess(b, a)
    decreases |a|
  {
    if |a| > 0 && |b| > 0 && a[0] == b[0] {
      LexTotal(a[1..], b[1..]);
      if a[1..] == b[1..] {
        assert a == [a[0]] + a[1..] && b == [b[0]] + b[1..];
      }
    }
  }

  lemma LexAsymmetric(a: string, b: string)
    ensures !(LexLess(a, b) && LexLess(b, a))
  {
    if LexLess(a, b) && LexLess(b, a) {
      LexTransitive(a, b, a);
      LexIrreflexive(a);
    }
  }

  /** A proper prefix sorts first. */
  lemma {:induction false} LexLessPrefix(a: string, b: string)
    requires |a| < |b| && b[..|a|] == a
    ensures LexLess(a, b)
    decreases |a|
  {
    if |a| > 0 {
      LexLessPrefix(a[1..], b[1..]);
    }
  }

  // ---------------------------------------------------------------------
  // Decimal rendering, Python's `str(i)` for a non-negative int.
  // ---------------------------------------------------------------------

  predicate IsDigit(c: char) { 0x30 <= c as int <= 0x39 }

  function DigitChar(d: int): (c: char)
    requires 0 <= d < 10
    ensures IsDigit(c) && (c as int) - 0x30 == d
  {
    (0x30 + d) as char
  }

  function NatToString(n: nat): (s: string)
    ensures |s| >= 1
    ensures forall i | 0 <= i < |s| :: IsDigit(s[i])
    decreases n
  {
    if n < 10 then [DigitChar(n)] else NatToString(n / 10) + [DigitChar(n % 10)]
  }

  /** Python's `int(s)` on a string of decimal digits. */
  function ParseNat(s: string): nat
    requires forall i | 0 <= i < |s| :: IsDigit(s[i])
  {
    if |s| == 0 then 0
    else
      assert IsDigit(s[|s| - 1]);
      ParseNat(s[..|s| - 1]) * 10 + ((s[|s| - 1] as int) - 0x30)
  }

  /** `int(str(n)) == n`. */
  lemma {:induction false} ParseNatToString(n: nat)
    ensures ParseNat(NatToString(n)) == n
    decreases n
  {
    var s := NatToString(n);
    if n >= 10 {
      ParseNatToString(n / 10);
      assert s[..|s| - 1] == NatToString(n / 10);
    }
  }

  lemma NatToStringInjective(a: nat, b: nat)
    requires NatToString(a) == NatToString(b)
    ensures a == b
  {
    ParseNatToString(a);
    ParseNatToString(b);
  }

  // ---------------------------------------------------------------------
  // `str.rfind(sub, lo, hi)`.
  // ---------------------------------------------------------------------

  /** The highest index in `[lo, hi - |sub|]` at which `sub` occurs, or -1:
      Python's `text.rfind(sub, lo, hi)` for in-range bounds. */
  function RFind(text: string, sub: string, lo: int, hi: int): (r: int)
    requires 0 <= lo <= hi <= |text|
    ensures r == -1 || (lo <= r && r + |sub| <= hi && OccursAt(text, sub, r))
    ensures r == -1 <==> forall i | lo <= i && i + |sub| <= hi :: !OccursAt(text, sub, i)
    ensures r != -1 ==> forall i | r < i && i + |sub| <= hi :: !OccursAt(text, sub, i)
  {
    RFindDown(text, sub, lo, hi - |sub|)
  }

  function RFindDown(text: string, sub: string, lo: int, i: int): (r: int)
    requires 0 <= lo && i + |sub| <= |text|
    ensures r == -1 || (lo <= r <= i && OccursAt(text, sub, r))
    ensures r == -1 ==> forall j | lo <= j <= i :: !OccursAt(text, sub, j)
    ensures r != -1 ==> forall j | r < j <= i :: !OccursAt(text, sub, j)
    decreases i - lo
  {
    if i < lo then -1
    else if OccursAt(text, sub, i) then i
    else RFindDown(text, sub, lo, i - 1)
  }

  // ---------------------------------------------------------------------
  // Case and whitespace.
  // ---------------------------------------------------------------------

  /** `c.lower()`, restricted to ASCII letters. */
  function LowerChar(c: char): char {
    if 'A' <= c <= 'Z' then ((c as int) + 32) as char else c
  }

  function Lower(s: string): (r: string)
    ensures |r| == |s|
    ensures forall i | 0 <= i < |s| :: r[i] == LowerChar(s[i])
  {
    seq(|s|, i requires 0 <= i < |s| => LowerChar(s[i]))
  }

  /** Python's `str.isspace` on one character. */
  predicate IsSpace(c: char) {
    var n := c as int;
    || n == 0x20 || (0x09 <= n <= 0x0D) || (0x1C <= n <= 0x1F)
    || n == 0x85 || n == 0xA0 || n == 0x1680
    || (0x2000 <= n <= 0x200A) || n == 0x2028 || n == 0x2029
    || n == 0x202F || n == 0x205F || n == 0x3000
  }

  /** `not s.strip()`: the string is empty or all whitespace. */
  predicate IsBlank(s: string) {
    forall i | 0 <= i < |s| :: IsSpace(s[i])
  }
}
