/** Decimal notation: printing with zero padding, and reading back. */
module Decimal {

  predicate IsDigit(c: char) { '0' <= c <= '9' }

  predicate AllDigits(s: string) { forall i :: 0 <= i < |s| ==> IsDigit(s[i]) }

  function DigitChar(d: nat): (c: char)
    requires d < 10
    ensures IsDigit(c) && c as int == '0' as int + d
  {
    ('0' as int + d) as char
  }

  function DigitValue(c: char): (d: nat)
    requires IsDigit(c)
    ensures d < 10 && DigitChar(d) == c
  {
    c as int - '0' as int
  }

  function Pow10(n: nat): (p: nat)
    ensures p >= 1
  {
    if n == 0 then 1 else 10 * Pow10(n - 1)
  }

  /** The number written by a run of decimal digits; the empty run is worth 0. */
  function Value(s: string): (n: nat)
    requires AllDigits(s)
  {
    if s == "" then 0 else 10 * Value(s[..|s| - 1]) + DigitValue(s[|s| - 1])
  }

  /** `format!("{n:0w$}")`: at least `w` digits, more when the number needs them. */
  function Padded(n: nat, w: nat): (s: string)
    ensures |s| >= w && AllDigits(s)
    decreases n + w
  {
    if n == 0 && w == 0 then ""
    else Padded(n / 10, if w == 0 then 0 else w - 1) + [DigitChar(n % 10)]
  }

  lemma {:induction false} PaddedReadsBack(n: nat, w: nat)
    ensures Value(Padded(n, w)) == n
    decreases n + w
  {
    if n == 0 && w == 0 {
    } else {
      var w' := if w == 0 then 0 else w - 1;
      PaddedReadsBack(n / 10, w');
      var s := Padded(n, w);
      assert s[..|s| - 1] == Padded(n / 10, w');
    }
  }

  lemma {:induction false} PaddedWidth(n: nat, w: nat)
    requires n < Pow10(w)
    ensures |Padded(n, w)| == w
  {
    if w > 0 {
      PaddedWidth(n / 10, w - 1);
    }
  }

  /** Strict lexicographic order of strings by character code, as sorting strings compares them. */
  predicate Before(a: string, b: string) {
    if b == "" then false
    else if a == "" then true
    else a[0] < b[0] || (a[0] == b[0] && Before(a[1..], b[1..]))
  }

  lemma {:induction false} BeforeAfterCommonPrefix(p: string, a: string, b: string)
    requires Before(a, b)
    ensures Before(p + a, p + b)
  {
    if p == "" {
      assert p + a == a && p + b == b;
    } else {
      BeforeAfterCommonPrefix(p[1..], a, b);
      assert (p + a)[1..] == p[1..] + a;
      assert (p + b)[1..] == p[1..] + b;
    }
  }

  lemma {:induction false} BeforeIgnoresWhatFollows(a: string, b: string, x: string, y: string)
    requires |a| == |b| && Before(a, b)
    ensures Before(a + x, b + y)
  {
    assert (a + x)[1..] == a[1..] + x;
    assert (b + y)[1..] == b[1..] + y;
    if a[0] == b[0] {
      BeforeIgnoresWhatFollows(a[1..], b[1..], x, y);
    }
  }

  /** Fixed-width decimals sort as the numbers they write. */
  lemma {:induction false} PaddedKeepsOrder(m: nat, n: nat, w: nat)
    requires m < n < Pow10(w)
    ensures Before(Padded(m, w), Padded(n, w))
  {
    assert w > 0;
    PaddedWidth(m, w);
    PaddedWidth(n, w);
    PaddedWidth(m / 10, w - 1);
    PaddedWidth(n / 10, w - 1);
    if m / 10 < n / 10 {
      PaddedKeepsOrder(m / 10, n / 10, w - 1);
      BeforeIgnoresWhatFollows(Padded(m / 10, w - 1), Padded(n / 10, w - 1), [DigitChar(m % 10)], [DigitChar(n % 10)]);
    } else {
      assert m / 10 == n / 10;
      BeforeAfterCommonPrefix(Padded(m / 10, w - 1), [DigitChar(m % 10)], [DigitChar(n % 10)]);
    }
  }
}
