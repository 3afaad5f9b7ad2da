/** Trimming and ASCII case, as Rust strings have them. */
module Text {
  /** Unicode `White_Space`, the set `str::trim` removes. */
  predicate IsWhite(c: char) {
    var n := c as int;
    9 <= n <= 13 || n == 32 || n == 0x85 || n == 0xA0 || n == 0x1680 || 0x2000 <= n <= 0x200A
    || n == 0x2028 || n == 0x2029 || n == 0x202F || n == 0x205F || n == 0x3000
  }

  ghost predicate AllWhite(s: string) { forall i :: 0 <= i < |s| ==> IsWhite(s[i]) }

  function TrimStart(s: string): string {
    if s != "" && IsWhite(s[0]) then TrimStart(s[1..]) else s
  }

  function TrimEnd(s: string): string {
    if s != "" && IsWhite(s[|s| - 1]) then TrimEnd(s[..|s| - 1]) else s
  }

  function Trim(s: string): string { TrimEnd(TrimStart(s)) }

  function LowerChar(c: char): char {
    if 'A' <= c <= 'Z' then (c as int + 32) as char else c
  }

  function Lower(s: string): (t: string)
    ensures |t| == |s| && forall i :: 0 <= i < |s| ==> t[i] == LowerChar(s[i])
  {
    seq(|s|, i requires 0 <= i < |s| => LowerChar(s[i]))
  }

  /** The leading white space that was trimmed. */
  lemma {:induction false} TrimmedOff(s: string) returns (l: string)
    ensures AllWhite(l) && s == l + TrimStart(s)
  {
    if s != "" && IsWhite(s[0]) {
      var m := TrimmedOff(s[1..]);
      l := [s[0]] + m;
      assert s == [s[0]] + s[1..];
    } else {
      l := "";
    }
  }

  lemma {:induction false} TrimStartOfPadded(l: string, s: string)
    requires AllWhite(l)
    ensures TrimStart(l + s) == TrimStart(s)
  {
    if l == "" {
      assert l + s == s;
    } else {
      assert (l + s)[1..] == l[1..] + s;
      TrimStartOfPadded(l[1..], s);
    }
  }

  lemma {:induction false} TrimEndOfPadded(s: string, r: string)
    requires AllWhite(r)
    ensures TrimEnd(s + r) == TrimEnd(s)
  {
    if r == "" {
      assert s + r == s;
    } else {
      assert (s + r)[..|s + r| - 1] == s + r[..|r| - 1];
      TrimEndOfPadded(s, r[..|r| - 1]);
    }
  }

  /** Leading trims commute with trailing padding, up to a final trailing trim. */
  lemma {:induction false} TrimStartKeepsTail(s: string, r: string)
    requires AllWhite(r)
    ensures TrimEnd(TrimStart(s + r)) == TrimEnd(TrimStart(s))
  {
    if s == "" {
      assert s + r == r + "";
      TrimStartOfPadded(r, "");
    } else if IsWhite(s[0]) {
      assert (s + r)[1..] == s[1..] + r;
      TrimStartKeepsTail(s[1..], r);
    } else {
      TrimEndOfPadded(s, r);
    }
  }

  ghost predicate SameUpToCase(s: string, t: string) {
    |s| == |t| && forall i :: 0 <= i < |s| ==> LowerChar(s[i]) == LowerChar(t[i])
  }

  lemma {:induction false} TrimStartUpToCase(s: string, t: string)
    requires SameUpToCase(s, t)
    ensures SameUpToCase(TrimStart(s), TrimStart(t))
  {
    if s != "" && IsWhite(s[0]) {
      TrimStartUpToCase(s[1..], t[1..]);
    }
  }

  lemma {:induction false} TrimEndUpToCase(s: string, t: string)
    requires SameUpToCase(s, t)
    ensures SameUpToCase(TrimEnd(s), TrimEnd(t))
  {
    if s != "" && IsWhite(s[|s| - 1]) {
      TrimEndUpToCase(s[..|s| - 1], t[..|t| - 1]);
    }
  }

  /** Lowering is the alphabet's own, and leaves every other character alone. */
  lemma LowerIsAlphabetic(c: char)
    ensures Lower("ABCDEFGHIJKLMNOPQRSTUVWXYZ") == "abcdefghijklmnopqrstuvwxyz"
    ensures c !in "ABCDEFGHIJKLMNOPQRSTUVWXYZ" ==> LowerChar(c) == c
  {
    var letters := "ABCDEFGHIJKLMNOPQRSTUVWXYZ";
    if 'A' <= c <= 'Z' {
      assert letters[c as int - 'A' as int] == c;
    }
  }
}
