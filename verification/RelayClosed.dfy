/**
 How a subscription the relay CLOSED is held back and reopened: message classes,
 the `retry in Ns` hint, and the backoff schedule. Times are milliseconds on one
 monotone clock.
 */
module RelayClosed {
  import opened Options
  import opened Decimal
  import opened Text

  const SECOND: nat := 1000
  const RETRY_MAX_SECONDS: nat := 30
  const RATE_LIMIT_DEFAULT_SECONDS: nat := 10
  const U32_MAX: nat := 0xFFFF_FFFF
  const U64_LIMIT: nat := 0x1_0000_0000_0000_0000

  datatype ClosedClass = Retryable | RateLimited | Terminal

  // ---- Messages ----

  predicate StartsWithAny(s: string, prefixes: seq<string>) {
    exists i :: 0 <= i < |prefixes| && prefixes[i] <= s
  }

  const TERMINAL_PREFIXES: seq<string> := [
    "restricted:", "blocked:", "invalid:", "pow:", "duplicate:", "unsupported:",
    "error: mixed search", "error: too many subscriptions"]

  function Classify(message: string): ClosedClass {
    var normalized := Lower(Trim(message));
    if "rate-limited:" <= normalized then RateLimited
    else if StartsWithAny(normalized, TERMINAL_PREFIXES) then Terminal
    else Retryable
  }

  /** The class of a CLOSED depends on neither ASCII case nor surrounding white space. */
  lemma ClassIgnoresCaseAndPadding(l: string, m: string, r: string, other: string)
    requires AllWhite(l) && AllWhite(r)
    requires SameUpToCase(m, other)
    ensures Classify(l + m + r) == Classify(other)
  {
    assert l + m + r == l + (m + r);
    TrimStartOfPadded(l, m + r);
    TrimStartKeepsTail(m, r);
    assert Trim(l + m + r) == Trim(m);
    TrimStartUpToCase(m, other);
    TrimEndUpToCase(TrimStart(m), TrimStart(other));
    assert Lower(Trim(m)) == Lower(Trim(other));
  }

  /**
   The text decides by how it begins, trimmed and lowered: one prefix limits the rate, eight end it, all else may
   retry.
   */
  lemma ClassByPrefix(message: string)
    ensures var t := Lower(Trim(message));
            var ends := "restricted:" <= t || "blocked:" <= t || "invalid:" <= t || "pow:" <= t || "duplicate:" <= t
                        || "unsupported:" <= t || "error: mixed search" <= t || "error: too many subscriptions" <= t;
            && (Classify(message).RateLimited? <==> "rate-limited:" <= t)
            && (Classify(message).Terminal? <==> ends)
            && (Classify(message).Retryable? <==> !("rate-limited:" <= t) && !ends)
  {
    var t := Lower(Trim(message));
    var ps := TERMINAL_PREFIXES;
    assert ps[0] == "restricted:" && ps[1] == "blocked:" && ps[2] == "invalid:" && ps[3] == "pow:";
    assert ps[4] == "duplicate:" && ps[5] == "unsupported:";
    assert ps[6] == "error: mixed search" && ps[7] == "error: too many subscriptions";
    assert |ps| == 8;
    assert t != "" && t[0] == 'r' && |t| > 1 && t[1] == 'a' ==> forall i :: 0 <= i < 8 ==> !(ps[i] <= t);
  }

  predicate OccursAt(s: string, pat: string, i: nat) { i + |pat| <= |s| && s[i..i + |pat|] == pat }

  /** Index of the first occurrence of `pat` in `s` at or after `from`. */
  function Find(s: string, pat: string, from: nat): (r: Option<nat>)
    ensures r.Some? ==> from <= r.value && OccursAt(s, pat, r.value)
    ensures forall i: nat :: from <= i && OccursAt(s, pat, i) ==> r.Some? && r.value <= i
    decreases |s| - from
  {
    if from + |pat| > |s| then None
    else if OccursAt(s, pat, from) then Some(from)
    else Find(s, pat, from + 1)
  }

  function TakeDigits(s: string): (d: string)
    ensures AllDigits(d) && d <= s && (|d| < |s| ==> !IsDigit(s[|d|]))
  {
    if s != "" && IsDigit(s[0]) then [s[0]] + TakeDigits(s[1..]) else ""
  }

  const RETRY_IN := "retry in "

  /** The number a text starts with; no digits or a value past `u64` is no number. */
  function LeadingNumber(s: string): (r: Option<nat>)
    ensures r.Some? ==> r.value < U64_LIMIT
  {
    var digits := TakeDigits(s);
    if digits == "" || Value(digits) >= U64_LIMIT then None else Some(Value(digits))
  }

  function NumberAfter(message: string, phrase: string): (r: Option<nat>)
    ensures r.Some? ==> r.value < U64_LIMIT
  {
    match Find(message, phrase, 0)
    case None => None
    case Some(at) => LeadingNumber(message[at + |phrase|..])
  }

  /** The seconds after the first `retry in `. */
  function RetryInSeconds(message: string): (r: Option<nat>)
    ensures r.Some? ==> r.value < U64_LIMIT
  {
    NumberAfter(message, RETRY_IN)
  }

  lemma {:induction false} TakeDigitsStops(digits: string, after: string)
    requires AllDigits(digits)
    requires after == "" || !IsDigit(after[0])
    ensures TakeDigits(digits + after) == digits
  {
    if digits == "" {
      assert digits + after == after;
    } else {
      assert (digits + after)[1..] == digits[1..] + after;
      TakeDigitsStops(digits[1..], after);
    }
  }

  lemma NumberIsTheDigits(before: string, phrase: string, digits: string, after: string)
    requires Find(before + phrase, phrase, 0) == Some(|before|)
    requires AllDigits(digits) && (after == "" || !IsDigit(after[0]))
    ensures NumberAfter(before + phrase + (digits + after), phrase)
            == if digits == "" || Value(digits) >= U64_LIMIT then None else Some(Value(digits))
  {
    TakeDigitsStops(digits, after);
    AfterThePhrase(before, phrase, digits + after);
  }

  /**
   What follows the first `retry in ` decides: its digits are the hint, leading zeros and all, unless there
   are none or they exceed 64 bits.
   */
  lemma HintIsTheDigits(before: string, digits: string, after: string)
    requires Find(before + "retry in ", "retry in ", 0) == Some(|before|)
    requires AllDigits(digits) && (after == "" || !IsDigit(after[0]))
    ensures RetryInSeconds(before + "retry in " + (digits + after))
            == if digits == "" || Value(digits) >= 0x1_0000_0000_0000_0000 then None else Some(Value(digits))
  {
    NumberIsTheDigits(before, "retry in ", digits, after);
  }

  lemma AfterThePhrase(before: string, phrase: string, tail: string)
    requires Find(before + phrase, phrase, 0) == Some(|before|)
    ensures NumberAfter(before + phrase + tail, phrase) == LeadingNumber(tail)
  {
    FirstOccurrenceStays(before + phrase, tail, phrase, |before|);
    assert (before + phrase + tail)[|before| + |phrase|..] == tail;
  }

  /** Without the phrase there is no hint. */
  lemma NoPhraseNoHint(message: string)
    requires forall i: nat :: !OccursAt(message, "retry in ", i)
    ensures RetryInSeconds(message).None?
  {
  }

  /** Every hint a relay can write in canonical form is read back exactly. */
  lemma HintReadsBack(before: string, seconds: nat, after: string)
    requires Find(before + "retry in ", "retry in ", 0) == Some(|before|)
    requires seconds < 0x1_0000_0000_0000_0000
    requires after == "" || !IsDigit(after[0])
    ensures RetryInSeconds(before + "retry in " + (Padded(seconds, 1) + after)) == Some(seconds)
  {
    PaddedReadsBack(seconds, 1);
    HintIsTheDigits(before, Padded(seconds, 1), after);
  }

  lemma OccursInHead(head: string, tail: string, pat: string, i: nat)
    requires i + |pat| <= |head|
    ensures OccursAt(head + tail, pat, i) <==> OccursAt(head, pat, i)
  {
    assert (head + tail)[i..i + |pat|] == head[i..i + |pat|];
  }

  lemma FirstOccurrenceStays(head: string, tail: string, pat: string, at: nat)
    requires Find(head, pat, 0) == Some(at) && at + |pat| == |head|
    ensures Find(head + tail, pat, 0) == Some(at)
  {
    OccursInHead(head, tail, pat, at);
    var found := Find(head + tail, pat, 0).value;
    OccursInHead(head, tail, pat, found);
  }

  // ---- Backoff ----

  function Pow2(n: nat): (p: nat)
    ensures p >= 1
  {
    if n == 0 then 1 else 2 * Pow2(n - 1)
  }

  /** `1s << min(attempts, 16)`, capped at 30 seconds. */
  function Backoff(attempts: nat): nat {
    Min(SECOND * Pow2(Min(attempts, 16)), RETRY_MAX_SECONDS * SECOND)
  }

  lemma {:induction false} Pow2Grows(m: nat, n: nat)
    requires m <= n
    ensures Pow2(m) <= Pow2(n)
  {
    if m < n { Pow2Grows(m, n - 1); }
  }

  /** Clamping the shift never shows: the delay is min(2^k, 30) seconds for every attempt count. */
  lemma BackoffIsCappedPowerOfTwo(k: nat)
    ensures Backoff(k) == SECOND * Min(Pow2(k), RETRY_MAX_SECONDS)
  {
    if k > 16 {
      assert Pow2(5) == 32;
      Pow2Grows(5, 16);
      Pow2Grows(5, k);
    }
  }

  /** Reopen schedule of one subscription; `dueAt` is an instant. */
  datatype ClosedRetry = ClosedRetry(dueAt: Option<nat>, attempts: nat, terminal: bool) {

    /** Reconcile must leave the subscription closed at instant `now`. */
    predicate Blocked(now: nat) {
      terminal || (dueAt.Some? && dueAt.value > now)
    }

    /** There is still an edge that will reopen it, or it is never to be reopened. */
    predicate Held() { terminal || dueAt.Some? }

    /** Records a CLOSED seen at `now`. */
    function Schedule(message: string, now: nat): ClosedRetry {
      match Classify(message)
      case Terminal => this.(terminal := true, dueAt := None)
      case _ => this.(dueAt := Some(now + Delay(message, attempts)), attempts := Min(attempts + 1, U32_MAX))
    }

    /** The timer arm: a delay that has elapsed stops waiting. */
    function Elapse(now: nat): ClosedRetry {
      if dueAt.Some? && dueAt.value <= now then this.(dueAt := None) else this
    }
  }

  const FRESH := ClosedRetry(None, 0, false)

  /** The wait a non-terminal CLOSED imposes after `attempts` earlier ones. */
  function Delay(message: string, attempts: nat): nat {
    if Classify(message) == RateLimited then
      var hinted := match RetryInSeconds(message) case Some(s) => s case None => RATE_LIMIT_DEFAULT_SECONDS;
      Max(Backoff(attempts), SECOND * hinted)
    else Backoff(attempts)
  }
}
