/**
 * `_invoke_chain_with_retries` (backend/app/llm.py): call the model up to
 * `max_retries` times, retrying only errors that look like rate limiting, and
 * sleep between attempts for the delay the error message asks for (or an
 * exponential backoff), never more than 120 seconds.
 *
 * The model is a script: the k-th call made in a session gets `script(k)`.
 * An invocation reports the calls it consumed (`next`) and the sleeps it
 * requested, in order, instead of waiting.
 */
module Retry {
  import opened Wrappers
  import opened Text

  /** What one `chain.invoke` call does: return a message with this content, or raise with this text. */
  datatype Reply = Content(text: string) | Raised(message: string)

  type Script = nat -> Reply

  /** How `_invoke_chain_with_retries` ends. */
  datatype CallOutcome =
    | Returned(text: string)     // a call succeeded; its content
    | Reraised(message: string)  // a non-retryable error, raised again at once
    | GaveUp(message: string)    // every attempt was rate limited; the last error is raised
    | NothingToRaise             // `max_retries` was 0: `raise None` fails with a TypeError

  datatype Invocation = Invocation(outcome: CallOutcome, sleeps: seq<real>, next: nat)

  // ---------------------------------------------------------------------
  // Classification
  // ---------------------------------------------------------------------

  /** The rate-limit test: two case-sensitive markers and two case-insensitive ones. */
  predicate IsRateLimited(msg: string) {
    Contains(msg, "RESOURCE_EXHAUSTED") || Contains(msg, "429")
    || Contains(Lower(msg), "quota") || Contains(Lower(msg), "rate limit")
  }

  /** Classification in terms of occurrences: which texts make an error retryable. */
  lemma RateLimitedIff(msg: string)
    ensures IsRateLimited(msg) <==>
      (exists k :: OccursAt(msg, "RESOURCE_EXHAUSTED", k)) || (exists k :: OccursAt(msg, "429", k))
      || (exists k :: OccursAt(Lower(msg), "quota", k)) || (exists k :: OccursAt(Lower(msg), "rate limit", k))
  {
    ContainsIff(msg, "RESOURCE_EXHAUSTED");
    ContainsIff(msg, "429");
    ContainsIff(Lower(msg), "quota");
    ContainsIff(Lower(msg), "rate limit");
  }

  /** Text that `lower()` leaves as it is: no ASCII capital. */
  predicate NoCapitals(s: string) {
    forall i :: 0 <= i < |s| ==> !('A' <= s[i] <= 'Z')
  }

  lemma LowerOfLower(s: string)
    requires NoCapitals(s)
    ensures Lower(s) == s
  {
  }

  /** `RESOURCE_EXHAUSTED` is matched case-sensitively: the status in lower case is a fatal error. */
  lemma LowerCaseStatusIsFatal(msg: string)
    requires msg == "resource_exhausted"
    ensures !IsRateLimited(msg)
  {
    assert NoCapitals(msg);
    LowerOfLower(msg);
    assert 'R' !in msg && '4' !in msg && 'q' !in msg && ' ' !in msg;
    WithoutMarkerChars(msg);
  }

  /** A message lacking a character of each marker is not rate limited. */
  lemma WithoutMarkerChars(msg: string)
    requires 'R' !in msg && '4' !in msg && 'q' !in Lower(msg) && ' ' !in Lower(msg)
    ensures !IsRateLimited(msg)
  {
    FindNeedsChar(msg, "RESOURCE_EXHAUSTED", 'R');
    FindNeedsChar(msg, "429", '4');
    FindNeedsChar(Lower(msg), "quota", 'q');
    FindNeedsChar(Lower(msg), "rate limit", ' ');
  }

  /**
   * The two lower-case markers are matched whatever their case: an error is
   * retried exactly when its message holds `RESOURCE_EXHAUSTED` or `429` as
   * written, or a five-character piece that lowers to `quota`, or a
   * ten-character piece that lowers to `rate limit`.
   */
  lemma RateLimitedAnyCase(msg: string)
    ensures IsRateLimited(msg) <==>
      Contains(msg, "RESOURCE_EXHAUSTED") || Contains(msg, "429")
      || (exists k :: LowersTo(msg, "quota", k))
      || (exists k :: LowersTo(msg, "rate limit", k))
  {
    ContainsIff(Lower(msg), "quota");
    ContainsIff(Lower(msg), "rate limit");
    forall k ensures OccursAt(Lower(msg), "quota", k) <==> LowersTo(msg, "quota", k) {
      LowerOccursAt(msg, "quota", k);
    }
    forall k ensures OccursAt(Lower(msg), "rate limit", k) <==> LowersTo(msg, "rate limit", k) {
      LowerOccursAt(msg, "rate limit", k);
    }
  }

  /** A piece of the message that lowers to `quota` makes the error retryable, whatever its case. */
  lemma QuotaAnyCase(msg: string, k: nat)
    requires k + 5 <= |msg| && Lower(msg[k..k + 5]) == "quota"
    ensures IsRateLimited(msg)
  {
    LowerOccursAt(msg, "quota", k);
    ContainsIff(Lower(msg), "quota");
  }

  /** A piece of the message that lowers to `rate limit` makes the error retryable, whatever its case. */
  lemma RateLimitAnyCase(msg: string, k: nat)
    requires k + 10 <= |msg| && Lower(msg[k..k + 10]) == "rate limit"
    ensures IsRateLimited(msg)
  {
    LowerOccursAt(msg, "rate limit", k);
    ContainsIff(Lower(msg), "rate limit");
  }

  // ---------------------------------------------------------------------
  // The two delay patterns
  // ---------------------------------------------------------------------

  predicate AllDigits(s: string) {
    forall i :: 0 <= i < |s| ==> IsDigit(s[i])
  }

  /** `\w` on one character: an ASCII letter or digit, `_`, or any non-ASCII character. */
  predicate IsWordChar(c: char) {
    'a' <= c <= 'z' || 'A' <= c <= 'Z' || IsDigit(c) || c == '_' || c as int >= 128
  }

  predicate AllNonWord(s: string) {
    forall i :: 0 <= i < |s| ==> !IsWordChar(s[i])
  }

  /** The end of the run of digits starting at `i`. */
  function DigitEnd(s: string, i: nat): (r: nat)
    requires i <= |s|
    ensures i <= r <= |s|
    ensures AllDigits(s[i..r])
    ensures r < |s| ==> !IsDigit(s[r])
    decreases |s| - i
  {
    if i < |s| && IsDigit(s[i]) then
      var r := DigitEnd(s, i + 1);
      assert s[i..r] == [s[i]] + s[i + 1..r];
      r
    else i
  }

  /** The end of the run of non-word characters starting at `i`. */
  function NonWordEnd(s: string, i: nat): (r: nat)
    requires i <= |s|
    ensures i <= r <= |s|
    ensures AllNonWord(s[i..r])
    ensures r < |s| ==> IsWordChar(s[r])
    decreases |s| - i
  {
    if i < |s| && !IsWordChar(s[i]) then
      var r := NonWordEnd(s, i + 1);
      assert s[i..r] == [s[i]] + s[i + 1..r];
      r
    else i
  }

  /** A run that ends at `j` ends where the digit scan stops. */
  lemma {:induction false} DigitEndAt(s: string, i: nat, j: nat)
    requires i <= j <= |s| && AllDigits(s[i..j])
    requires j < |s| ==> !IsDigit(s[j])
    ensures DigitEnd(s, i) == j
    decreases j - i
  {
    if i < j {
      assert s[i..j][0] == s[i];
      assert s[i + 1..j] == s[i..j][1..];
      DigitEndAt(s, i + 1, j);
    }
  }

  lemma {:induction false} NonWordEndAt(s: string, i: nat, j: nat)
    requires i <= j <= |s| && AllNonWord(s[i..j])
    requires j < |s| ==> IsWordChar(s[j])
    ensures NonWordEnd(s, i) == j
    decreases j - i
  {
    if i < j {
      assert s[i..j][0] == s[i];
      assert s[i + 1..j] == s[i..j][1..];
      NonWordEndAt(s, i + 1, j);
    }
  }

  /** The value of a string of decimal digits, as `int()` and `float()` read it. */
  function Number(d: string): nat
    requires AllDigits(d)
  {
    if d == [] then 0 else 10 * Number(d[..|d| - 1]) + (d[|d| - 1] as int - '0' as int)
  }

  function Pow10(n: nat): (r: nat)
    ensures r >= 1
  {
    if n == 0 then 1 else 10 * Pow10(n - 1)
  }

  function Pow2(n: nat): (r: nat)
    ensures r >= 1
  {
    if n == 0 then 1 else 2 * Pow2(n - 1)
  }

  /** `float("a.b")`, or `float("a")` when `b` is empty, without rounding. */
  function Decimal(a: string, b: string): real
    requires AllDigits(a) && AllDigits(b)
  {
    Number(a) as real + Number(b) as real / Pow10(|b|) as real
  }

  /** A number without a fraction is its whole part. */
  lemma DecimalWhole(a: string)
    requires AllDigits(a)
    ensures Decimal(a, "") == Number(a) as real
  {
    assert Number("") == 0 && Pow10(0) == 1;
  }

  /** The two patterns the delay is read from. */
  datatype Pattern =
    | RetryIn     // retry in (\d+(?:\.\d+)?)s
    | RetryDelay  // retryDelay\W*(\d+)s

  /**
   * The number a pattern captures when it matches at `k`. Each repetition in
   * the patterns is followed by a character it cannot consume, so the
   * matcher's backtracking never shortens a run: every run is taken whole.
   */
  function MatchAt(p: Pattern, s: string, k: nat): Option<real> {
    match p
    case RetryIn =>
      if !OccursAt(s, "retry in ", k) then None
      else
        var e := DigitEnd(s, k + 9);
        if e == k + 9 || e == |s| then None
        else if s[e] == 's' then Some(Decimal(s[k + 9..e], ""))
        else if s[e] == '.' then
          var f := DigitEnd(s, e + 1);
          if f > e + 1 && f < |s| && s[f] == 's' then Some(Decimal(s[k + 9..e], s[e + 1..f])) else None
        else None
    case RetryDelay =>
      if !OccursAt(s, "retryDelay", k) then None
      else
        var w := NonWordEnd(s, k + 10);
        var e := DigitEnd(s, w);
        if e > w && e < |s| && s[e] == 's' then Some(Decimal(s[w..e], "")) else None
  }

  /** `re.search`: the least index at or after `k` where the pattern matches, or -1. */
  function Search(p: Pattern, s: string, k: nat): (r: int)
    ensures r == -1 || (k <= r && MatchAt(p, s, r).Some?)
    ensures forall j :: k <= j < (if r < 0 then |s| + 1 else r) ==> MatchAt(p, s, j).None?
    decreases |s| + 1 - k
  {
    if k > |s| then -1
    else if MatchAt(p, s, k).Some? then k
    else Search(p, s, k + 1)
  }

  /**
   * The text `retry in (\d+(?:\.\d+)?)s` matches at `k`, piece by piece,
   * with the whole part `a` and the fraction `b` (empty when absent).
   */
  predicate RetryInText(s: string, k: nat, a: string, b: string) {
    a != [] && AllDigits(a) && AllDigits(b)
    && OccursAt(s, "retry in ", k) && OccursAt(s, a, k + 9)
    && var e := k + 9 + |a|;
      if b == [] then OccursAt(s, "s", e)
      else OccursAt(s, ".", e) && b != [] && OccursAt(s, b, e + 1) && OccursAt(s, "s", e + 1 + |b|)
  }

  /** The text `retryDelay\W*(\d+)s` matches at `k`, with the separator `w` and the number `a`. */
  predicate RetryDelayText(s: string, k: nat, w: string, a: string) {
    AllNonWord(w) && a != [] && AllDigits(a)
    && OccursAt(s, "retryDelay", k) && OccursAt(s, w, k + 10) && OccursAt(s, a, k + 10 + |w|)
    && OccursAt(s, "s", k + 10 + |w| + |a|)
  }

  /** The `retry in` pattern matches wherever its text occurs, and captures that number. */
  lemma RetryInComplete(s: string, k: nat, a: string, b: string)
    requires RetryInText(s, k, a, b)
    ensures MatchAt(RetryIn, s, k) == Some(Decimal(a, b))
  {
    var e := k + 9 + |a|;
    assert s[e] == s[e..e + 1][0];
    DigitEndAt(s, k + 9, e);
    if b != [] {
      var f := e + 1 + |b|;
      assert s[f] == s[f..f + 1][0];
      DigitEndAt(s, e + 1, f);
    }
  }

  /** Every match of the `retry in` pattern is an occurrence of its text. */
  lemma RetryInSound(s: string, k: nat)
    requires MatchAt(RetryIn, s, k).Some?
    ensures exists a, b :: RetryInText(s, k, a, b) && MatchAt(RetryIn, s, k) == Some(Decimal(a, b))
  {
    var e := DigitEnd(s, k + 9);
    if s[e] == 's' {
      RetryInWhole(s, k, e);
    } else {
      RetryInFraction(s, k, e, DigitEnd(s, e + 1));
    }
  }

  lemma RetryInWhole(s: string, k: nat, e: nat)
    requires OccursAt(s, "retry in ", k) && e == DigitEnd(s, k + 9) && k + 9 < e < |s| && s[e] == 's'
    ensures RetryInText(s, k, s[k + 9..e], "") && MatchAt(RetryIn, s, k) == Some(Decimal(s[k + 9..e], ""))
  {
    assert s[e..e + 1] == [s[e]];
  }

  lemma RetryInFraction(s: string, k: nat, e: nat, f: nat)
    requires OccursAt(s, "retry in ", k) && e == DigitEnd(s, k + 9) && k + 9 < e < |s| && s[e] == '.'
    requires f == DigitEnd(s, e + 1) && e + 1 < f < |s| && s[f] == 's'
    ensures RetryInText(s, k, s[k + 9..e], s[e + 1..f]) && MatchAt(RetryIn, s, k) == Some(Decimal(s[k + 9..e], s[e + 1..f]))
  {
    assert s[e..e + 1] == [s[e]];
    assert s[f..f + 1] == [s[f]];
  }

  /** The `retryDelay` pattern matches wherever its text occurs, and captures that number. */
  lemma RetryDelayComplete(s: string, k: nat, w: string, a: string)
    requires RetryDelayText(s, k, w, a)
    ensures MatchAt(RetryDelay, s, k) == Some(Decimal(a, ""))
  {
    var p := k + 10 + |w|;
    var e := p + |a|;
    assert s[p] == s[p..e][0];
    NonWordEndAt(s, k + 10, p);
    assert s[e] == s[e..e + 1][0];
    DigitEndAt(s, p, e);
  }

  lemma RetryDelaySound(s: string, k: nat)
    requires MatchAt(RetryDelay, s, k).Some?
    ensures exists w, a :: RetryDelayText(s, k, w, a) && MatchAt(RetryDelay, s, k) == Some(Decimal(a, ""))
  {
    var p := NonWordEnd(s, k + 10);
    var e := DigitEnd(s, p);
    assert s[e..e + 1] == [s[e]];
    assert RetryDelayText(s, k, s[k + 10..p], s[p..e]);
  }

  // ---------------------------------------------------------------------
  // Delay and wait
  // ---------------------------------------------------------------------

  /** The delay for a rate-limited error on the given attempt (numbered from 0). */
  function Delay(msg: string, attempt: nat): real {
    var i := Search(RetryIn, msg, 0);
    if i >= 0 then MatchAt(RetryIn, msg, i).value
    else
      var j := Search(RetryDelay, msg, 0);
      if j >= 0 then MatchAt(RetryDelay, msg, j).value
      else (Pow2(attempt) * 5) as real
  }

  /** The argument of `time.sleep`: the delay, clamped to 120 seconds. */
  function Wait(msg: string, attempt: nat): (r: real)
    ensures r <= 120.0
    ensures r == Delay(msg, attempt) || (r == 120.0 && Delay(msg, attempt) > 120.0)
  {
    if Delay(msg, attempt) < 120.0 then Delay(msg, attempt) else 120.0
  }

  lemma DecimalNonNegative(a: string, b: string)
    requires AllDigits(a) && AllDigits(b)
    ensures Decimal(a, b) >= 0.0
  {
    var q := Number(b) as real / Pow10(|b|) as real;
    assert q * Pow10(|b|) as real == Number(b) as real;
  }

  /** No delay is negative, so neither is any sleep. */
  lemma WaitNonNegative(msg: string, attempt: nat)
    ensures Wait(msg, attempt) >= 0.0
  {
    var i := Search(RetryIn, msg, 0);
    if i >= 0 {
      var e := DigitEnd(msg, i + 9);
      var f := if msg[e] == '.' then DigitEnd(msg, e + 1) else e + 1;
      DecimalNonNegative(msg[i + 9..e], if msg[e] == '.' then msg[e + 1..f] else "");
    } else {
      var j := Search(RetryDelay, msg, 0);
      if j >= 0 {
        var w := NonWordEnd(msg, j + 10);
        DecimalNonNegative(msg[w..DigitEnd(msg, w)], "");
      }
    }
  }

  /** A message saying `retry in a.b s` at its first such place waits `a.b` seconds, up to 120. */
  lemma DelayFromRetryIn(msg: string, attempt: nat, k: nat, a: string, b: string)
    requires RetryInText(msg, k, a, b)
    requires forall j, a', b' :: 0 <= j < k ==> !RetryInText(msg, j, a', b')
    ensures Delay(msg, attempt) == Decimal(a, b)
  {
    RetryInComplete(msg, k, a, b);
    var i := Search(RetryIn, msg, 0);
    assert 0 <= i <= k;
    if i < k {
      RetryInSound(msg, i);
    }
  }

  /** Without a `retry in` text, the first `retryDelay` text decides the delay. */
  lemma DelayFromRetryDelay(msg: string, attempt: nat, k: nat, w: string, a: string)
    requires forall j, a', b' :: !RetryInText(msg, j, a', b')
    requires RetryDelayText(msg, k, w, a)
    requires forall j, w', a' :: 0 <= j < k ==> !RetryDelayText(msg, j, w', a')
    ensures Delay(msg, attempt) == Number(a) as real
  {
    var i := Search(RetryIn, msg, 0);
    if i >= 0 {
      RetryInSound(msg, i);
    }
    RetryDelayComplete(msg, k, w, a);
    var j := Search(RetryDelay, msg, 0);
    assert 0 <= j <= k;
    if j < k {
      RetryDelaySound(msg, j);
    }
    assert Delay(msg, attempt) == Decimal(a, "");
    DecimalWhole(a);
  }

  /** With neither text in the message, the delay is the backoff 5 * 2^attempt. */
  lemma DelayBackoff(msg: string, attempt: nat)
    requires forall j, a, b :: !RetryInText(msg, j, a, b)
    requires forall j, w, a :: !RetryDelayText(msg, j, w, a)
    ensures Delay(msg, attempt) == (5 * Pow2(attempt)) as real
  {
    var i := Search(RetryIn, msg, 0);
    if i >= 0 {
      RetryInSound(msg, i);
    }
    var j := Search(RetryDelay, msg, 0);
    if j >= 0 {
      RetryDelaySound(msg, j);
    }
  }

  // ---------------------------------------------------------------------
  // The attempt loop
  // ---------------------------------------------------------------------

  /**
   * What the loop does with an error: whether to try again, and how long to
   * sleep first on a given attempt. The loop's properties hold for any policy;
   * the source's own is `Backoff`.
   */
  datatype Policy = Policy(retryable: string -> bool, wait: (string, nat) -> real)

  const Backoff: Policy := Policy(IsRateLimited, Wait)

  /** A reply that the loop answers with a sleep and another attempt. */
  predicate Retryable(p: Policy, r: Reply) {
    r.Raised? && p.retryable(r.message)
  }

  /**
   * The attempts from number `attempt` on, with the next call answered by
   * `script(cursor)` and `last` the error of the previous attempt.
   */
  function Attempts(p: Policy, script: Script, cursor: nat, attempt: nat, maxRetries: nat, last: Option<string>): (r: Invocation)
    requires attempt <= maxRetries
    ensures cursor <= r.next <= cursor + (maxRetries - attempt)
    decreases maxRetries - attempt
  {
    if attempt == maxRetries then
      Invocation(if last.None? then NothingToRaise else GaveUp(last.value), [], cursor)
    else
      match script(cursor)
      case Content(t) => Invocation(Returned(t), [], cursor + 1)
      case Raised(m) =>
        if !p.retryable(m) then Invocation(Reraised(m), [], cursor + 1)
        else
          var rest := Attempts(p, script, cursor + 1, attempt + 1, maxRetries, Some(m));
          Invocation(rest.outcome, [p.wait(m, attempt)] + rest.sleeps, rest.next)
  }

  /**
   * How an invocation ends: the number of sleeps, and the call before `next`
   * as the success returned or the error raised.
   */
  lemma {:induction false} AttemptsEnd(p: Policy, script: Script, cursor: nat, attempt: nat, maxRetries: nat, last: Option<string>, r: Invocation)
    requires attempt <= maxRetries && r == Attempts(p, script, cursor, attempt, maxRetries, last)
    ensures |r.sleeps| == r.next - cursor - (if r.outcome.Returned? || r.outcome.Reraised? then 1 else 0)
    ensures r.outcome.Returned? ==> script(r.next - 1) == Content(r.outcome.text)
    ensures r.outcome.Reraised? ==> script(r.next - 1) == Raised(r.outcome.message) && !p.retryable(r.outcome.message)
    ensures r.outcome.GaveUp? ==> r.next == cursor + (maxRetries - attempt)
    ensures r.outcome.GaveUp? && r.next > cursor ==> script(r.next - 1) == Raised(r.outcome.message)
    ensures r.outcome.GaveUp? && r.next == cursor ==> last == Some(r.outcome.message)
    ensures r.outcome.NothingToRaise? ==> r.next == cursor && last.None? && attempt == maxRetries
    decreases maxRetries - attempt
  {
    if attempt < maxRetries && Retryable(p, script(cursor)) {
      var m := script(cursor).message;
      var rest := Attempts(p, script, cursor + 1, attempt + 1, maxRetries, Some(m));
      AttemptsEnd(p, script, cursor + 1, attempt + 1, maxRetries, Some(m), rest);
      assert r == Invocation(rest.outcome, [p.wait(m, attempt)] + rest.sleeps, rest.next);
    }
  }

  /** The `j`-th sleep follows a retryable error and waits what the policy gives for it. */
  lemma {:induction false} AttemptsSleep(p: Policy, script: Script, cursor: nat, attempt: nat, maxRetries: nat, last: Option<string>, r: Invocation, j: nat)
    requires attempt <= maxRetries && r == Attempts(p, script, cursor, attempt, maxRetries, last)
    requires j < |r.sleeps|
    ensures Retryable(p, script(cursor + j))
    ensures r.sleeps[j] == p.wait(script(cursor + j).message, attempt + j)
    decreases j
  {
    var m := script(cursor).message;
    var rest := Attempts(p, script, cursor + 1, attempt + 1, maxRetries, Some(m));
    assert attempt < maxRetries && Retryable(p, script(cursor)) && r.sleeps == [p.wait(m, attempt)] + rest.sleeps;
    if j > 0 {
      AttemptsSleep(p, script, cursor + 1, attempt + 1, maxRetries, Some(m), rest, j - 1);
      assert r.sleeps[j] == rest.sleeps[j - 1];
      assert cursor + 1 + (j - 1) == cursor + j;
    }
  }

  /** `_invoke_chain_with_retries(chain, inputs, max_retries)`. */
  function Invoke(script: Script, cursor: nat, maxRetries: nat): Invocation {
    Attempts(Backoff, script, cursor, 0, maxRetries, None)
  }

  /** The default of three attempts. */
  const MaxRetries := 3

  /**
   * What the loop promises under any policy: at most `max_retries` calls; a
   * success returns at once; an error the policy does not retry is raised at
   * once, without a sleep; the last error is raised only after `max_retries`
   * retryable failures, each followed by its sleep (the last one too).
   */
  lemma AttemptsContract(p: Policy, script: Script, cursor: nat, maxRetries: nat, r: Invocation)
    requires r == Attempts(p, script, cursor, 0, maxRetries, None)
    ensures r.next - cursor <= maxRetries
    ensures forall k :: cursor <= k < cursor + |r.sleeps| ==>
      script(k).Raised? && p.retryable(script(k).message) && r.sleeps[k - cursor] == p.wait(script(k).message, k - cursor)
    ensures r.outcome.Returned? ==> |r.sleeps| == r.next - cursor - 1 && script(r.next - 1) == Content(r.outcome.text)
    ensures r.outcome.Reraised? ==>
      |r.sleeps| == r.next - cursor - 1 && script(r.next - 1) == Raised(r.outcome.message) && !p.retryable(r.outcome.message)
    ensures r.outcome.GaveUp? ==>
      r.next == cursor + maxRetries && |r.sleeps| == maxRetries && script(r.next - 1) == Raised(r.outcome.message)
    ensures r.outcome.NothingToRaise? <==> maxRetries == 0
  {
    AttemptsEnd(p, script, cursor, 0, maxRetries, None, r);
    forall k | cursor <= k < cursor + |r.sleeps|
      ensures script(k).Raised? && p.retryable(script(k).message) && r.sleeps[k - cursor] == p.wait(script(k).message, k - cursor)
    {
      AttemptsSleep(p, script, cursor, 0, maxRetries, None, r, k - cursor);
    }
  }

  /** Under the source's policy a sleep lies between 0 and 120 seconds. */
  lemma BackoffStep(reply: Reply, attempt: nat, w: real)
    requires Retryable(Backoff, reply) && w == Backoff.wait(reply.message, attempt)
    ensures 0.0 <= w <= 120.0
  {
    WaitNonNegative(reply.message, attempt);
  }

  /** No sleep is negative or longer than 120 seconds. */
  lemma InvokeSleepsBounded(script: Script, cursor: nat, maxRetries: nat, r: Invocation)
    requires r == Invoke(script, cursor, maxRetries)
    ensures forall j :: 0 <= j < |r.sleeps| ==> 0.0 <= r.sleeps[j] <= 120.0
  {
    forall j | 0 <= j < |r.sleeps| ensures 0.0 <= r.sleeps[j] <= 120.0 {
      AttemptsSleep(Backoff, script, cursor, 0, maxRetries, None, r, j);
      BackoffStep(script(cursor + j), j, r.sleeps[j]);
    }
  }

  /** A policy none of whose sleeps is negative or longer than 120 seconds. */
  ghost predicate BoundedWaits(p: Policy) {
    forall m, a :: 0.0 <= p.wait(m, a) <= 120.0
  }

  /** The source's policy is one. */
  lemma BackoffBounded()
    ensures BoundedWaits(Backoff)
  {
    forall m, a ensures 0.0 <= Backoff.wait(m, a) <= 120.0 {
      WaitNonNegative(m, a);
    }
  }

  /** Under such a policy every sleep of an invocation is in bounds. */
  lemma AttemptsSleepsBounded(p: Policy, script: Script, cursor: nat, maxRetries: nat, r: Invocation)
    requires BoundedWaits(p) && r == Attempts(p, script, cursor, 0, maxRetries, None)
    ensures forall j :: 0 <= j < |r.sleeps| ==> 0.0 <= r.sleeps[j] <= 120.0
  {
    forall j | 0 <= j < |r.sleeps| ensures 0.0 <= r.sleeps[j] <= 120.0 {
      AttemptsSleep(p, script, cursor, 0, maxRetries, None, r, j);
    }
  }

  /** A first call that succeeds is the only call, with no sleep. */
  lemma SuccessReturnsAtOnce(script: Script, cursor: nat, maxRetries: nat)
    requires maxRetries > 0 && script(cursor).Content?
    ensures Invoke(script, cursor, maxRetries) == Invocation(Returned(script(cursor).text), [], cursor + 1)
  {
  }

  /** The attempts after a prefix of recorded sleeps: the loop's view of the remaining work. */
  function After(sleeps: seq<real>, r: Invocation): Invocation {
    Invocation(r.outcome, sleeps + r.sleeps, r.next)
  }

  /**
   * The loop of `_invoke_chain_with_retries`, with `last_exc` and the attempt
   * counter; the source runs it with the policy `Backoff`.
   */
  method InvokeWithRetries(p: Policy, script: Script, cursor: nat, maxRetries: nat) returns (r: Invocation)
    ensures r == Attempts(p, script, cursor, 0, maxRetries, None)
  {
    var last: Option<string> := None;
    var sleeps: seq<real> := [];
    var attempt := 0;
    var next := cursor;
    while attempt < maxRetries
      invariant attempt <= maxRetries && next == cursor + attempt
      invariant Attempts(p, script, cursor, 0, maxRetries, None) == After(sleeps, Attempts(p, script, next, attempt, maxRetries, last))
    {
      var reply := script(next);
      match reply
      case Content(t) =>
        return Invocation(Returned(t), sleeps, next + 1);
      case Raised(m) =>
        if !p.retryable(m) {
          return Invocation(Reraised(m), sleeps, next + 1);
        }
        var w := p.wait(m, attempt);
        ghost var rest := Attempts(p, script, next + 1, attempt + 1, maxRetries, Some(m));
        assert sleeps + ([w] + rest.sleeps) == (sleeps + [w]) + rest.sleeps;
        last := Some(m);
        sleeps := sleeps + [w];
        attempt := attempt + 1;
        next := next + 1;
    }
    if last.None? {
      return Invocation(NothingToRaise, sleeps, next);
    }
    r := Invocation(GaveUp(last.value), sleeps, next);
  }
}
