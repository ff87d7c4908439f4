/** The bounded retry loop around one GitHub request, over an arbitrary sequence of answers. */
module RequestRetry {
  import opened Numbers
  import opened Wrappers

  const MAX_ATTEMPTS: nat := 5
  const MAX_WAIT: nat := 300
  const U32_RANGE: nat := 0x1_0000_0000

  /**
    What the retry decision reads from a response: the status, the parsed `retry-after`, the remaining quota
    and its reset time, the clock, and whether the body names a secondary rate limit.
  */
  datatype Response = Response(status: nat, retryAfter: Option<nat>, remaining: Option<nat>,
                               reset: Option<nat>, now: nat, secondaryLimit: bool)

  datatype Reason = RetryAfter | QuotaReset | SecondaryFallback

  datatype RetryDecision = RetryDecision(wait: nat, reason: Reason)

  datatype Outcome = Final(response: Response) | RateLimited(decision: RetryDecision) | TransportFailed

  function Pow2(n: nat): nat {
    if n == 0 then 1 else 2 * Pow2(n - 1)
  }

  /** `1_u64.checked_shl(shift)`. */
  function CheckedShiftOne(shift: nat): Option<nat> {
    if shift < 64 then Some(Pow2(shift)) else None
  }

  /** `secondary_limit_backoff`, with its truncating cast of the attempt to 32 bits. */
  function SecondaryLimitBackoff(attempt: nat): nat {
    var multiplier := match CheckedShiftOne(attempt % U32_RANGE) case Some(m) => m case None => 16;
    60 * Min(multiplier, 16)
  }

  function ResetWait(r: Response): Option<nat> {
    match r.reset
    case None => None
    case Some(reset) => Some(if reset > r.now then reset - r.now else 0)
  }

  predicate IsLimitStatus(status: nat) {
    status == 403 || status == 429
  }

  /** `github_retry_decision`. */
  function Decide(r: Response, attempt: nat): Option<RetryDecision> {
    if !IsLimitStatus(r.status) then None
    else if r.retryAfter.Some? then Some(RetryDecision(r.retryAfter.value, RetryAfter))
    else if r.remaining == Some(0) then
      Some(RetryDecision(match ResetWait(r) case Some(w) => w case None => 60, QuotaReset))
    else if r.status == 429 || r.secondaryLimit then
      Some(RetryDecision(SecondaryLimitBackoff(attempt), SecondaryFallback))
    else None
  }

  type Answers = nat -> Option<Response>

  /** The loop leaves at this attempt: transport failure, no retry, last attempt, or too long a wait. */
  predicate StopsAt(answers: Answers, attempt: nat) {
    match answers(attempt)
    case None => true
    case Some(r) =>
      match Decide(r, attempt)
      case None => true
      case Some(d) => attempt + 1 >= MAX_ATTEMPTS || d.wait > MAX_WAIT
  }

  function OutcomeAt(answers: Answers, attempt: nat): Outcome {
    match answers(attempt)
    case None => TransportFailed
    case Some(r) =>
      match Decide(r, attempt)
      case None => Final(r)
      case Some(d) => if attempt + 1 >= MAX_ATTEMPTS then Final(r) else RateLimited(d)
  }

  function Sum(s: seq<nat>): nat {
    if s == [] then 0 else Sum(s[..|s| - 1]) + s[|s| - 1]
  }

  /** How long the loop waits before attempt `i + 1`. */
  ghost predicate IsWaitAfter(answers: Answers, i: nat, wait: nat) {
    answers(i).Some? && Decide(answers(i).value, i).Some? && wait == Decide(answers(i).value, i).value.wait
  }

  /**
    `sent` requests went out and `sleeps` were slept: the loop stops at the first attempt that must stop, the
    outcome is decided by that attempt's answer alone, and every earlier attempt is followed by the wait its
    own answer asked for.
  */
  ghost predicate IsExchange(answers: Answers, outcome: Outcome, sent: nat, sleeps: seq<nat>) {
    && 1 <= sent <= MAX_ATTEMPTS && StopsAt(answers, sent - 1) && outcome == OutcomeAt(answers, sent - 1)
    && (forall i: nat :: i < sent - 1 ==> !StopsAt(answers, i))
    && |sleeps| == sent - 1 && forall i :: 0 <= i < |sleeps| ==> IsWaitAfter(answers, i, sleeps[i])
  }

  /** `github_json_request`. */
  method JsonRequest(answers: Answers) returns (outcome: Outcome, sent: nat, sleeps: seq<nat>)
    ensures IsExchange(answers, outcome, sent, sleeps)
  {
    sleeps := [];
    sent := 0;
    var finalResponse: Option<Response> := None;
    for attempt := 0 to MAX_ATTEMPTS
      invariant sent == attempt && |sleeps| == attempt && finalResponse.None?
      invariant forall i: nat :: i < attempt ==> !StopsAt(answers, i)
      invariant forall i :: 0 <= i < |sleeps| ==> IsWaitAfter(answers, i, sleeps[i])
      invariant attempt < MAX_ATTEMPTS
    {
      sent := sent + 1;
      var answer := answers(attempt);
      if answer.None? {
        return TransportFailed, sent, sleeps;
      }
      var response := answer.value;
      var decision := Decide(response, attempt);
      if decision.Some? {
        if attempt + 1 >= MAX_ATTEMPTS {
          finalResponse := Some(response);
          break;
        }
        if decision.value.wait > MAX_WAIT {
          return RateLimited(decision.value), sent, sleeps;
        }
        sleeps := sleeps + [decision.value.wait];
        continue;
      }
      finalResponse := Some(response);
      break;
    }
    outcome := Final(finalResponse.value);
  }

  // ---- What a whole exchange looks like ----

  /** The contract leaves no freedom: one sequence of answers allows one exchange. */
  lemma ExchangeIsUnique(answers: Answers, o1: Outcome, n1: nat, s1: seq<nat>, o2: Outcome, n2: nat, s2: seq<nat>)
    requires IsExchange(answers, o1, n1, s1) && IsExchange(answers, o2, n2, s2)
    ensures o1 == o2 && n1 == n2 && s1 == s2
  {
    assert n1 == n2 by {
      assert !(n1 - 1 < n2 - 1) && !(n2 - 1 < n1 - 1);
    }
    assert forall i :: 0 <= i < |s1| ==> s1[i] == s2[i];
  }

  /**
    The exchange by what the responses say: every wait that was slept, the answer that ended it, and a wait that was
    refused.  A `retry-after` header comes first, then an exhausted quota with its reset time, then the fixed backoff
    of a 429 or a secondary limit.  (The fifth response is handed back whatever it says.)
  */
  lemma ExchangeIs(answers: Answers, outcome: Outcome, sent: nat, sleeps: seq<nat>)
    requires IsExchange(answers, outcome, sent, sleeps)
    ensures 1 <= sent <= 5 && |sleeps| == sent - 1
    ensures forall i :: 0 <= i < |sleeps| ==>
              && answers(i).Some?
              && var r := answers(i).value;
                 && (r.status == 403 || r.status == 429)
                 && sleeps[i] <= 300
                 && (r.retryAfter.Some? ==> sleeps[i] == r.retryAfter.value)
                 && (r.retryAfter.None? && r.remaining == Some(0) && r.reset.None? ==> sleeps[i] == 60)
                 && (r.retryAfter.None? && r.remaining == Some(0) && r.reset.Some? ==>
                       sleeps[i] == if r.reset.value > r.now then r.reset.value - r.now else 0)
                 && (r.retryAfter.None? && r.remaining != Some(0) ==>
                       i < 3 && sleeps[i] == [60, 120, 240][i] && (r.status == 429 || r.secondaryLimit))
    ensures var last := answers(sent - 1);
            match outcome
            case TransportFailed => last == None
            case Final(r) =>
              && last == Some(r)
              && (sent < 5 ==>
                    || (r.status != 403 && r.status != 429)
                    || (r.status == 403 && r.retryAfter.None? && r.remaining != Some(0) && !r.secondaryLimit))
            case RateLimited(d) =>
              && last.Some?
              && var r := last.value;
                 && sent < 5 && d.wait > 300 && (r.status == 403 || r.status == 429)
                 && (d.reason == RetryAfter <==> r.retryAfter.Some?)
                 && (d.reason == QuotaReset <==> r.retryAfter.None? && r.remaining == Some(0))
                 && (r.retryAfter.Some? ==> d.wait == r.retryAfter.value)
                 && (r.retryAfter.None? && r.remaining == Some(0) ==>
                       r.reset.Some? && r.reset.value > r.now && d.wait == r.reset.value - r.now)
                 && (r.retryAfter.None? && r.remaining != Some(0) ==>
                       sent == 4 && d.wait == 480 && (r.status == 429 || r.secondaryLimit))
  {
    FirstBackoffs();
    forall i | 0 <= i < |sleeps|
      ensures !StopsAt(answers, i) && IsWaitAfter(answers, i, sleeps[i])
      ensures answers(i).value.retryAfter.None? && answers(i).value.remaining != Some(0) ==>
                i < 3 && sleeps[i] == [60, 120, 240][i]
    {
      assert !StopsAt(answers, i) && IsWaitAfter(answers, i, sleeps[i]);
      assert i == 0 || i == 1 || i == 2 || i == 3;
    }
    assert StopsAt(answers, sent - 1) && outcome == OutcomeAt(answers, sent - 1);
  }

  lemma FirstBackoffs()
    ensures SecondaryLimitBackoff(0) == 60 && SecondaryLimitBackoff(1) == 120 && SecondaryLimitBackoff(2) == 240
    ensures SecondaryLimitBackoff(3) == 480 && SecondaryLimitBackoff(4) == 960
  {
    BackoffIs(0);
    BackoffIs(1);
    BackoffIs(2);
    BackoffIs(3);
    BackoffIs(4);
    assert Pow2(0) == 1 && Pow2(1) == 2 && Pow2(2) == 4 && Pow2(3) == 8 && Pow2(4) == 16;
  }

  lemma {:induction false} SumIsBounded(s: seq<nat>, bound: nat)
    requires forall i :: 0 <= i < |s| ==> s[i] <= bound
    ensures Sum(s) <= |s| * bound
  {
    if s != [] {
      SumIsBounded(s[..|s| - 1], bound);
    }
  }

  /**
    For every answer sequence: at most five requests, a sleep only after a 403 or 429, no sleep above 300 s
    or 1200 s in all, and any response handed back is the last one received.
  */
  lemma ExchangeIsBounded(answers: Answers, outcome: Outcome, sent: nat, sleeps: seq<nat>)
    requires IsExchange(answers, outcome, sent, sleeps)
    ensures sent <= 5 && Sum(sleeps) <= 1200
    ensures forall i :: 0 <= i < |sleeps| ==> sleeps[i] <= 300 && answers(i).Some? && IsLimitStatus(answers(i).value.status)
    ensures outcome.Final? ==> answers(sent - 1) == Some(outcome.response)
    ensures outcome.RateLimited? ==> outcome.decision.wait > 300
  {
    forall i: nat | i < |sleeps|
      ensures sleeps[i] <= 300 && IsLimitStatus(answers(i).value.status)
    {
      assert !StopsAt(answers, i) && IsWaitAfter(answers, i, sleeps[i]);
    }
    SumIsBounded(sleeps, 300);
  }

  /** The backoff is 60·2^min(attempt, 4) on the attempt's low 32 bits. */
  lemma BackoffIs(attempt: nat)
    ensures SecondaryLimitBackoff(attempt) == 60 * Pow2(Min(attempt % U32_RANGE, 4))
  {
    var n := attempt % U32_RANGE;
    assert Pow2(4) == 16;
    if n >= 4 {
      Pow2Grows(4, n);
    } else {
      Pow2Grows(n, 4);
    }
  }

  lemma {:induction false} Pow2Grows(a: nat, b: nat)
    requires a <= b
    ensures Pow2(a) <= Pow2(b)
    decreases b
  {
    if a < b {
      Pow2Grows(a, b - 1);
    }
  }

  /** The cast is harmless exactly below attempt 4 or when the low 32 bits are at least 4. */
  lemma BackoffIgnoresCastIff(attempt: nat)
    ensures SecondaryLimitBackoff(attempt) == 60 * Pow2(Min(attempt, 4)) <==> attempt < 4 || attempt % U32_RANGE >= 4
  {
    BackoffIs(attempt);
    assert Pow2(0) == 1 && Pow2(1) == 2 && Pow2(2) == 4 && Pow2(3) == 8 && Pow2(4) == 16;
  }

  /** If every answer is a secondary-limit fallback, four requests go out and the loop sleeps 420 s. */
  lemma FallbackExchange(answers: Answers, outcome: Outcome, sent: nat, sleeps: seq<nat>)
    requires IsExchange(answers, outcome, sent, sleeps)
    requires forall i: nat :: i < MAX_ATTEMPTS ==>
               && answers(i).Some?
               && var r := answers(i).value;
                  r.retryAfter.None? && r.remaining != Some(0) && (r.status == 429 || (r.status == 403 && r.secondaryLimit))
    ensures sent == 4 && sleeps == [60, 120, 240] && Sum(sleeps) == 420
    ensures outcome == RateLimited(RetryDecision(480, SecondaryFallback))
  {
    assert Pow2(0) == 1 && Pow2(1) == 2 && Pow2(2) == 4 && Pow2(3) == 8 && Pow2(4) == 16;
    forall i: nat | i < MAX_ATTEMPTS
      ensures Decide(answers(i).value, i).value.wait == 60 * Pow2(Min(i, 4))
    {
      BackoffIs(i);
    }
    assert !StopsAt(answers, 0) && !StopsAt(answers, 1) && !StopsAt(answers, 2) && StopsAt(answers, 3);
    assert sent == 4;
    assert sleeps[0] == 60 && sleeps[1] == 120 && sleeps[2] == 240;
    assert sleeps == [60, 120, 240];
    assert [60, 120, 240][..2] == [60, 120] && [60, 120][..1] == [60] && [60][..0] == [];
    assert Sum([60]) == 60 && Sum([60, 120]) == 180;
  }
}
