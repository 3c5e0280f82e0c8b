/** The retry loop and its backoff (internal/gateway/retry.go). */
module Retry {
  import opened Wrappers

  /** `retryable` is the verdict of isRetryableError. */
  datatype Error = Error(text: string, retryable: bool)

  /** What one call of the operation returned. */
  datatype Outcome = Outcome(status: int, err: Option<Error>)

  /** Durations are whole nanoseconds. */
  datatype RetryConfig = RetryConfig(maxAttempts: int, initialDelay: int, maxDelay: int, multiplier: real, jitter: bool)

  predicate IsRetryableStatusCode(status: int) { status >= 500 }

  predicate IsSuccess(o: Outcome) { o.err.None? && !IsRetryableStatusCode(o.status) }

  predicate IsServerError(o: Outcome) { o.err.Some? && IsRetryableStatusCode(o.status) }

  predicate ShouldRetry(o: Outcome) { o.err.Some? && (o.err.value.retryable || IsRetryableStatusCode(o.status)) }

  // ---- Backoff ---------------------------------------------------------------------------

  function Pow(m: real, n: nat): real { if n == 0 then 1.0 else m * Pow(m, n - 1) }

  /** Conversion of a float to an integer drops the fraction. */
  function Trunc(x: real): int { if x >= 0.0 then x.Floor else -(-x).Floor }

  /** The exponential before truncation, cap and jitter. */
  function Exponential(c: RetryConfig, attempt: nat): real { c.initialDelay as real * Pow(c.multiplier, attempt) }

  /** The delay before jitter. */
  function Backoff(c: RetryConfig, attempt: nat): int {
    if Trunc(Exponential(c, attempt)) > c.maxDelay then c.maxDelay else Trunc(Exponential(c, attempt))
  }

  /** A random amount within a quarter of the delay, either way. */
  function Jitter(delay: int, roll: real): real { (roll * 2.0 - 1.0) * (delay as real * 0.25) }

  /** What the configuration must satisfy for the delays to mean anything. */
  predicate Sane(c: RetryConfig) {
    c.initialDelay >= 0 && c.maxDelay >= 0 && c.multiplier >= 1.0
  }

  /** The delay as a function of the random draw. */
  function Delay(c: RetryConfig, attempt: nat, roll: real): int {
    var delay := Backoff(c, attempt);
    if c.jitter then Trunc(delay as real + Jitter(delay, roll)) else delay
  }

  lemma DelayBounds(c: RetryConfig, attempt: nat, roll: real)
    requires 0.0 <= roll < 1.0
    ensures !c.jitter ==> Delay(c, attempt, roll) == Backoff(c, attempt)
    ensures Sane(c) ==> 3 * Backoff(c, attempt) - 4 < 4 * Delay(c, attempt, roll) <= 5 * Backoff(c, attempt)
  {
    hide Backoff, Jitter;
    if Sane(c) {
      BackoffBounds(c, attempt);
      JitterBounds(Backoff(c, attempt), roll);
    }
  }

  /** `roll` is the random draw. */
  method CalculateDelay(c: RetryConfig, attempt: nat, roll: real) returns (delay: int)
    requires 0.0 <= roll < 1.0
    ensures delay == Delay(c, attempt, roll)
    ensures !c.jitter ==> delay == Backoff(c, attempt)
    ensures Sane(c) && !c.jitter && Exponential(c, attempt) < c.maxDelay as real ==>
      Exponential(c, attempt) - 1.0 < delay as real <= Exponential(c, attempt)
    ensures Sane(c) && !c.jitter && Exponential(c, attempt) >= c.maxDelay as real ==> delay == c.maxDelay
    ensures Sane(c) ==> 3 * Backoff(c, attempt) - 4 < 4 * delay <= 5 * Backoff(c, attempt)
  {
    hide Exponential, Pow, Jitter;
    DelayBounds(c, attempt, roll);
    if Sane(c) { BackoffExact(c, attempt); }
    delay := Trunc(Exponential(c, attempt));
    if delay > c.maxDelay {
      delay := c.maxDelay;
    }
    if c.jitter {
      delay := Trunc(delay as real + Jitter(delay, roll));
    }
  }

  /** Below the cap the delay is the whole part of the exponential; from the cap on it is the cap. */
  lemma BackoffExact(c: RetryConfig, attempt: nat)
    requires Sane(c)
    ensures Exponential(c, attempt) < c.maxDelay as real ==>
      Exponential(c, attempt) - 1.0 < Backoff(c, attempt) as real <= Exponential(c, attempt)
    ensures Exponential(c, attempt) >= c.maxDelay as real ==> Backoff(c, attempt) == c.maxDelay
  {
    hide Exponential;
    ExponentialGrows(c, attempt);
  }

  /** The draw moves the delay through its whole range: a quarter less for 0, none for 1/2. */
  lemma JitterSpans(c: RetryConfig, attempt: nat, roll: real, roll': real)
    requires Sane(c) && c.jitter && 0.0 <= roll <= roll' < 1.0
    ensures Delay(c, attempt, 0.0) == Trunc(Backoff(c, attempt) as real * 0.75)
    ensures Delay(c, attempt, 0.5) == Backoff(c, attempt)
    ensures Delay(c, attempt, roll) <= Delay(c, attempt, roll')
  {
    hide Backoff;
    BackoffBounds(c, attempt);
    JitterWithinQuarter(Backoff(c, attempt), roll);
    Scale(roll * 2.0 - 1.0, roll' * 2.0 - 1.0, Backoff(c, attempt) as real * 0.25);
    var delay := Backoff(c, attempt) as real;
    TruncGrows(delay + Jitter(Backoff(c, attempt), roll), delay + Jitter(Backoff(c, attempt), roll'));
  }

  lemma JitterBounds(delay: int, roll: real)
    requires delay >= 0 && 0.0 <= roll < 1.0
    ensures 3 * delay - 4 < 4 * Trunc(delay as real + Jitter(delay, roll)) <= 5 * delay
  {
    JitterWithinQuarter(delay, roll);
    QuarterTrunc(delay, Jitter(delay, roll));
  }

  lemma JitterWithinQuarter(delay: int, roll: real)
    requires delay >= 0 && 0.0 <= roll < 1.0
    ensures -(delay as real * 0.25) <= Jitter(delay, roll) <= delay as real * 0.25
  {
    Scale(-1.0, roll * 2.0 - 1.0, delay as real * 0.25);
    Scale(roll * 2.0 - 1.0, 1.0, delay as real * 0.25);
  }

  lemma QuarterTrunc(delay: int, jitter: real)
    requires delay >= 0 && -(delay as real * 0.25) <= jitter <= delay as real * 0.25
    ensures 3 * delay - 4 < 4 * Trunc(delay as real + jitter) <= 5 * delay
  {
    var x := delay as real + jitter;
    assert 0.0 <= x && x - 1.0 < x.Floor as real <= x;
  }

  lemma Scale(x: real, y: real, z: real)
    requires x <= y && z >= 0.0
    ensures x * z <= y * z
  {}

  lemma {:induction false} PowGrows(m: real, n: nat)
    requires m >= 1.0
    ensures 1.0 <= Pow(m, n) <= Pow(m, n + 1)
  {
    if n > 0 { PowGrows(m, n - 1); }
    Scale(1.0, m, Pow(m, n));
  }

  lemma ExponentialGrows(c: RetryConfig, attempt: nat)
    requires Sane(c)
    ensures 0.0 <= Exponential(c, attempt) <= Exponential(c, attempt + 1)
  {
    PowGrows(c.multiplier, attempt);
    Scale(Pow(c.multiplier, attempt), Pow(c.multiplier, attempt + 1), c.initialDelay as real);
    Scale(0.0, Pow(c.multiplier, attempt), c.initialDelay as real);
  }

  lemma TruncGrows(x: real, y: real)
    requires 0.0 <= x <= y
    ensures 0 <= Trunc(x) <= Trunc(y) && Trunc(x) as real <= x
  {}

  lemma BackoffBounds(c: RetryConfig, attempt: nat)
    requires Sane(c)
    ensures 0 <= Backoff(c, attempt) <= c.maxDelay
    ensures Backoff(c, attempt) as real <= Exponential(c, attempt)
  {
    hide Exponential;
    ExponentialGrows(c, attempt);
    TruncGrows(Exponential(c, attempt), Exponential(c, attempt + 1));
  }

  /** Before jitter the delays never shrink. */
  lemma {:induction false} BackoffGrows(c: RetryConfig, a: nat, b: nat)
    requires Sane(c) && a <= b
    ensures Backoff(c, a) <= Backoff(c, b) <= c.maxDelay
  {
    hide Exponential;
    if a < b {
      BackoffGrows(c, a, b - 1);
      ExponentialGrows(c, b - 1);
      TruncGrows(Exponential(c, b - 1), Exponential(c, b));
    }
  }

  // ---- The loop --------------------------------------------------------------------------

  /** The loop makes `n` attempts on this script: all but the last call for a retry, and the
      last either does not or is the last one allowed. */
  ghost predicate Attempts(max: int, outcomes: seq<Outcome>, n: nat) {
    if max <= 0 then n == 0 else
    && 0 < n <= max && n <= |outcomes|
    && (forall j :: 0 <= j < n - 1 ==> ShouldRetry(outcomes[j]))
    && (n == max || !ShouldRetry(outcomes[n - 1]))
  }

  function LastServerError(outcomes: seq<Outcome>): Option<Error> {
    if outcomes == [] then None
    else if IsServerError(outcomes[|outcomes| - 1]) then outcomes[|outcomes| - 1].err
    else LastServerError(outcomes[..|outcomes| - 1])
  }

  /** The error reported after the attempts in `made`. */
  function Verdict(made: seq<Outcome>): Option<Error> {
    if made != [] && IsSuccess(made[|made| - 1]) then None else LastServerError(made)
  }

  /** All `n` attempts so far call for a retry, and `lastErr` is what the loop remembers. */
  ghost predicate Retrying(outcomes: seq<Outcome>, n: nat, lastErr: Option<Error>) {
    && n <= |outcomes|
    && (forall j :: 0 <= j < n ==> ShouldRetry(outcomes[j]))
    && lastErr == LastServerError(outcomes[..n])
  }

  /** One more attempt ends the loop with its verdict, or leaves it retrying. */
  lemma OneMoreOutcome(max: int, outcomes: seq<Outcome>, n: nat, lastErr: Option<Error>)
    requires n < max && n < |outcomes| && Retrying(outcomes, n, lastErr)
    ensures var o := outcomes[n];
      var e := if IsServerError(o) then o.err else lastErr;
      && (ShouldRetry(o) ==> Retrying(outcomes, n + 1, e) && !IsSuccess(o))
      && (!ShouldRetry(o) || n + 1 == max ==>
            Attempts(max, outcomes, n + 1) && Verdict(outcomes[..n + 1]) == if IsSuccess(o) then None else e)
  {
    assert outcomes[..n + 1][..n] == outcomes[..n];
  }

  /** The same, seen from the outcomes there have been so far. */
  lemma OneMoreTurn(max: int, outcomes: seq<Outcome>, o: Outcome, lastErr: Option<Error>)
    requires |outcomes| < max && Retrying(outcomes, |outcomes|, lastErr)
    ensures var more := outcomes + [o];
      var e := if IsServerError(o) then o.err else lastErr;
      && (ShouldRetry(o) ==> Retrying(more, |more|, e) && !IsSuccess(o))
      && (!ShouldRetry(o) || |more| == max ==>
         Attempts(max, more, |more|) && Verdict(more) == if IsSuccess(o) then None else e)
  {
    var more := outcomes + [o];
    assert more[..|outcomes|] == outcomes && outcomes[..|outcomes|] == outcomes && more[..|more|] == more;
    OneMoreOutcome(max, more, |outcomes|, lastErr);
  }

  /** Each pause is the capped exponential, or within a quarter of it when jittered. */
  ghost predicate Paced(c: RetryConfig, slept: seq<int>) {
    && (!c.jitter ==> forall a :: 0 <= a < |slept| ==> slept[a] == Backoff(c, a))
    && (Sane(c) ==> forall a :: 0 <= a < |slept| ==> 3 * Backoff(c, a) - 4 < 4 * slept[a] <= 5 * Backoff(c, a))
  }

  /** The random source yields values from 0 up to but excluding 1. */
  ghost predicate Draws(rolls: seq<real>) {
    forall i :: 0 <= i < |rolls| ==> 0.0 <= rolls[i] < 1.0
  }

  /** The first `k` pauses. */
  function Pauses(c: RetryConfig, rolls: seq<real>, k: nat): seq<int>
    requires k <= |rolls|
  {
    if k == 0 then [] else Pauses(c, rolls, k - 1) + [Delay(c, k - 1, rolls[k - 1])]
  }

  /** These are the pauses that the draws give. */
  ghost predicate Drawn(c: RetryConfig, rolls: seq<real>, slept: seq<int>) {
    |slept| <= |rolls| && slept == Pauses(c, rolls, |slept|)
  }

  lemma OneMorePause(c: RetryConfig, rolls: seq<real>, slept: seq<int>)
    requires Drawn(c, rolls, slept) && |slept| < |rolls|
    ensures Drawn(c, rolls, slept + [Delay(c, |slept|, rolls[|slept|])])
  {
    hide Delay;
  }

  lemma {:induction false} PausesArePaced(c: RetryConfig, rolls: seq<real>, k: nat)
    requires k <= |rolls| && Draws(rolls)
    ensures |Pauses(c, rolls, k)| == k && Paced(c, Pauses(c, rolls, k))
  {
    if k > 0 {
      hide Backoff, Delay;
      PausesArePaced(c, rolls, k - 1);
      DelayBounds(c, k - 1, rolls[k - 1]);
    }
  }

  /** `outcomes` is what the operation would return, call by call; `rolls` are the random
      draws; `slept` are the pauses between the attempts. */
  method ExecuteWithRetry(c: RetryConfig, outcomes: seq<Outcome>, rolls: seq<real>)
    returns (err: Option<Error>, attempts: nat, slept: seq<int>)
    requires c.maxAttempts <= |outcomes| && c.maxAttempts <= |rolls| && Draws(rolls)
    ensures Attempts(c.maxAttempts, outcomes, attempts)
    ensures err == Verdict(outcomes[..attempts])
    ensures |slept| == (if attempts == 0 then 0 else attempts - 1) && Drawn(c, rolls, slept)
  {
    var lastErr := None;
    slept := [];
    attempts := 0;
    while attempts < c.maxAttempts
      invariant attempts <= c.maxAttempts || attempts == 0
      invariant attempts > 0 ==> attempts < c.maxAttempts
      invariant |slept| == attempts && Drawn(c, rolls, slept)
      invariant Retrying(outcomes, attempts, lastErr)
      decreases c.maxAttempts - attempts
    {
      var attempt := attempts;
      var outcome := outcomes[attempt];
      attempts := attempt + 1;
      OneMoreOutcome(c.maxAttempts, outcomes, attempt, lastErr);
      if IsSuccess(outcome) {
        return None, attempts, slept;
      }
      var shouldRetry := false;
      if outcome.err.Some? && outcome.err.value.retryable {
        shouldRetry := true;
      }
      if outcome.err.Some? && IsRetryableStatusCode(outcome.status) {
        shouldRetry := true;
        lastErr := outcome.err;
      }
      if attempt == c.maxAttempts - 1 {
        break;
      }
      if !shouldRetry {
        break;
      }
      OneMorePause(c, rolls, slept);
      var delay := CalculateDelay(c, attempt, rolls[attempt]);
      slept := slept + [delay];
    }
    err := lastErr;
  }

  /** The loop goes on after an attempt exactly when it returned an error that is retryable or comes
      with a status of at least 500; so it stops at the first that did not, or at the limit. */
  lemma StopsAtFirst(max: int, outcomes: seq<Outcome>, n: nat)
    requires max >= 1 && max <= |outcomes|
    ensures Attempts(max, outcomes, n) <==>
      && 1 <= n <= max
      && (forall j :: 0 <= j < n - 1 ==>
            outcomes[j].err.Some? && (outcomes[j].err.value.retryable || outcomes[j].status >= 500))
      && (|| n == max || outcomes[n - 1].err.None?
          || (!outcomes[n - 1].err.value.retryable && outcomes[n - 1].status < 500))
  {}

  /** Attempt `j` returned this error with a status of at least 500, and none after it did so. */
  ghost predicate LastToFail(made: seq<Outcome>, j: int, e: Error) {
    && 0 <= j < |made| && made[j].err == Some(e) && made[j].status >= 500
    && forall k :: j < k < |made| ==> made[k].err.None? || made[k].status < 500
  }

  lemma {:induction false} FindLastToFail(made: seq<Outcome>, e: Error) returns (j: int)
    requires LastServerError(made) == Some(e)
    ensures LastToFail(made, j, e)
  {
    var n := |made| - 1;
    if IsServerError(made[n]) { j := n; } else { j := FindLastToFail(made[..n], e); }
  }

  lemma {:induction false} LastToFailCounts(made: seq<Outcome>, j: int, e: Error)
    requires LastToFail(made, j, e)
    ensures LastServerError(made) == Some(e)
  {
    var n := |made| - 1;
    if j < n { LastToFailCounts(made[..n], j, e); }
  }

  /** The error reported is that of the last attempt that returned one with a status of at least
      500, unless the last attempt of all succeeded. */
  lemma ReportsLastServerError(made: seq<Outcome>, e: Error)
    ensures Verdict(made) == Some(e) <==>
      && (exists j :: LastToFail(made, j, e))
      && (made[|made| - 1].err.Some? || made[|made| - 1].status >= 500)
  {
    hide LastToFail;
    if LastServerError(made) == Some(e) { var j := FindLastToFail(made, e); }
    if j :| LastToFail(made, j, e) { LastToFailCounts(made, j, e); NonEmpty(made, j, e); }
  }

  lemma NonEmpty(made: seq<Outcome>, j: int, e: Error)
    requires LastToFail(made, j, e)
    ensures made != []
  {}

  lemma {:induction false} LastServerErrorNone(outcomes: seq<Outcome>)
    ensures LastServerError(outcomes).None? <==> forall j :: 0 <= j < |outcomes| ==> !IsServerError(outcomes[j])
  {
    if outcomes != [] { LastServerErrorNone(outcomes[..|outcomes| - 1]); }
  }

  /** A nil error means success exactly when no run of failures passed without a server error:
      an error that comes with a status below 500 is dropped on the way out. */
  lemma NilMeansSuccessIff(max: int, outcomes: seq<Outcome>, n: nat)
    requires max >= 1 && Attempts(max, outcomes, n)
    ensures (Verdict(outcomes[..n]).None? <==> IsSuccess(outcomes[n - 1])) <==>
      (IsSuccess(outcomes[n - 1]) || exists j :: 0 <= j < n && IsServerError(outcomes[j]))
  {
    LastServerErrorNone(outcomes[..n]);
    assert forall j :: 0 <= j < n ==> outcomes[..n][j] == outcomes[j];
  }

  ghost predicate AllIn(outcomes: seq<Outcome>, possible: iset<Outcome>) {
    forall j :: 0 <= j < |outcomes| ==> outcomes[j] in possible
  }

  /** For an operation that may return these outcomes, a nil error means success on every script
      exactly when each failure among them is an error with a status of at least 500. */
  lemma NilMeansSuccessForIff(max: int, possible: iset<Outcome>)
    requires max >= 1
    ensures (forall outcomes, n: nat :: AllIn(outcomes, possible) && Attempts(max, outcomes, n) ==>
               (Verdict(outcomes[..n]).None? <==> IsSuccess(outcomes[n - 1])))
      <==> forall o :: o in possible ==> IsSuccess(o) || IsServerError(o)
  {
    if o :| o in possible && !IsSuccess(o) && !IsServerError(o) {
      var outcomes, n := seq(max, _ => o), if ShouldRetry(o) then max else 1;
      assert AllIn(outcomes, possible) && Attempts(max, outcomes, n);
      assert outcomes[n - 1] == o;
      LastServerErrorNone(outcomes[..n]);
    } else {
      forall outcomes, n: nat | AllIn(outcomes, possible) && Attempts(max, outcomes, n)
        ensures Verdict(outcomes[..n]).None? <==> IsSuccess(outcomes[n - 1])
      {
        assert outcomes[n - 1] in possible;
        NilMeansSuccessIff(max, outcomes, n);
      }
    }
  }

  lemma ErrorCanBeDropped()
    ensures exists outcomes: seq<Outcome> ::
      Attempts(3, outcomes, 1) && !IsSuccess(outcomes[0]) && Verdict(outcomes[..1]) == None
  {
    var outcomes := [Outcome(404, Some(Error("malformed", false)))];
    assert outcomes[..1] == outcomes;
    assert LastServerError(outcomes[..0]) == None;
  }

  /** Outcomes of the proxy's closure: an error if and only if the status is at least 500. */
  predicate Coherent(o: Outcome) { o.err.None? <==> o.status < 500 }

  /** On such a script the loop stops at the first success or at the limit, whichever comes
      first, and reports nil exactly when its last attempt succeeded. */
  lemma CoherentScripts(max: int, outcomes: seq<Outcome>, n: nat)
    requires max >= 1 && Attempts(max, outcomes, n)
    requires forall j :: 0 <= j < |outcomes| ==> Coherent(outcomes[j])
    ensures forall j :: 0 <= j < n - 1 ==> !IsSuccess(outcomes[j])
    ensures n == max || IsSuccess(outcomes[n - 1])
    ensures Verdict(outcomes[..n]).None? <==> IsSuccess(outcomes[n - 1])
  {
    NilMeansSuccessIff(max, outcomes, n);
  }

  // ---- Total sleep -----------------------------------------------------------------------

  function Sum(xs: seq<int>): int { if xs == [] then 0 else Sum(xs[..|xs| - 1]) + xs[|xs| - 1] }

  function ExponentialSum(c: RetryConfig, n: nat): real {
    if n == 0 then 0.0 else ExponentialSum(c, n - 1) + Exponential(c, n - 1)
  }

  lemma {:induction false} GeometricClosedForm(c: RetryConfig, n: nat)
    ensures (c.multiplier - 1.0) * ExponentialSum(c, n) == c.initialDelay as real * (Pow(c.multiplier, n) - 1.0)
  {
    if n > 0 {
      GeometricClosedForm(c, n - 1);
      Distribute(c.multiplier - 1.0, ExponentialSum(c, n - 1), Exponential(c, n - 1));
      Telescope(c.initialDelay as real, c.multiplier, Pow(c.multiplier, n - 1));
    }
  }

  lemma Telescope(d: real, m: real, p: real)
    ensures d * (p - 1.0) + (m - 1.0) * (d * p) == d * (m * p - 1.0)
  {}

  lemma Distribute(d: real, x: real, y: real)
    ensures d * (x + y) == d * x + d * y
  {}

  lemma {:induction false} FlatSleepBound(c: RetryConfig, slept: seq<int>)
    requires Sane(c) && forall a :: 0 <= a < |slept| ==> 4 * slept[a] <= 5 * Backoff(c, a)
    ensures 4 * Sum(slept) <= 5 * (|slept| * c.maxDelay)
  {
    hide Backoff;
    if slept != [] {
      var n := |slept| - 1;
      FlatSleepBound(c, slept[..n]);
      BackoffBounds(c, n);
      assert (n + 1) * c.maxDelay == n * c.maxDelay + c.maxDelay;
    }
  }

  lemma {:induction false} GeometricSleepBound(c: RetryConfig, slept: seq<int>)
    requires Sane(c) && forall a :: 0 <= a < |slept| ==> 4 * slept[a] <= 5 * Backoff(c, a)
    ensures 4.0 * Sum(slept) as real <= 5.0 * ExponentialSum(c, |slept|)
  {
    hide Exponential, Backoff;
    if slept != [] {
      var n := |slept| - 1;
      GeometricSleepBound(c, slept[..n]);
      BackoffBounds(c, n);
    }
  }

  /** The pauses of one run, as ExecuteWithRetry makes them, add up to at most 1.25 times the
      smaller of the flat and the geometric bound. */
  lemma TotalSleepBound(c: RetryConfig, rolls: seq<real>, slept: seq<int>)
    requires Sane(c) && Draws(rolls) && Drawn(c, rolls, slept)
    requires c.maxAttempts >= 1 && |slept| < c.maxAttempts
    ensures 4 * Sum(slept) <= 5 * ((c.maxAttempts - 1) * c.maxDelay)
    ensures 4.0 * Sum(slept) as real <= 5.0 * ExponentialSum(c, |slept|)
  {
    hide Exponential, Backoff;
    PausesArePaced(c, rolls, |slept|);
    FlatSleepBound(c, slept);
    GeometricSleepBound(c, slept);
    MoreSlots(|slept|, c.maxAttempts - 1, c.maxDelay);
  }

  lemma MoreSlots(a: int, b: int, d: int)
    requires a <= b && d >= 0
    ensures a * d <= b * d
  {}
}
