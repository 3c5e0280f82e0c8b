/** What the history specification of the circuit breaker implies for every sequence of calls. */
module BreakerTheorems {
  import opened Arithmetic
  import opened CircuitBreaker

  // ---- Opening and closing ---------------------------------------------------------------

  /** The failure count alone tells whether the breaker is closed. */
  lemma {:induction false} ClosedIffBelowThreshold(c: Config, h: seq<Event>)
    requires c.failureThreshold >= 1
    ensures ModeAfter(c, h).Closed? <==> Backlog(c, h) < c.failureThreshold
  {
    if h != [] {
      ClosedIffBelowThreshold(c, Front(h));
      ClosedBacklog(c, Front(h));
    }
  }

  /** A breaker has tripped at some time exactly when some run of failures without a success
      between them was as long as the threshold. */
  lemma {:induction false} TripsIffRunReached(c: Config, h: seq<Event>)
    requires c.failureThreshold >= 1
    ensures (exists i :: 0 <= i <= |h| && !ModeAfter(c, h[..i]).Closed?) <==>
      (exists i :: 0 <= i <= |h| && FailureRun(h[..i]) >= c.failureThreshold)
  {
    if h == [] {
    } else {
      TripsIffRunReached(c, Front(h));
      assert h[..|h|] == h;
      assert forall i :: 0 <= i < |h| ==> Front(h)[..i] == h[..i];
      assert Front(h)[..|h| - 1] == Front(h);
    }
  }

  /** A run counts each failure once and ends with a success: `n` failures in a row make a run of
      at least `n`, and none is longer than the events since a success. */
  lemma {:induction false} RunIsCounted(h: seq<Event>, n: nat)
    requires n <= |h|
    ensures (forall i :: |h| - n <= i < |h| ==> h[i].Failure?) ==> FailureRun(h) >= n
    ensures FailureRun(h) <= |h| && (n < |h| && h[|h| - 1 - n].Success? ==> FailureRun(h) <= n)
  {
    if n > 0 { RunIsCounted(Front(h), n - 1); } else if h != [] { RunIsCounted(Front(h), 0); }
  }

  lemma FrontOf(h: seq<Event>, e: Event)
    ensures Front(h + [e]) == h && Last(h + [e]) == e
  {}

  /** A prefix of `h` is the front of the next longer one. */
  lemma FrontOfPrefix(h: seq<Event>, j: nat)
    requires 0 < j <= |h|
    ensures Front(h[..j]) == h[..j - 1] && Last(h[..j]) == h[j - 1]
  {}

  /** A half-open episode begun at `k` lasts as long as no failure and fewer successes than the
      threshold have been recorded since; both ends are exact. */
  lemma {:induction false} EpisodeLastsIff(c: Config, h: seq<Event>, k: nat)
    requires c.successThreshold >= 1
    requires k <= |h| && ModeAfter(c, h[..k]) == HalfOpen(k)
    ensures (forall j :: k <= j <= |h| ==> ModeAfter(c, h[..j]) == HalfOpen(k)) <==>
      (Successes(h, k) < c.successThreshold && forall j :: k <= j < |h| ==> !h[j].Failure?)
    decreases |h|
  {
    hide FailureRun, LastFailure;
    assert h[..|h|] == h;
    if |h| > k {
      FrontOfPrefix(h, |h|);
      assert forall j :: 0 <= j < |h| ==> Front(h)[..j] == h[..j];
      assert Front(h)[..|h| - 1] == h[..|h| - 1];
      EpisodeLastsIff(c, Front(h), k);
    }
  }

  /** The episode begun at `k` is over once `j` events have passed, and was not before. */
  ghost predicate EpisodeEnds(c: Config, h: seq<Event>, k: nat, j: int, end: Mode) {
    && k < j <= |h| && end != HalfOpen(k) && ModeAfter(c, h[..j]) == end
    && forall i :: k <= i < j ==> ModeAfter(c, h[..i]) == HalfOpen(k)
  }

  /** From `k` up to `j` no failure was recorded. */
  ghost predicate Unfailing(h: seq<Event>, k: nat, j: nat) {
    j <= |h| && forall i :: k <= i < j ==> !h[i].Failure?
  }

  /** By `j` the episode begun at `k` had its successes, and no failure. */
  ghost predicate Won(c: Config, h: seq<Event>, k: nat, j: int) {
    k <= j <= |h| && Successes(h[..j], k) == c.successThreshold && Unfailing(h, k, j)
  }

  /** The event at `j` is a failure, the first in the episode, and the successes do not suffice. */
  ghost predicate Lost(c: Config, h: seq<Event>, k: nat, j: int) {
    k <= j < |h| && h[j].Failure? && Successes(h[..j], k) < c.successThreshold && Unfailing(h, k, j)
  }

  /** The episode lasts to `j`, as told from its recorded outcomes. */
  lemma EpisodeLastsTo(c: Config, h: seq<Event>, k: nat, j: nat)
    requires c.successThreshold >= 1 && k <= j <= |h| && ModeAfter(c, h[..k]) == HalfOpen(k)
    ensures (forall i :: k <= i <= j ==> ModeAfter(c, h[..i]) == HalfOpen(k)) <==>
      (Successes(h[..j], k) < c.successThreshold && Unfailing(h, k, j))
  {
    assert forall i :: 0 <= i <= j ==> h[..j][..i] == h[..i];
    EpisodeLastsIff(c, h[..j], k);
  }

  lemma EndTells(c: Config, h: seq<Event>, k: nat, j: int, end: Mode)
    requires c.successThreshold >= 1 && k <= |h| && ModeAfter(c, h[..k]) == HalfOpen(k)
    requires EpisodeEnds(c, h, k, j, end)
    ensures if end.Closed? then Won(c, h, k, j) else end.Open? && Lost(c, h, k, j - 1)
  {
    EpisodeLastsTo(c, h, k, j - 1);
    FrontOfPrefix(h, j);
  }

  lemma LossReopens(c: Config, h: seq<Event>, k: nat, j: int)
    requires c.successThreshold >= 1 && k <= |h| && ModeAfter(c, h[..k]) == HalfOpen(k) && Lost(c, h, k, j)
    ensures EpisodeEnds(c, h, k, j + 1, Open)
  {
    EpisodeLastsTo(c, h, k, j);
    FrontOfPrefix(h, j + 1);
  }

  lemma {:induction false} WinCloses(c: Config, h: seq<Event>, k: nat, j: nat) returns (e: nat)
    requires c.successThreshold >= 1 && k <= |h| && ModeAfter(c, h[..k]) == HalfOpen(k) && Won(c, h, k, j)
    ensures EpisodeEnds(c, h, k, e, Closed)
    decreases j
  {
    FrontOfPrefix(h, j);
    if h[j - 1].Success? {
      EpisodeLastsTo(c, h, k, j - 1);
      e := j;
    } else {
      e := WinCloses(c, h, k, j - 1);
    }
  }

  /** An episode ends closed exactly when as many successes as the threshold are recorded with no
      failure among them, and open again exactly when a failure is recorded before that. */
  lemma EpisodeEndsIff(c: Config, h: seq<Event>, k: nat)
    requires c.successThreshold >= 1 && k <= |h| && ModeAfter(c, h[..k]) == HalfOpen(k)
    ensures (exists j :: EpisodeEnds(c, h, k, j, Closed)) <==> (exists j :: Won(c, h, k, j))
    ensures (exists j :: EpisodeEnds(c, h, k, j, Open)) <==> (exists j :: Lost(c, h, k, j))
  {
    hide ModeAfter, EpisodeEnds, Lost;
    if j :| EpisodeEnds(c, h, k, j, Closed) { EndTells(c, h, k, j, Closed); }
    if j :| EpisodeEnds(c, h, k, j, Open) { EndTells(c, h, k, j, Open); }
    if j :| Won(c, h, k, j) { var e := WinCloses(c, h, k, j); }
    if j :| Lost(c, h, k, j) { LossReopens(c, h, k, j); }
  }

  // ---- Cool-down -------------------------------------------------------------------------

  predicate Timed(e: Event) { !e.Success? }

  /** The clock does not run backwards. */
  ghost predicate Monotone(h: seq<Event>) {
    forall i, j :: 0 <= i < j < |h| && Timed(h[i]) && Timed(h[j]) ==> h[i].at <= h[j].at
  }

  /** During a half-open episode the breaker has cooled down since its last failure. */
  lemma {:induction false} EpisodeIsCool(c: Config, h: seq<Event>)
    requires Monotone(h) && ModeAfter(c, h).HalfOpen?
    ensures var k := ModeAfter(c, h).since;
      k <= |h| && h[k - 1].Ask? && h[k - 1].at - LastFailure(h) >= c.timeout
  {
    if ModeAfter(c, Front(h)).HalfOpen? { EpisodeIsCool(c, Front(h)); }
  }

  /** Every request let through while the breaker is not closed comes at least `timeout` after
      the most recent failure, whether it half-opens the breaker or follows in the episode. */
  lemma CoolDown(c: Config, h: seq<Event>, now: int)
    requires Monotone(h + [Ask(now)]) && !ModeAfter(c, h).Closed? && Admits(c, h, now)
    ensures now - LastFailure(h) >= c.timeout
  {
    if ModeAfter(c, h).HalfOpen? {
      var whole := h + [Ask(now)];
      assert Monotone(h) by {
        forall i, j | 0 <= i < j < |h| && Timed(h[i]) && Timed(h[j]) ensures h[i].at <= h[j].at {
          assert whole[i] == h[i] && whole[j] == h[j];
        }
      }
      EpisodeIsCool(c, h);
      var k := ModeAfter(c, h).since;
      assert whole[k - 1] == h[k - 1] && whole[|h|] == Ask(now);
    }
  }

  lemma {:induction false} LastFailureGrows(h: seq<Event>, i: nat)
    requires Monotone(h) && i < |h| && h[i].Failure?
    ensures LastFailure(h) >= h[i].at
  {
    if !Last(h).Failure? { LastFailureGrows(Front(h), i); }
  }

  /** A failure that does not leave the breaker closed shuts out every request of the next
      `timeout`, whatever calls are made in between. */
  lemma {:induction false} Quarantine(c: Config, h: seq<Event>, i: nat, now: int)
    requires Monotone(h + [Ask(now)]) && i < |h| && h[i].Failure? && !ModeAfter(c, h[..i + 1]).Closed?
    requires now < h[i].at + c.timeout
    ensures ModeAfter(c, h).Open? && !Admits(c, h, now)
  {
    var whole := h + [Ask(now)];
    MonotonePrefix(whole, |h|);
    assert whole[..|h|] == h;
    LastFailureGrows(h, i);
    if i == |h| - 1 {
      assert h[..i + 1] == h;
    } else {
      var f := Front(h);
      assert f[..i + 1] == h[..i + 1];
      assert Monotone(f + [Ask(now)]) by {
        var w := f + [Ask(now)];
        forall a, b | 0 <= a < b < |w| && Timed(w[a]) && Timed(w[b]) ensures w[a].at <= w[b].at {
          assert whole[a] == w[a] && (if b == |f| then whole[|h|] == w[b] else whole[b] == w[b]);
        }
      }
      Quarantine(c, f, i, now);
      if Last(h).Ask? {
        assert whole[|h| - 1] == Last(h) && whole[|h|] == Ask(now);
        LastFailureGrows(f, i) by { MonotonePrefix(h, |h| - 1); }
      }
    }
  }

  lemma MonotonePrefix(h: seq<Event>, n: nat)
    requires Monotone(h) && n <= |h|
    ensures Monotone(h[..n])
  {}

  // ---- The half-open budget --------------------------------------------------------------

  predicate Admitted(c: Config, h: seq<Event>)
    requires h != []
  {
    Last(h).Ask? && Admits(c, Front(h), Last(h).at)
  }

  function Admissions(c: Config, h: seq<Event>): nat {
    if h == [] then 0 else Admissions(c, Front(h)) + (if Admitted(c, h) then 1 else 0)
  }

  function Records(h: seq<Event>): nat {
    if h == [] then 0 else Records(Front(h)) + (if Last(h).Ask? then 0 else 1)
  }

  /** Requests admitted whose outcome has not been recorded. */
  function Outstanding(c: Config, h: seq<Event>): int {
    Admissions(c, h) - Records(h)
  }

  /** Every record answers an admission of its own. */
  ghost predicate Disciplined(c: Config, h: seq<Event>) {
    forall i :: 0 <= i <= |h| ==> Outstanding(c, h[..i]) >= 0
  }

  /** The request that half-opens the breaker is not charged to the budget, so an episode
      admits one request more than requestCount shows, never more than maxRequests + 1. */
  lemma {:induction false} EpisodeBudget(c: Config, h: seq<Event>)
    requires c.maxRequests >= 0 && ModeAfter(c, h).HalfOpen?
    ensures var k := ModeAfter(c, h).since;
      && Admissions(c, h) - Admissions(c, h[..k - 1]) == Min(Asks(h, k), c.maxRequests) + 1
      && Admissions(c, h) - Admissions(c, h[..k - 1]) <= c.maxRequests + 1
  {
    var k := ModeAfter(c, h).since;
    if k == |h| {
      assert h[..k - 1] == Front(h);
    } else {
      assert Front(h)[..k - 1] == h[..k - 1];
      EpisodeBudget(c, Front(h));
    }
  }

  /** Requests alone use the budget up: once as many as MaxRequests have been asked for since
      the episode began, all are refused until some outcome is recorded. */
  lemma {:induction false} UnansweredAsksShutOut(c: Config, h: seq<Event>, g: seq<Event>, now: int)
    requires ModeAfter(c, h).HalfOpen? && |g| >= c.maxRequests && AllAsks(g)
    ensures !Admits(c, h + g, now)
  {
    AsksAlone(c, h, g);
  }

  lemma {:induction false} AsksAlone(c: Config, h: seq<Event>, g: seq<Event>)
    requires ModeAfter(c, h).HalfOpen? && AllAsks(g)
    ensures ModeAfter(c, h + g) == ModeAfter(c, h)
    ensures Asks(h + g, ModeAfter(c, h).since) == Asks(h, ModeAfter(c, h).since) + |g|
  {
    if g == [] {
      assert h + g == h;
    } else {
      assert Front(h + g) == h + Front(g);
      AsksAlone(c, h, Front(g));
    }
  }

  /** An open breaker admits a request exactly from the timeout after its last failure on, and
      the request it admits is the one that half-opens it. */
  lemma OpenAdmitsIff(c: Config, h: seq<Event>, now: int)
    requires ModeAfter(c, h).Open?
    ensures Admits(c, h, now) <==> now >= LastFailure(h) + c.timeout
    ensures ModeAfter(c, h + [Ask(now)]) == if now >= LastFailure(h) + c.timeout then HalfOpen(|h| + 1) else Open
  {
    FrontOf(h, Ask(now));
  }

  ghost predicate AllAsks(g: seq<Event>) {
    forall i :: 0 <= i < |g| ==> g[i].Ask?
  }

  lemma {:induction false} EarlyAsksWait(c: Config, h: seq<Event>, g: seq<Event>)
    requires ModeAfter(c, h).Open? && AllAsks(g) && forall i :: 0 <= i < |g| ==> g[i].at < LastFailure(h) + c.timeout
    ensures ModeAfter(c, h + g).Open? && LastFailure(h + g) == LastFailure(h)
    ensures Admissions(c, h + g) == Admissions(c, h)
  {
    if g == [] {
      assert h + g == h;
    } else {
      assert Front(h + g) == h + Front(g);
      EarlyAsksWait(c, h, Front(g));
    }
  }

  lemma {:induction false} HalfOpenAdmissions(c: Config, h: seq<Event>, g: seq<Event>)
    requires ModeAfter(c, h).HalfOpen? && AllAsks(g) && c.maxRequests >= 0
    ensures Admissions(c, h + g) - Admissions(c, h) ==
            Min(|g|, Max(0, c.maxRequests - Asks(h, ModeAfter(c, h).since)))
  {
    if g == [] {
      assert h + g == h;
    } else {
      assert Front(h + g) == h + Front(g);
      HalfOpenAdmissions(c, h, Front(g));
      AsksAlone(c, h, Front(g));
    }
  }

  lemma FirstProbe(c: Config, h: seq<Event>, e: Event)
    requires ModeAfter(c, h).Open? && e.Ask? && e.at >= LastFailure(h) + c.timeout
    ensures ModeAfter(c, h + [e]) == HalfOpen(|h| + 1) && Asks(h + [e], |h| + 1) == 0
    ensures Admissions(c, h + [e]) == Admissions(c, h) + 1
  {
    OpenAdmitsIff(c, h, e.at);
    FrontOf(h, e);
  }

  /** Questions count as questions and change no other count. */
  lemma {:induction false} AsksCount(h: seq<Event>, g: seq<Event>)
    requires AllAsks(g)
    ensures Asks(h + g, 0) == Asks(h, 0) + |g| && Successes(h + g, 0) == Successes(h, 0)
    ensures FailureRun(h + g) == FailureRun(h)
  {
    if g == [] {
      assert h + g == h;
    } else {
      assert h + g == h + Front(g) + [Last(g)];
      FrontOf(h + Front(g), Last(g));
      AsksCount(h, Front(g));
    }
  }

  /** While no outcome is recorded, an open breaker admits exactly MaxRequests + 1 requests: the
      first, at `i`, to come a timeout after the last failure, and those that follow it. */
  lemma UnansweredAdmissions(c: Config, h: seq<Event>, g: seq<Event>, i: nat)
    requires ModeAfter(c, h).Open? && AllAsks(g) && c.maxRequests >= 0 && i <= |g|
    requires forall j :: 0 <= j < i ==> g[j].at < LastFailure(h) + c.timeout
    requires i < |g| ==> g[i].at >= LastFailure(h) + c.timeout
    ensures Admissions(c, h + g) - Admissions(c, h) == Min(|g| - i, c.maxRequests + 1)
  {
    hide ModeAfter, Admissions, Asks, LastFailure;
    var early := h + g[..i];
    EarlyAsksWait(c, h, g[..i]);
    if i < |g| {
      FirstProbe(c, early, g[i]);
      HalfOpenAdmissions(c, early + [g[i]], g[i + 1..]);
      assert h + g == early + [g[i]] + g[i + 1..];
    } else {
      assert g[..i] == g;
    }
  }

  lemma {:induction false} FirstCool(g: seq<Event>, due: int) returns (i: nat)
    requires AllAsks(g)
    ensures i <= |g| && (forall j :: 0 <= j < i ==> g[j].at < due) && (i < |g| ==> g[i].at >= due)
  {
    i := 0;
    if g != [] && g[0].at < due {
      i := FirstCool(g[1..], due);
      i := i + 1;
      assert forall j :: 0 < j < i ==> g[j] == g[1..][j - 1];
    }
  }

  /** So requests alone never get more than MaxRequests + 1 past a breaker that is not closed. */
  lemma UnansweredAdmissionsBound(c: Config, h: seq<Event>, g: seq<Event>)
    requires !ModeAfter(c, h).Closed? && AllAsks(g) && c.maxRequests >= 0
    ensures Admissions(c, h + g) - Admissions(c, h) <= c.maxRequests + 1
  {
    if ModeAfter(c, h).Open? {
      var i := FirstCool(g, LastFailure(h) + c.timeout);
      UnansweredAdmissions(c, h, g, i);
    } else {
      HalfOpenAdmissions(c, h, g);
    }
  }

  lemma DisciplinedFront(c: Config, h: seq<Event>)
    requires Disciplined(c, h)
    ensures Outstanding(c, h) >= 0
    ensures h != [] ==> Disciplined(c, Front(h))
  {
    assert h[..|h|] == h;
    if h != [] {
      forall i | 0 <= i <= |h| - 1 ensures Outstanding(c, Front(h)[..i]) >= 0 {
        assert Front(h)[..i] == h[..i];
      }
    }
  }

  /** Every admission of an episode is still outstanding or has succeeded. */
  lemma {:induction false} EpisodeAccount(c: Config, h: seq<Event>)
    requires c.maxRequests >= 0 && Disciplined(c, h) && ModeAfter(c, h).HalfOpen?
    ensures var k := ModeAfter(c, h).since;
      Outstanding(c, h) + Successes(h, k) >= Min(Asks(h, k), c.maxRequests) + 1
  {
    DisciplinedFront(c, h);
    var k := ModeAfter(c, h).since;
    if k == |h| {
      DisciplinedFront(c, Front(h));
    } else {
      EpisodeAccount(c, Front(h));
    }
  }

  // ---- Wedging ---------------------------------------------------------------------------

  /** Half-open, budget spent, and no request left whose outcome could change anything. */
  ghost predicate Wedged(c: Config, h: seq<Event>) {
    ModeAfter(c, h).HalfOpen? && Asks(h, ModeAfter(c, h).since) >= c.maxRequests && Outstanding(c, h) == 0
  }

  lemma NoWedge(c: Config, h: seq<Event>)
    requires c.maxRequests >= 0 && c.successThreshold <= c.maxRequests + 1
    requires Disciplined(c, h)
    ensures !Wedged(c, h)
  {
    if Wedged(c, h) {
      EpisodeAccount(c, h);
      StillShort(c, h);
    }
  }

  lemma {:induction false} StillShort(c: Config, h: seq<Event>)
    requires ModeAfter(c, h).HalfOpen?
    ensures var k := ModeAfter(c, h).since; Successes(h, k) < c.successThreshold || Successes(h, k) == 0
  {
    if ModeAfter(c, Front(h)).HalfOpen? && !Last(h).Success? { StillShort(c, Front(h)); }
  }

  /** `n` requests, each admitted at `at` and answered by `outcome`. */
  function Answered(n: nat, at: int, outcome: Event): seq<Event> {
    if n == 0 then [] else Answered(n - 1, at, outcome) + [Ask(at)] + [outcome]
  }

  /** The history that wedges a breaker whose success threshold is out of its budget's reach:
      it trips at time 0, cools down, and then spends its budget on successes. */
  function Tripped(c: Config): seq<Event> {
    Answered(Max(c.failureThreshold, 0), 0, Failure(0))
  }

  function Probed(c: Config, n: nat): seq<Event> {
    if n == 0 then Tripped(c) else Probed(c, n - 1) + [Ask(Max(c.timeout, 0))] + [Success]
  }

  lemma DisciplinedSnoc(c: Config, h: seq<Event>, e: Event)
    requires Disciplined(c, h) && Outstanding(c, h + [e]) >= 0
    ensures Disciplined(c, h + [e])
  {
    var w := h + [e];
    forall i | 0 <= i <= |w| ensures Outstanding(c, w[..i]) >= 0 {
      if i == |w| { assert w[..i] == w; } else { assert w[..i] == h[..i]; }
    }
  }

  /** All events so far carry times up to `t`. */
  ghost predicate Upto(h: seq<Event>, t: int) {
    Monotone(h) && forall i :: 0 <= i < |h| && Timed(h[i]) ==> h[i].at <= t
  }

  lemma UptoSnoc(h: seq<Event>, e: Event, t: int, t': int)
    requires Upto(h, t) && t <= t' && (Timed(e) ==> e.at == t')
    ensures Upto(h + [e], t')
  {}

  /** After `n` answered failures on the way to tripping. */
  ghost predicate Fails(c: Config, h: seq<Event>, n: nat) {
    && Outstanding(c, h) == 0 && FailureRun(h) == n && LastFailure(h) == 0
    && ModeAfter(c, h) == if n < c.failureThreshold || n == 0 then Closed else Open
  }

  lemma Fail(c: Config, h: seq<Event>, n: nat)
    requires Fails(c, h, n) && n < c.failureThreshold
    ensures var asked := h + [Ask(0)]; Fails(c, asked + [Failure(0)], n + 1) && Outstanding(c, asked) == 1
  {
    var asked := h + [Ask(0)];
    FrontOf(h, Ask(0));
    assert ModeAfter(c, asked) == Closed && FailureRun(asked) == n && Admitted(c, asked);
    var next := asked + [Failure(0)];
    FrontOf(asked, Failure(0));
    assert Admissions(c, next) == Admissions(c, asked) && Records(next) == Records(asked) + 1;
  }

  lemma {:induction false} Tripping(c: Config, n: nat)
    requires n <= c.failureThreshold
    ensures var h := Answered(n, 0, Failure(0)); Upto(h, 0) && Disciplined(c, h) && Fails(c, h, n)
  {
    if n > 0 {
      Tripping(c, n - 1);
      var h := Answered(n - 1, 0, Failure(0));
      Fail(c, h, n - 1);
      DisciplinedSnoc(c, h, Ask(0));
      DisciplinedSnoc(c, h + [Ask(0)], Failure(0));
      UptoSnoc(h, Ask(0), 0, 0);
      UptoSnoc(h + [Ask(0)], Failure(0), 0, 0);
    } else {
      assert forall i :: 0 <= i <= 0 ==> Answered(n, 0, Failure(0))[..i] == [];
    }
  }

  /** After `n` answered probes of the episode begun at `k`; none yet when n is 0. */
  ghost predicate Probes(c: Config, h: seq<Event>, k: nat, n: nat) {
    && Outstanding(c, h) == 0
    && if n == 0 then |h| + 1 == k && ModeAfter(c, h) == Open && LastFailure(h) == 0
       else ModeAfter(c, h) == HalfOpen(k) && Successes(h, k) == n && Asks(h, k) == n - 1
  }

  lemma Probe(c: Config, h: seq<Event>, k: nat, n: nat)
    requires Probes(c, h, k, n) && n <= c.maxRequests && n + 1 < c.successThreshold
    ensures var asked := h + [Ask(Max(c.timeout, 0))]; var next := asked + [Success];
      Probes(c, next, k, n + 1) && Outstanding(c, asked) == 1
  {
    var t := Max(c.timeout, 0);
    var asked := h + [Ask(t)];
    FrontOf(h, Ask(t));
    assert ModeAfter(c, asked) == HalfOpen(k) && Successes(asked, k) == n && Asks(asked, k) == n;
    assert Admitted(c, asked);
    var next := asked + [Success];
    FrontOf(asked, Success);
    assert Admissions(c, next) == Admissions(c, asked) && Records(next) == Records(asked) + 1;
  }

  lemma {:induction false} Probing(c: Config, n: nat)
    requires c.failureThreshold >= 1 && c.maxRequests >= 0 && n <= c.maxRequests + 1 < c.successThreshold
    ensures var h := Probed(c, n);
      Upto(h, Max(c.timeout, 0)) && Disciplined(c, h) && Probes(c, h, |Tripped(c)| + 1, n)
  {
    var t := Max(c.timeout, 0);
    if n == 0 {
      Tripping(c, c.failureThreshold);
      assert Max(c.failureThreshold, 0) == c.failureThreshold && 0 <= t;
    } else {
      Probing(c, n - 1);
      var h := Probed(c, n - 1);
      Probe(c, h, |Tripped(c)| + 1, n - 1);
      DisciplinedSnoc(c, h, Ask(t));
      DisciplinedSnoc(c, h + [Ask(t)], Success);
      UptoSnoc(h, Ask(t), t, t);
      UptoSnoc(h + [Ask(t)], Success, t, t);
    }
  }

  /** With one record per admission, a half-open breaker always has an answer to wait for,
      exactly when its success threshold is at most one above its request budget. */
  lemma NoWedgeIff(c: Config)
    requires c.failureThreshold >= 1 && c.maxRequests >= 0
    ensures (forall h :: Monotone(h) && Disciplined(c, h) ==> !Wedged(c, h)) <==>
      c.successThreshold <= c.maxRequests + 1
  {
    if c.successThreshold <= c.maxRequests + 1 {
      forall h | Monotone(h) && Disciplined(c, h) ensures !Wedged(c, h) { NoWedge(c, h); }
    } else {
      Probing(c, c.maxRequests + 1);
      assert Wedged(c, Probed(c, c.maxRequests + 1));
    }
  }

  /** A wedged breaker refuses every request from then on. */
  lemma {:induction false} WedgeIsForever(c: Config, h: seq<Event>, g: seq<Event>)
    requires Wedged(c, h) && Disciplined(c, h + g)
    ensures Wedged(c, h + g) && Admissions(c, h + g) == Admissions(c, h)
  {
    if g == [] {
      assert h + g == h;
    } else {
      assert Front(h + g) == h + Front(g);
      DisciplinedFront(c, h + g);
      WedgeIsForever(c, h, Front(g));
    }
  }
}
