/** How evenly RoundRobinBalancer spreads its picks (internal/gateway/loadbalancer.go:24-32),
    with the counter that wraps at 2^64. */
module RoundRobinFairness {
  import opened Arithmetic
  import opened LoadBalancer
  import opened Wrappers
  import CB = CircuitBreaker

  /** The counter after `n` selections that found it at `c`, each advancing it as SelectBackend does. */
  function CounterAfter(c: nat, n: nat): nat {
    if n == 0 then c else (CounterAfter(c, n - 1) + 1) % WRAP
  }

  /** How often those selections pick index `r` of `k` healthy backends. */
  function Picks(c: nat, n: nat, k: nat, r: nat): nat
    requires k > 0
  {
    if n == 0 then 0 else Picks(c, n - 1, k, r) + Bit(CounterAfter(c, n) % k == r)
  }

  lemma {:induction false} CounterAfterSum(c: nat, n: nat)
    requires c < WRAP
    ensures CounterAfter(c, n) == (c + n) % WRAP
  {
    if n > 0 {
      CounterAfterSum(c, n - 1);
      AddAfterWrap(c + (n - 1));
    }
  }

  lemma AddAfterWrap(x: nat)
    ensures (x % WRAP + 1) % WRAP == (x + 1) % WRAP
  {
    var q, m := x / WRAP, x % WRAP;
    if m + 1 < WRAP {
      DivUnique(x + 1, WRAP, q, m + 1);
    } else {
      DivUnique(x + 1, WRAP, q + 1, 0);
    }
  }

  /** Quotients of a sum, by the remainders of its parts. */
  lemma DivSum(k: nat, qa: nat, ma: nat, qn: nat, mn: nat)
    requires k > 0 && ma < k && mn < k
    ensures ((qa * k + ma) + (qn * k + mn)) / k == qa + qn + Bit(ma + mn >= k)
  {
    var carry := Bit(ma + mn >= k);
    assert (qa + qn + carry) * k == qa * k + qn * k + carry * k;
    DivUnique((qa * k + ma) + (qn * k + mn), k, qa + qn + carry, ma + mn - carry * k);
  }

  lemma DivSplit(a: nat, n: nat, k: nat)
    requires k > 0
    ensures n / k <= (a + n) / k - a / k <= n / k + Bit(n % k != 0)
  {
    DivSum(k, a / k, a % k, n / k, n % k);
    assert a == a / k * k + a % k && n == n / k * k + n % k;
  }

  /** How many numbers below `x` leave remainder `r`. */
  function Below(x: nat, k: nat, r: nat): nat
    requires r < k
  {
    (x + k - 1 - r) / k
  }

  lemma BelowStep(x: nat, k: nat, r: nat)
    requires r < k
    ensures Below(x + 1, k, r) == Below(x, k, r) + Bit(x % k == r)
  {
    var q, m := x / k, x % k;
    assert x == q * k + m;
    BelowLaps(q, m, k, r);
    BelowLaps(q, m + 1, k, r);
    assert x + 1 == q * k + (m + 1);
  }

  /** `q` full laps and `m` more. */
  lemma BelowLaps(q: nat, m: nat, k: nat, r: nat)
    requires r < k && m <= k
    ensures Below(q * k + m, k, r) == q + Bit(m > r)
  {
    var x := q * k + m + k - 1 - r;
    assert (q + 1) * k == q * k + k;
    if m > r {
      DivUnique(x, k, q + 1, m - 1 - r);
    } else {
      DivUnique(x, k, q, m + k - 1 - r);
    }
  }

  /** The same for a counter that wraps: how many of its first `x` values pick `r`. */
  function BelowWrapped(x: nat, k: nat, r: nat): nat
    requires r < k
  {
    x / WRAP * Below(WRAP, k, r) + Below(x % WRAP, k, r)
  }

  lemma BelowWrappedStep(x: nat, k: nat, r: nat)
    requires r < k
    ensures BelowWrapped(x + 1, k, r) == BelowWrapped(x, k, r) + Bit(x % WRAP % k == r)
  {
    BelowStep(x % WRAP, k, r);
    if x % WRAP == WRAP - 1 {
      assert (x + 1) / WRAP == x / WRAP + 1 && (x + 1) % WRAP == 0;
      assert (x / WRAP + 1) * Below(WRAP, k, r) == x / WRAP * Below(WRAP, k, r) + Below(WRAP, k, r);
      BelowLaps(0, 0, k, r);
    } else {
      assert (x + 1) / WRAP == x / WRAP && (x + 1) % WRAP == x % WRAP + 1;
    }
  }

  lemma {:induction false} PicksCount(c: nat, n: nat, k: nat, r: nat)
    requires r < k && c < WRAP
    ensures Picks(c, n, k, r) == BelowWrapped(c + n + 1, k, r) - BelowWrapped(c + 1, k, r)
  {
    if n > 0 {
      PicksCount(c, n - 1, k, r);
      CounterAfterSum(c, n);
      BelowWrappedStep(c + n, k, r);
    }
  }

  /** A window of selections that does not cross the wrap picks each of k backends n/k times,
      rounded down or up. */
  lemma FairWithoutWrap(c: nat, n: nat, k: nat, r: nat)
    requires r < k && c + n < WRAP
    ensures n / k <= Picks(c, n, k, r) <= n / k + Bit(n % k != 0)
  {
    PicksCount(c, n, k, r);
    PlainBelow(c + 1, k, r);
    PlainBelow(c + n + 1, k, r);
    DivSplit(c + k - r, n, k);
    assert c + 1 + k - 1 - r == c + k - r;
  }

  lemma PlainBelow(x: nat, k: nat, r: nat)
    requires r < k && x <= WRAP
    ensures BelowWrapped(x, k, r) == Below(x, k, r)
  {
    if x == WRAP { BelowLaps(0, 0, k, r); }
  }

  /** An earlier index is never behind, and at most one pick per lap ahead. */
  lemma BelowSpread(x: nat, k: nat, r: nat, r': nat)
    requires r <= r' < k
    ensures 0 <= Below(x, k, r) - Below(x, k, r') <= 1
  {
    BelowLaps(x / k, x % k, k, r);
    BelowLaps(x / k, x % k, k, r');
    assert x == x / k * k + x % k;
  }

  lemma BelowWrappedSpread(x: nat, k: nat, r: nat, r': nat)
    requires r <= r' < k
    ensures 0 <= BelowWrapped(x, k, r) - BelowWrapped(x, k, r') <= x / WRAP + Bit(x % WRAP != 0)
    ensures WRAP % k == 0 ==> BelowWrapped(x, k, r) - BelowWrapped(x, k, r') <= 1
  {
    BelowSpread(WRAP, k, r, r');
    BelowSpread(x % WRAP, k, r, r');
    var q, d := x / WRAP, Below(WRAP, k, r) - Below(WRAP, k, r');
    assert q * Below(WRAP, k, r) - q * Below(WRAP, k, r') == q * d;
    BelowLaps(0, 0, k, r);
    BelowLaps(0, 0, k, r');
    if WRAP % k == 0 {
      BelowLaps(WRAP / k, 0, k, r);
      BelowLaps(WRAP / k, 0, k, r');
      assert WRAP == WRAP / k * k + 0;
    }
  }

  /** Each wrap the window crosses can set two backends one further pick apart, no more. */
  lemma SpreadGrowsWithWraps(c: nat, n: nat, k: nat, r: nat, r': nat)
    requires c < WRAP && r < k && r' < k
    ensures -1 - (c + n) / WRAP <= Picks(c, n, k, r) - Picks(c, n, k, r') <= 1 + (c + n) / WRAP
  {
    if r > r' {
      SpreadGrowsWithWraps(c, n, k, r', r);
    } else {
      PicksCount(c, n, k, r);
      PicksCount(c, n, k, r');
      BelowWrappedSpread(c + 1, k, r, r');
      BelowWrappedSpread(c + n + 1, k, r, r');
    }
  }

  /** Fair across the wrap: from any state of the counter no backend is ever two picks ahead. */
  ghost predicate AlwaysFair(k: nat)
    requires k > 0
  {
    forall c: nat, n: nat, r: nat, r': nat ::
      c < 0x1_0000_0000_0000_0000 && r < k && r' < k ==> Picks(c, n, k, r) <= Picks(c, n, k, r') + 1
  }

  lemma FairIffDivides(k: nat)
    requires 0 < k < WRAP
    ensures AlwaysFair(k) <==> WRAP % k == 0
  {
    if WRAP % k == 0 {
      forall c: nat, n: nat, r: nat, r': nat | c < WRAP && r < k && r' < k
        ensures Picks(c, n, k, r) <= Picks(c, n, k, r') + 1
      {
        PicksCount(c, n, k, r);
        PicksCount(c, n, k, r');
        var lo, hi := if r <= r' then r else r', if r <= r' then r' else r;
        BelowWrappedSpread(c + 1, k, lo, hi);
        BelowWrappedSpread(c + n + 1, k, lo, hi);
      }
    } else {
      UnfairWindow(k);
    }
  }

  function Pow2(e: nat): nat { if e == 0 then 1 else 2 * Pow2(e - 1) }

  lemma {:induction false} Pow2Sum(a: nat, b: nat)
    ensures Pow2(a + b) == Pow2(a) * Pow2(b)
  {
    if a > 0 {
      Pow2Sum(a - 1, b);
      TwiceProduct(Pow2(a - 1), Pow2(b));
    }
  }

  lemma TwiceProduct(x: nat, y: nat)
    ensures (2 * x) * y == 2 * (x * y)
  {}

  lemma WrapIsPow2()
    ensures Pow2(64) == 0x1_0000_0000_0000_0000
  {
    assert Pow2(8) == 0x100;
    Pow2Sum(8, 8);
    Pow2Sum(16, 16);
    Pow2Sum(32, 32);
  }

  /** The divisors of a power of two are the powers of two up to it. */
  lemma {:induction false} DividesPow2(k: nat, e: nat) returns (d: nat)
    requires k > 0 && Pow2(e) % k == 0
    ensures k == Pow2(d)
  {
    if k == 1 {
      d := 0;
    } else if k % 2 == 0 {
      Halve(k, e);
      d := DividesPow2(k / 2, e - 1);
      d := d + 1;
    } else {
      OddDivides(k, e);
      d := DividesPow2(k, e - 1);
    }
  }

  lemma Halve(k: nat, e: nat)
    requires k > 1 && k % 2 == 0 && Pow2(e) % k == 0
    ensures e > 0 && Pow2(e - 1) % (k / 2) == 0
  {
    var q := Pow2(e) / k;
    assert Pow2(e) == q * k && q * k == 2 * (q * (k / 2));
    assert 1 % k == 1;
    DivUnique(Pow2(e - 1), k / 2, q, 0);
  }

  lemma OddDivides(k: nat, e: nat)
    requires k > 1 && k % 2 == 1 && Pow2(e) % k == 0
    ensures e > 0 && Pow2(e - 1) % k == 0
  {
    var q := Pow2(e) / k;
    assert Pow2(e) == q * k;
    assert 1 % k == 1;
    OddFactor(q, k);
    DivUnique(Pow2(e - 1), k, q / 2, 0);
  }

  lemma OddFactor(q: nat, k: nat)
    requires k % 2 == 1 && q * k % 2 == 0
    ensures q * k == 2 * (q / 2 * k)
  {
    assert q * k == 2 * (q * (k / 2)) + q;
    assert q == 2 * (q / 2);
  }

  lemma {:induction false} Pow2Grows(a: nat, b: nat)
    requires a <= b
    ensures 0 < Pow2(a) <= Pow2(b)
    decreases b
  {
    if a < b { Pow2Grows(a, b - 1); } else if a > 0 { Pow2Grows(a - 1, b - 1); }
  }

  /** Round robin stays fair across the wrap of its 64-bit counter exactly when the number of
      backends is a power of two. */
  lemma FairAcrossWrapIff(k: nat)
    requires 0 < k < 0x1_0000_0000_0000_0000
    ensures AlwaysFair(k) <==> exists d :: k == Pow2(d)
  {
    WrapIsPow2();
    FairIffDivides(k);
    if WRAP % k == 0 { var d := DividesPow2(k, 64); }
    if d: nat :| k == Pow2(d) {
      if d >= 64 { Pow2Grows(64, d); }
      Pow2Sum(64 - d, d);
      DivUnique(WRAP, k, Pow2(64 - d), 0);
    }
  }

  /** The i-th selection of a new balancer picks index i modulo k, until its 64-bit counter wraps. */
  lemma NewBalancerCountsUp(i: nat, k: nat)
    requires k > 0
    ensures CounterAfter(0, i) == i % 0x1_0000_0000_0000_0000
    ensures i < 0x1_0000_0000_0000_0000 ==> CounterAfter(0, i) % k == i % k
  {
    hide CounterAfter;
    CounterAfterSum(0, i);
  }

  /** The last partial lap before the wrap and the same backends again after it. */
  lemma UnfairWindow(k: nat)
    requires 0 < k < WRAP && WRAP % k != 0
    ensures var d := WRAP % k; Picks(WRAP - d - 1, 2 * d, k, 0) == Picks(WRAP - d - 1, 2 * d, k, k - 1) + 2
  {
    UnfairCount(k, 0);
    UnfairCount(k, k - 1);
  }

  lemma UnfairCount(k: nat, r: nat)
    requires r < k < WRAP && WRAP % k != 0
    ensures var d := WRAP % k; Picks(WRAP - d - 1, 2 * d, k, r) == 2 * Bit(d > r)
  {
    var d, q := WRAP % k, WRAP / k;
    assert WRAP == q * k + d;
    PicksCount(WRAP - d - 1, 2 * d, k, r);
    PlainBelow(WRAP - d, k, r);
    BelowLaps(q, 0, k, r);
    BelowLaps(q, d, k, r);
    BelowLaps(0, d, k, r);
    assert (WRAP + d) / WRAP == 1 && (WRAP + d) % WRAP == d;
  }

  // ---- Calls of the balancer -------------------------------------------------------------

  /** How often `r` occurs. */
  function Tally(picks: seq<nat>, r: nat): nat {
    if picks == [] then 0 else Tally(picks[..|picks| - 1], r) + Bit(picks[|picks| - 1] == r)
  }

  /** Each index was picked as often as a counter that started at `c` picks it. */
  ghost predicate Tallied(c: nat, k: nat, picks: seq<nat>)
    requires k > 0
  {
    forall r :: 0 <= r < k ==> Tally(picks, r) == Picks(c, |picks|, k, r)
  }

  lemma OneMorePick(c: nat, k: nat, picks: seq<nat>)
    requires k > 0 && Tallied(c, k, picks)
    ensures Tallied(c, k, picks + [CounterAfter(c, |picks| + 1) % k])
  {
    var more := picks + [CounterAfter(c, |picks| + 1) % k];
    assert more[..|picks|] == picks;
    forall r | 0 <= r < k ensures Tally(more, r) == Picks(c, |more|, k, r) {}
  }

  /** Behind closed breakers a selection picks among the backends marked healthy, and leaves the
      breakers closed. */
  method SelectClosed(balancer: RoundRobinBalancer, backends: seq<Backend>, times: seq<int>)
    returns (selected: Option<Backend>)
    requires balancer.Valid() && AllValid(backends) && AllBreakersClosed(backends) && |times| == |backends|
    requires |MarkedHealthy(backends)| > 0
    modifies balancer, Breakers(backends)
    ensures balancer.Valid() && AllValid(backends) && AllBreakersClosed(backends)
    ensures balancer.counter == (old(balancer.counter) + 1) % WRAP
    ensures var healthy := MarkedHealthy(backends); selected == Some(healthy[balancer.counter % |healthy|])
  {
    hide CB.ModeAfter, CB.CircuitBreaker.Valid, Passing, AsksTo, MarkedHealthy;
    AskingClosed(backends, times);
    selected := balancer.SelectBackend(backends, times);
  }

  /** Behind closed breakers, any number of selections picks each of the backends marked healthy
      as often as the counter alone says. */
  method SelectRepeatedly(balancer: RoundRobinBalancer, backends: seq<Backend>, times: seq<seq<int>>)
    returns (selected: seq<Option<Backend>>, ghost picks: seq<nat>)
    requires balancer.Valid() && AllValid(backends) && AllBreakersClosed(backends)
    requires forall i :: 0 <= i < |times| ==> |times[i]| == |backends|
    requires |MarkedHealthy(backends)| > 0
    modifies balancer, Breakers(backends)
    ensures balancer.Valid() && balancer.counter == CounterAfter(old(balancer.counter), |times|)
    ensures AllValid(backends) && AllBreakersClosed(backends)
    ensures var healthy := MarkedHealthy(backends);
      && |selected| == |picks| == |times|
      && (forall i :: 0 <= i < |picks| ==> picks[i] < |healthy| && selected[i] == Some(healthy[picks[i]]))
      && Tallied(old(balancer.counter), |healthy|, picks)
  {
    ghost var healthy, start := MarkedHealthy(backends), balancer.counter;
    assert Tallied(start, |healthy|, []);
    hide CB.CircuitBreaker.Valid, MarkedHealthy, Tallied, AllBreakersClosed;
    selected, picks := [], [];
    for n := 0 to |times|
      invariant balancer.Valid() && balancer.counter == CounterAfter(start, n)
      invariant AllValid(backends) && AllBreakersClosed(backends)
      invariant |selected| == |picks| == n
      invariant forall i :: 0 <= i < n ==> picks[i] < |healthy| && selected[i] == Some(healthy[picks[i]])
      invariant Tallied(start, |healthy|, picks)
    {
      var backend := SelectClosed(balancer, backends, times[n]);
      var pick := balancer.counter % |healthy|;
      OneMorePick(start, |healthy|, picks);
      selected, picks := selected + [backend], picks + [pick];
    }
  }
}
