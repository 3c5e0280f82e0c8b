/** Backend selection (internal/gateway/loadbalancer.go). */
module LoadBalancer {
  import opened Arithmetic
  import opened Wrappers
  import CB = CircuitBreaker
  import BreakerTheorems

  datatype Backend = Backend(url: string, healthy: bool, weight: int, breaker: CB.CircuitBreaker)

  // ---- The health filter -----------------------------------------------------------------

  /** The questions the filter puts to one breaker: every backend is asked, fit or not. */
  ghost function AsksTo(bs: seq<Backend>, times: seq<int>, b: CB.CircuitBreaker): seq<CB.Event>
    requires |times| == |bs|
  {
    if bs == [] then [] else
    var n := |bs| - 1;
    AsksTo(bs[..n], times[..n], b) + (if bs[n].breaker == b then [CB.Ask(times[n])] else [])
  }

  /** The backends that are marked healthy and admitted by their breaker, judged from the
      breakers' histories before the filter ran. */
  ghost function Passing(bs: seq<Backend>, times: seq<int>, past: map<CB.CircuitBreaker, seq<CB.Event>>): seq<Backend>
    requires |times| == |bs| && forall b :: b in bs ==> b.breaker in past
  {
    if bs == [] then [] else
    var n := |bs| - 1;
    var b := bs[n];
    Passing(bs[..n], times[..n], past)
    + (if b.healthy && CB.Admits(b.breaker.config, past[b.breaker] + AsksTo(bs[..n], times[..n], b.breaker), times[n])
      then [b] else [])
  }

  ghost function Breakers(bs: seq<Backend>): set<CB.CircuitBreaker> {
    set b | b in bs :: b.breaker
  }

  ghost function Histories(bs: seq<Backend>): map<CB.CircuitBreaker, seq<CB.Event>>
    reads Breakers(bs)
  {
    map b | b in Breakers(bs) :: b.history
  }

  ghost predicate AllValid(bs: seq<Backend>)
    reads Breakers(bs)
  {
    forall b :: b in Breakers(bs) ==> b.Valid()
  }

  /** `times[i]` is the clock when the i-th backend is asked. */
  method GetHealthyBackends(backends: seq<Backend>, times: seq<int>) returns (healthy: seq<Backend>)
    requires |times| == |backends| && AllValid(backends)
    modifies Breakers(backends)
    ensures AllValid(backends)
    ensures forall b :: b in Breakers(backends) ==> b.history == old(b.history) + AsksTo(backends, times, b)
    ensures healthy == Passing(backends, times, old(Histories(backends)))
  {
    hide CB.CircuitBreaker.Valid, CB.ModeAfter, CB.Admits, AsksTo, Passing;
    ghost var past, all := Histories(backends), Breakers(backends);
    NothingAsked(past);
    healthy := [];
    for i := 0 to |backends|
      invariant all == Breakers(backends) && past.Keys == all
      invariant forall b :: b in all ==> b.Valid() && b.history == past[b] + AsksTo(backends[..i], times[..i], b)
      invariant healthy == Passing(backends[..i], times[..i], past)
    {
      var backend := backends[i];
      StepPassing(backends, times, past, i);
      assert backend.breaker in all;
      label asking:
      var canRequest := backend.breaker.CanRequest(times[i]);
      assert forall b :: b in all && b != backend.breaker ==> b.Valid() && b.history == old@asking(b.history);
      if backend.healthy && canRequest {
        healthy := healthy + [backend];
      }
    }
    assert backends[..|backends|] == backends && times[..|times|] == times;
  }

  lemma NothingAsked(past: map<CB.CircuitBreaker, seq<CB.Event>>)
    ensures Passing([], [], past) == [] && forall b :: AsksTo([], [], b) == []
  {}

  lemma StepPassing(bs: seq<Backend>, times: seq<int>, past: map<CB.CircuitBreaker, seq<CB.Event>>, i: nat)
    requires i < |bs| == |times| && forall b :: b in bs ==> b.breaker in past
    ensures forall b :: AsksTo(bs[..i + 1], times[..i + 1], b) ==
                        AsksTo(bs[..i], times[..i], b) + (if bs[i].breaker == b then [CB.Ask(times[i])] else [])
    ensures Passing(bs[..i + 1], times[..i + 1], past) == Passing(bs[..i], times[..i], past)
      + (if bs[i].healthy &&
            CB.Admits(bs[i].breaker.config, past[bs[i].breaker] + AsksTo(bs[..i], times[..i], bs[i].breaker), times[i])
         then [bs[i]] else [])
  {
    assert bs[..i + 1][..i] == bs[..i] && times[..i + 1][..i] == times[..i];
  }

  lemma {:induction false} AsksKeepClosed(c: CB.Config, h: seq<CB.Event>, g: seq<CB.Event>)
    requires CB.ModeAfter(c, h).Closed? && forall i :: 0 <= i < |g| ==> !g[i].Failure?
    ensures CB.ModeAfter(c, h + g).Closed?
  {
    if g == [] {
      assert h + g == h;
    } else {
      assert CB.Front(h + g) == h + CB.Front(g);
      AsksKeepClosed(c, h, CB.Front(g));
    }
  }

  lemma {:induction false} AsksOnly(bs: seq<Backend>, times: seq<int>, b: CB.CircuitBreaker)
    requires |times| == |bs|
    ensures forall i :: 0 <= i < |AsksTo(bs, times, b)| ==> AsksTo(bs, times, b)[i].Ask?
  {
    if bs != [] { AsksOnly(bs[..|bs| - 1], times[..|bs| - 1], b); }
  }

  /** The entries of the list that share a breaker. */
  ghost function Entries(bs: seq<Backend>, b: CB.CircuitBreaker): nat {
    if bs == [] then 0 else Entries(bs[..|bs| - 1], b) + Bit(bs[|bs| - 1].breaker == b)
  }

  /** A breaker is asked once for each entry it has, fit or not, at that entry's time and in the
      order of the list. */
  lemma {:induction false} EveryEntryAsks(bs: seq<Backend>, times: seq<int>, b: CB.CircuitBreaker)
    requires |times| == |bs|
    ensures |AsksTo(bs, times, b)| == Entries(bs, b)
    ensures forall i :: 0 <= i < |bs| && bs[i].breaker == b ==>
      Entries(bs[..i], b) < |AsksTo(bs, times, b)| && AsksTo(bs, times, b)[Entries(bs[..i], b)] == CB.Ask(times[i])
  {
    if bs != [] {
      var n := |bs| - 1;
      EveryEntryAsks(bs[..n], times[..n], b);
      assert forall i :: 0 <= i < n ==> bs[..n][..i] == bs[..i];
    }
  }

  /** No backend is selected while its breaker is open and has not cooled down. */
  lemma {:induction false} OpenIsNotSelected(
    bs: seq<Backend>, times: seq<int>, past: map<CB.CircuitBreaker, seq<CB.Event>>, b: CB.CircuitBreaker)
    requires |times| == |bs| && (forall x :: x in bs ==> x.breaker in past) && b in past
    requires CB.ModeAfter(b.config, past[b]).Open?
    requires forall i :: 0 <= i < |bs| && bs[i].breaker == b ==> times[i] < CB.LastFailure(past[b]) + b.config.timeout
    ensures forall x :: x in Passing(bs, times, past) ==> x.breaker != b
  {
    if bs != [] {
      var n := |bs| - 1;
      OpenIsNotSelected(bs[..n], times[..n], past, b);
      if bs[n].breaker == b {
        var asks := AsksTo(bs[..n], times[..n], b);
        AsksComeEarly(bs[..n], times[..n], b, CB.LastFailure(past[b]) + b.config.timeout);
        BreakerTheorems.EarlyAsksWait(b.config, past[b], asks);
        BreakerTheorems.OpenAdmitsIff(b.config, past[b] + asks, times[n]);
      }
    }
  }

  /** Nor while its half-open breaker has had as many requests as it lets through. */
  lemma {:induction false} ExhaustedIsNotSelected(
    bs: seq<Backend>, times: seq<int>, past: map<CB.CircuitBreaker, seq<CB.Event>>, b: CB.CircuitBreaker)
    requires |times| == |bs| && (forall x :: x in bs ==> x.breaker in past) && b in past
    requires CB.ModeAfter(b.config, past[b]).HalfOpen?
    requires CB.Asks(past[b], CB.ModeAfter(b.config, past[b]).since) >= b.config.maxRequests
    ensures forall x :: x in Passing(bs, times, past) ==> x.breaker != b
  {
    if bs != [] {
      var n := |bs| - 1;
      ExhaustedIsNotSelected(bs[..n], times[..n], past, b);
      AsksOnly(bs[..n], times[..n], b);
      BreakerTheorems.AsksAlone(b.config, past[b], AsksTo(bs[..n], times[..n], b));
    }
  }

  /** A healthy backend is selected while its half-open breaker lets another request through. */
  lemma ProbeIsSelected(bs: seq<Backend>, times: seq<int>, past: map<CB.CircuitBreaker, seq<CB.Event>>, i: nat)
    requires |times| == |bs| && (forall x :: x in bs ==> x.breaker in past) && i < |bs| && bs[i].healthy
    requires var b := bs[i].breaker;
      var mode := CB.ModeAfter(b.config, past[b]);
      mode.HalfOpen? && CB.Asks(past[b], mode.since) + Entries(bs[..i], b) < b.config.maxRequests
    ensures bs[i] in Passing(bs, times, past)
  {
    var b := bs[i].breaker;
    AsksOnly(bs[..i], times[..i], b);
    EveryEntryAsks(bs[..i], times[..i], b);
    BreakerTheorems.AsksAlone(b.config, past[b], AsksTo(bs[..i], times[..i], b));
    StepPassing(bs, times, past, i);
    PassingGrows(bs, times, past, i + 1);
  }

  lemma {:induction false} AsksComeEarly(bs: seq<Backend>, times: seq<int>, b: CB.CircuitBreaker, due: int)
    requires |times| == |bs| && forall i :: 0 <= i < |bs| && bs[i].breaker == b ==> times[i] < due
    ensures var asks := AsksTo(bs, times, b);
      BreakerTheorems.AllAsks(asks) && forall i :: 0 <= i < |asks| ==> asks[i].at < due
  {
    if bs != [] { AsksComeEarly(bs[..|bs| - 1], times[..|bs| - 1], b, due); }
  }

  /** Once it has cooled down, a backend marked healthy is among those selected from again. */
  lemma CooledIsSelected(bs: seq<Backend>, times: seq<int>, past: map<CB.CircuitBreaker, seq<CB.Event>>, i: nat)
    requires |times| == |bs| && (forall x :: x in bs ==> x.breaker in past) && i < |bs| && bs[i].healthy
    requires CB.ModeAfter(bs[i].breaker.config, past[bs[i].breaker]).Open?
    requires forall j :: 0 <= j < i ==> bs[j].breaker != bs[i].breaker
    requires times[i] >= CB.LastFailure(past[bs[i].breaker]) + bs[i].breaker.config.timeout
    ensures bs[i] in Passing(bs, times, past)
  {
    var b := bs[i].breaker;
    NotAsked(bs[..i], times[..i], b);
    BreakerTheorems.OpenAdmitsIff(b.config, past[b], times[i]);
    assert past[b] + [] == past[b];
    StepPassing(bs, times, past, i);
    PassingGrows(bs, times, past, i + 1);
  }

  lemma {:induction false} NotAsked(bs: seq<Backend>, times: seq<int>, b: CB.CircuitBreaker)
    requires |times| == |bs| && forall j :: 0 <= j < |bs| ==> bs[j].breaker != b
    ensures AsksTo(bs, times, b) == []
  {
    if bs != [] { NotAsked(bs[..|bs| - 1], times[..|bs| - 1], b); }
  }

  lemma {:induction false} PassingGrows(
    bs: seq<Backend>, times: seq<int>, past: map<CB.CircuitBreaker, seq<CB.Event>>, i: nat)
    requires i <= |bs| == |times| && forall x :: x in bs ==> x.breaker in past
    ensures forall x :: x in Passing(bs[..i], times[..i], past) ==> x in Passing(bs, times, past)
    decreases |bs| - i
  {
    if i == |bs| {
      assert bs[..i] == bs && times[..i] == times;
    } else {
      StepPassing(bs, times, past, i);
      PassingGrows(bs, times, past, i + 1);
    }
  }

  /** The backends marked healthy, in order. */
  function MarkedHealthy(bs: seq<Backend>): seq<Backend> {
    if bs == [] then [] else MarkedHealthy(bs[..|bs| - 1]) + (if bs[|bs| - 1].healthy then [bs[|bs| - 1]] else [])
  }

  /** Every breaker was closed before the filter ran. */
  ghost predicate AllClosed(bs: seq<Backend>, past: map<CB.CircuitBreaker, seq<CB.Event>>) {
    forall b :: b in bs ==> b.breaker in past && CB.ModeAfter(b.breaker.config, past[b.breaker]).Closed?
  }

  /** Behind closed breakers the filter keeps exactly the backends marked healthy. */
  lemma {:induction false} ClosedPassAll(bs: seq<Backend>, times: seq<int>, past: map<CB.CircuitBreaker, seq<CB.Event>>)
    requires |times| == |bs| && AllClosed(bs, past)
    ensures Passing(bs, times, past) == MarkedHealthy(bs)
  {
    if bs != [] {
      var n := |bs| - 1;
      assert AllClosed(bs[..n], past);
      ClosedPassAll(bs[..n], times[..n], past);
      ClosedAdmits(bs[..n], times[..n], past, bs[n].breaker, times[n]);
    }
  }

  lemma ClosedAdmits(asked: seq<Backend>, times: seq<int>, past: map<CB.CircuitBreaker, seq<CB.Event>>,
    b: CB.CircuitBreaker, now: int)
    requires |times| == |asked| && b in past && CB.ModeAfter(b.config, past[b]).Closed?
    ensures CB.ModeAfter(b.config, past[b] + AsksTo(asked, times, b)).Closed?
    ensures CB.Admits(b.config, past[b] + AsksTo(asked, times, b), now)
  {
    hide CB.ModeAfter;
    AsksOnly(asked, times, b);
    AsksKeepClosed(b.config, past[b], AsksTo(asked, times, b));
  }

  ghost predicate AllBreakersClosed(backends: seq<Backend>)
    reads Breakers(backends)
  {
    forall b :: b in Breakers(backends) ==> CB.ModeAfter(b.config, b.history).Closed?
  }

  /** What asking closed breakers comes to. */
  lemma AskingClosed(backends: seq<Backend>, times: seq<int>)
    requires |times| == |backends| && AllBreakersClosed(backends)
    ensures Passing(backends, times, Histories(backends)) == MarkedHealthy(backends)
    ensures forall b :: b in Breakers(backends) ==>
      CB.ModeAfter(b.config, b.history + AsksTo(backends, times, b)).Closed?
  {
    hide CB.ModeAfter;
    var past := Histories(backends);
    ClosedPassAll(backends, times, past);
    forall b | b in Breakers(backends) ensures CB.ModeAfter(b.config, b.history + AsksTo(backends, times, b)).Closed? {
      ClosedAdmits(backends, times, past, b, 0);
    }
  }

  // ---- Round robin -----------------------------------------------------------------------

  /** The counter is a uint64. */
  const WRAP: nat := 0x1_0000_0000_0000_0000

  class RoundRobinBalancer {
    var counter: nat

    ghost predicate Valid()
      reads this
    {
      counter < WRAP
    }

    constructor ()
      ensures Valid() && counter == 0
    {
      counter := 0;
    }

    method SelectBackend(backends: seq<Backend>, times: seq<int>) returns (selected: Option<Backend>)
      requires Valid() && |times| == |backends| && AllValid(backends)
      modifies this, Breakers(backends)
      ensures Valid() && AllValid(backends)
      ensures forall b :: b in Breakers(backends) ==> b.history == old(b.history) + AsksTo(backends, times, b)
      ensures var healthy := Passing(backends, times, old(Histories(backends)));
        if healthy == [] then selected == None && counter == old(counter)
        else counter == (old(counter) + 1) % WRAP && selected == Some(healthy[counter % |healthy|])
    {
      hide CB.CircuitBreaker.Valid, Passing, AsksTo;
      var healthy := GetHealthyBackends(backends, times);
      if |healthy| == 0 {
        return None;
      }
      counter := (counter + 1) % WRAP;
      selected := Some(healthy[counter % |healthy|]);
    }
  }

  // ---- Random ----------------------------------------------------------------------------

  class RandomBalancer {
    constructor () {}

    /** `roll` stands for the random source: any value. */
    method SelectBackend(backends: seq<Backend>, times: seq<int>, roll: nat) returns (selected: Option<Backend>)
      requires |times| == |backends| && AllValid(backends)
      modifies Breakers(backends)
      ensures AllValid(backends)
      ensures forall b :: b in Breakers(backends) ==> b.history == old(b.history) + AsksTo(backends, times, b)
      ensures var healthy := Passing(backends, times, old(Histories(backends)));
        if healthy == [] then selected == None else selected.Some? && selected.value in healthy
    {
      var healthy := GetHealthyBackends(backends, times);
      if |healthy| == 0 {
        return None;
      }
      selected := Some(healthy[roll % |healthy|]);
    }
  }

  // ---- Least connections -----------------------------------------------------------------

  /** A Go map read: a missing key counts as zero. */
  function Load(connections: map<string, int>, url: string): int {
    if url in connections then connections[url] else 0
  }

  function Incremented(connections: map<string, int>, url: string): map<string, int> {
    connections[url := Load(connections, url) + 1]
  }

  /** One less, but never below zero. */
  function Decremented(connections: map<string, int>, url: string): map<string, int> {
    if Load(connections, url) > 0 then connections[url := Load(connections, url) - 1] else connections
  }

  /** Index `j` carries the least load, and is the first to do so. */
  ghost predicate FirstLeast(loads: seq<int>, j: nat) {
    && j < |loads|
    && (forall i :: 0 <= i < |loads| ==> loads[j] <= loads[i])
    && (forall i :: 0 <= i < j ==> loads[j] < loads[i])
  }

  function Loads(bs: seq<Backend>, connections: map<string, int>): (l: seq<int>)
    ensures |l| == |bs| && forall i :: 0 <= i < |bs| ==> l[i] == Load(connections, bs[i].url)
  {
    seq(|bs|, i requires 0 <= i < |bs| => Load(connections, bs[i].url))
  }

  class LeastConnectionsBalancer {
    var connections: map<string, int>

    ghost predicate Valid()
      reads this
    {
      forall url :: url in connections ==> connections[url] >= 0
    }

    constructor ()
      ensures Valid() && connections == map[]
    {
      connections := map[];
    }

    /** The start value -1 cannot be taken for a real minimum because no load is negative. */
    method SelectBackend(backends: seq<Backend>, times: seq<int>) returns (selected: Option<Backend>)
      requires Valid() && |times| == |backends| && AllValid(backends)
      modifies Breakers(backends)
      ensures Valid() && AllValid(backends) && connections == old(connections)
      ensures forall b :: b in Breakers(backends) ==> b.history == old(b.history) + AsksTo(backends, times, b)
      ensures var healthy := Passing(backends, times, old(Histories(backends)));
        if healthy == [] then selected == None
        else exists j: nat :: FirstLeast(Loads(healthy, connections), j) && selected == Some(healthy[j])
    {
      hide CB.CircuitBreaker.Valid, CB.ModeAfter, CB.Admits, AsksTo, Passing;
      var healthy := GetHealthyBackends(backends, times);
      if |healthy| == 0 {
        return None;
      }
      ghost var loads := Loads(healthy, connections);
      var minConnections := -1;
      ghost var j := 0;
      selected := None;
      for i := 0 to |healthy|
        invariant i == 0 ==> minConnections == -1
        invariant i > 0 ==> FirstLeast(loads[..i], j) && minConnections == loads[j] && selected == Some(healthy[j])
      {
        var load := Load(connections, healthy[i].url);
        if minConnections == -1 || load < minConnections {
          minConnections, selected, j := load, Some(healthy[i]), i;
        }
      }
      assert loads[..|healthy|] == loads;
    }

    method IncrementConnections(url: string)
      requires Valid()
      modifies this
      ensures Valid() && connections == Incremented(old(connections), url)
    {
      connections := connections[url := Load(connections, url) + 1];
    }

    method DecrementConnections(url: string)
      requires Valid()
      modifies this
      ensures Valid() && connections == Decremented(old(connections), url)
    {
      if Load(connections, url) > 0 {
        connections := connections[url := connections[url] - 1];
      }
    }
  }

  // ---- Least connections fills up evenly -------------------------------------------------

  ghost predicate DistinctUrls(bs: seq<Backend>) {
    forall i, j :: 0 <= i < j < |bs| ==> bs[i].url != bs[j].url
  }

  /** `rounds` of select-then-increment: `maps[t]` are the connections before round t and
      `picks[t]` the index it selects, always the first least loaded one. */
  ghost predicate Rounds(bs: seq<Backend>, maps: seq<map<string, int>>, picks: seq<nat>) {
    && |maps| == |picks| + 1
    && (forall t :: 0 <= t < |picks| ==> FirstLeast(Loads(bs, maps[t]), picks[t]))
    && (forall t :: 0 <= t < |picks| ==> maps[t + 1] == Incremented(maps[t], bs[picks[t]].url))
  }

  /** Everyone has carried `q` requests and the first `t` backends one more. */
  ghost predicate Turned(bs: seq<Backend>, m: map<string, int>, q: int, t: nat) {
    forall i :: 0 <= i < |bs| ==> Load(m, bs[i].url) == q + (if i < t then 1 else 0)
  }

  lemma OneTurn(bs: seq<Backend>, m: map<string, int>, q: int, t: nat, j: nat)
    requires DistinctUrls(bs) && t < |bs| && Turned(bs, m, q, t) && FirstLeast(Loads(bs, m), j)
    ensures j == t
    ensures var m' := Incremented(m, bs[j].url);
      if t == |bs| - 1 then Turned(bs, m', q + 1, 0) else Turned(bs, m', q, t + 1)
  {
    var loads := Loads(bs, m);
    assert loads[t] == q && loads[j] == q + (if j < t then 1 else 0);
  }

  /** From idle, n rounds over k distinct backends are n turns of a round robin: the first n % k
      backends have carried n / k + 1 requests and the others n / k. */
  lemma {:induction false} LeastConnectionsTakesTurns(bs: seq<Backend>, maps: seq<map<string, int>>, picks: seq<nat>)
    requires |bs| > 0 && DistinctUrls(bs) && Rounds(bs, maps, picks)
    requires forall i :: 0 <= i < |bs| ==> Load(maps[0], bs[i].url) == 0
    ensures Turned(bs, maps[|picks|], |picks| / |bs|, |picks| % |bs|)
    ensures forall t :: 0 <= t < |picks| ==> picks[t] == t % |bs|
  {
    var n := |picks|;
    if n > 0 {
      assert Rounds(bs, maps[..n], picks[..n - 1]);
      LeastConnectionsTakesTurns(bs, maps[..n], picks[..n - 1]);
      OneTurn(bs, maps[n - 1], (n - 1) / |bs|, (n - 1) % |bs|, picks[n - 1]);
      NextTurn(n - 1, |bs|);
    }
  }

  lemma NextTurn(n: nat, k: nat)
    requires k > 0
    ensures if n % k == k - 1 then (n + 1) / k == n / k + 1 && (n + 1) % k == 0
            else (n + 1) / k == n / k && (n + 1) % k == n % k + 1
  {
    var q, m := n / k, n % k;
    assert n == q * k + m;
    assert (q + 1) * k == q * k + k;
    DivUnique(n + 1, k, if m == k - 1 then q + 1 else q, if m == k - 1 then 0 else m + 1);
  }

  /** One round: a selection behind closed breakers, and its request is counted. */
  method TakeTurn(balancer: LeastConnectionsBalancer, backends: seq<Backend>, times: seq<int>) returns (ghost pick: nat)
    requires balancer.Valid() && AllValid(backends) && AllBreakersClosed(backends) && |times| == |backends|
    requires |MarkedHealthy(backends)| > 0
    modifies balancer, Breakers(backends)
    ensures balancer.Valid() && AllValid(backends) && AllBreakersClosed(backends)
    ensures var healthy := MarkedHealthy(backends);
      && FirstLeast(Loads(healthy, old(balancer.connections)), pick)
      && balancer.connections == Incremented(old(balancer.connections), healthy[pick].url)
  {
    hide CB.ModeAfter, CB.CircuitBreaker.Valid, Passing, AsksTo, MarkedHealthy;
    AskingClosed(backends, times);
    ghost var healthy := MarkedHealthy(backends);
    var selected := balancer.SelectBackend(backends, times);
    pick :| FirstLeast(Loads(healthy, balancer.connections), pick) && selected == Some(healthy[pick]);
    balancer.IncrementConnections(selected.value.url);
  }

  /** Any number of requests that are counted and stay, from idle and behind closed breakers:
      the backends marked healthy take turns. */
  method TakeTurns(balancer: LeastConnectionsBalancer, backends: seq<Backend>, times: seq<seq<int>>)
    returns (ghost picks: seq<nat>)
    requires balancer.Valid() && AllValid(backends) && AllBreakersClosed(backends)
    requires forall t :: 0 <= t < |times| ==> |times[t]| == |backends|
    requires |MarkedHealthy(backends)| > 0 && DistinctUrls(MarkedHealthy(backends))
    requires Turned(MarkedHealthy(backends), balancer.connections, 0, 0)
    modifies balancer, Breakers(backends)
    ensures balancer.Valid() && AllValid(backends) && AllBreakersClosed(backends)
    ensures var k := |MarkedHealthy(backends)|;
      && |picks| == |times| && (forall t :: 0 <= t < |picks| ==> picks[t] == t % k)
      && Turned(MarkedHealthy(backends), balancer.connections, |times| / k, |times| % k)
  {
    hide CB.CircuitBreaker.Valid, MarkedHealthy, AllBreakersClosed, Turned, FirstLeast, Incremented;
    ghost var healthy, maps := MarkedHealthy(backends), [balancer.connections];
    picks := [];
    for n := 0 to |times|
      invariant balancer.Valid() && AllValid(backends) && AllBreakersClosed(backends)
      invariant |picks| == n && Rounds(healthy, maps, picks) && maps[n] == balancer.connections
      invariant maps[0] == old(balancer.connections)
    {
      ghost var pick := TakeTurn(balancer, backends, times[n]);
      maps, picks := maps + [balancer.connections], picks + [pick];
    }
    IdleLoads(healthy, maps[0]);
    LeastConnectionsTakesTurns(healthy, maps, picks);
  }

  lemma IdleLoads(bs: seq<Backend>, m: map<string, int>)
    requires Turned(bs, m, 0, 0)
    ensures forall i :: 0 <= i < |bs| ==> Load(m, bs[i].url) == 0
  {}
}
