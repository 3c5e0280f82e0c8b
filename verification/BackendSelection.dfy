/** How the attempts of a request select their backends (internal/gateway/proxy.go:82 and
    174-181): the route's balancer, of whatever kind, behind the health filter. */
module BackendSelection {
  import opened Wrappers
  import opened LoadBalancer
  import opened BalancerCache
  import opened ProxyState
  import CB = CircuitBreaker
  import RoundRobinFairness

  type Past = map<CB.CircuitBreaker, seq<CB.Event>>

  // ---- One selection ---------------------------------------------------------------------

  /** A balancer of this kind may answer so when these backends are fit. */
  ghost predicate MaySelect(kind: Kind, counter: nat, loads: map<string, int>, fit: seq<Backend>,
    selected: Option<Backend>) {
    if fit == [] then selected == None else
    match kind
    case RoundRobinKind => selected == Some(fit[(counter + 1) % WRAP % |fit|])
    case RandomKind => selected.Some? && selected.value in fit
    case LeastConnectionsKind => exists j: nat :: FirstLeast(Loads(fit, loads), j) && selected == Some(fit[j])
  }

  /** Only a round robin that finds somebody advances its counter. */
  function Advanced(kind: Kind, counter: nat, fit: seq<Backend>): nat {
    if kind.RoundRobinKind? && fit != [] then (counter + 1) % WRAP else counter
  }

  /** The breakers' histories after the filter has asked them all. */
  ghost function AfterAsking(past: Past, backends: seq<Backend>, times: seq<int>): Past
    requires |times| == |backends|
  {
    map b | b in past :: past[b] + AsksTo(backends, times, b)
  }

  method SelectBackend(balancer: Balancer, backends: seq<Backend>, times: seq<int>, roll: nat)
    returns (selected: Option<Backend>)
    requires Sound(balancer) && AllValid(backends) && |times| == |backends|
    modifies RoundRobinOf(balancer), Breakers(backends)
    ensures Sound(balancer) && AllValid(backends)
    ensures Histories(backends) == AfterAsking(old(Histories(backends)), backends, times)
    ensures var kind, fit := KindOfBalancer(balancer), Passing(backends, times, old(Histories(backends)));
      && MaySelect(kind, old(CounterOf(balancer)), old(ConnectionsOf(balancer)), fit, selected)
      && CounterOf(balancer) == Advanced(kind, old(CounterOf(balancer)), fit)
      && ConnectionsOf(balancer) == old(ConnectionsOf(balancer))
  {
    hide CB.CircuitBreaker.Valid, Passing, AsksTo, FirstLeast;
    match balancer {
      case RoundRobin(rr) => selected := rr.SelectBackend(backends, times);
      case Random(random) => selected := random.SelectBackend(backends, times, roll);
      case LeastConnections(lc) => selected := lc.SelectBackend(backends, times);
    }
  }

  // ---- The selections of one request -----------------------------------------------------

  /** What a request finds when it starts. */
  datatype Origin = Origin(kind: Kind, counter: nat, loads: map<string, int>, backends: seq<Backend>, past: Past)

  ghost predicate Covers(o: Origin) {
    forall b :: b in o.backends ==> b.breaker in o.past
  }

  ghost predicate Timed(backends: seq<Backend>, times: seq<seq<int>>) {
    forall i :: 0 <= i < |times| ==> |times[i]| == |backends|
  }

  /** The questions that one selection after the other puts to a breaker. */
  ghost function Asked(backends: seq<Backend>, times: seq<seq<int>>, b: CB.CircuitBreaker): seq<CB.Event>
    requires Timed(backends, times)
  {
    if times == [] then [] else
    Asked(backends, times[..|times| - 1], b) + AsksTo(backends, times[|times| - 1], b)
  }

  ghost function PastAfter(o: Origin, times: seq<seq<int>>): Past
    requires Timed(o.backends, times)
  {
    map b | b in o.past :: o.past[b] + Asked(o.backends, times, b)
  }

  /** The backends fit for a selection that follows those made at `times`. */
  ghost function FitNext(o: Origin, times: seq<seq<int>>, now: seq<int>): seq<Backend>
    requires Covers(o) && Timed(o.backends, times) && |now| == |o.backends|
  {
    Passing(o.backends, now, PastAfter(o, times))
  }

  ghost function CounterAfter(o: Origin, times: seq<seq<int>>): nat
    requires Covers(o) && Timed(o.backends, times)
  {
    if times == [] then o.counter else
    var n := |times| - 1;
    Advanced(o.kind, CounterAfter(o, times[..n]), FitNext(o, times[..n], times[n]))
  }

  /** Selections made at these times may have had these results. */
  ghost predicate Selections(o: Origin, times: seq<seq<int>>, selected: seq<Option<Backend>>)
    requires Covers(o) && Timed(o.backends, times)
  {
    && |selected| == |times|
    && (times != [] ==>
          var n := |times| - 1;
          && Selections(o, times[..n], selected[..n])
          && MaySelect(o.kind, CounterAfter(o, times[..n]), o.loads, FitNext(o, times[..n], times[n]), selected[n]))
  }

  lemma OneMoreAsking(o: Origin, times: seq<seq<int>>, n: nat)
    requires Timed(o.backends, times) && n < |times|
    ensures PastAfter(o, times[..n + 1]) == AfterAsking(PastAfter(o, times[..n]), o.backends, times[n])
  {
    hide AsksTo;
    assert times[..n + 1][..n] == times[..n];
    forall b | b in o.past
      ensures PastAfter(o, times[..n + 1])[b] == AfterAsking(PastAfter(o, times[..n]), o.backends, times[n])[b]
    {
      assert Asked(o.backends, times[..n + 1], b) == Asked(o.backends, times[..n], b) + AsksTo(o.backends, times[n], b);
      Associate(o.past[b], Asked(o.backends, times[..n], b), AsksTo(o.backends, times[n], b));
    }
  }

  lemma Associate<T>(x: seq<T>, y: seq<T>, z: seq<T>)
    ensures x + (y + z) == x + y + z
  {}

  lemma OneMoreSelection(o: Origin, times: seq<seq<int>>, n: nat, selected: seq<Option<Backend>>, s: Option<Backend>)
    requires Covers(o) && Timed(o.backends, times) && n < |times| && Selections(o, times[..n], selected)
    requires MaySelect(o.kind, CounterAfter(o, times[..n]), o.loads, FitNext(o, times[..n], times[n]), s)
    ensures Selections(o, times[..n + 1], selected + [s])
    ensures CounterAfter(o, times[..n + 1]) ==
      Advanced(o.kind, CounterAfter(o, times[..n]), FitNext(o, times[..n], times[n]))
  {
    hide MaySelect, FitNext;
    assert times[..n + 1][..n] == times[..n] && (selected + [s])[..n] == selected;
  }

  lemma LastSelection(o: Origin, times: seq<seq<int>>, selected: seq<Option<Backend>>)
    requires Covers(o) && Timed(o.backends, times) && Selections(o, times, selected)
    ensures |selected| == |times|
    ensures times != [] ==>
      var n := |times| - 1;
      && Timed(o.backends, times[..n]) && Selections(o, times[..n], selected[..n])
      && MaySelect(o.kind, CounterAfter(o, times[..n]), o.loads, FitNext(o, times[..n], times[n]), selected[n])
      && CounterAfter(o, times) == Advanced(o.kind, CounterAfter(o, times[..n]), FitNext(o, times[..n], times[n]))
  {
    hide MaySelect, FitNext;
  }

  /** Somebody is selected exactly when somebody is fit, and then one of the fit. */
  lemma SelectedIsFit(kind: Kind, counter: nat, loads: map<string, int>, fit: seq<Backend>, selected: Option<Backend>)
    requires MaySelect(kind, counter, loads, fit, selected)
    ensures selected.Some? <==> fit != []
    ensures selected.Some? ==> selected.value in fit
  {}

  /** Loads that look up alike select alike. */
  lemma LoadsAlike(
    kind: Kind, counter: nat, loads: map<string, int>, loads': map<string, int>, fit: seq<Backend>, s: Option<Backend>)
    requires MaySelect(kind, counter, loads, fit, s) && forall u :: Load(loads, u) == Load(loads', u)
    ensures MaySelect(kind, counter, loads', fit, s)
  {
    assert Loads(fit, loads) == Loads(fit, loads');
  }

  lemma {:induction false} PassingAmong(bs: seq<Backend>, times: seq<int>, past: Past)
    requires |times| == |bs| && forall b :: b in bs ==> b.breaker in past
    ensures forall b :: b in Passing(bs, times, past) ==> b in bs && b.healthy
  {
    if bs != [] { PassingAmong(bs[..|bs| - 1], times[..|bs| - 1], past); }
  }

  lemma FitAmong(backends: seq<Backend>, times: seq<int>, past: Past)
    requires |times| == |backends| && forall b :: b in backends ==> b.breaker in past
    ensures forall b :: b in Passing(backends, times, past) ==> b in backends
  {
    PassingAmong(backends, times, past);
  }

  /** Only the route's backends that are marked healthy are ever selected. */
  lemma {:induction false} SelectedAmong(o: Origin, times: seq<seq<int>>, selected: seq<Option<Backend>>)
    requires Covers(o) && Timed(o.backends, times) && Selections(o, times, selected)
    ensures forall k :: 0 <= k < |selected| && selected[k].Some? ==>
      selected[k].value in o.backends && selected[k].value.healthy
  {
    hide MaySelect, PastAfter, Selections, CounterAfter;
    LastSelection(o, times, selected);
    if times != [] {
      var n := |times| - 1;
      SelectedAmong(o, times[..n], selected[..n]);
      SelectedIsFit(o.kind, CounterAfter(o, times[..n]), o.loads, FitNext(o, times[..n], times[n]), selected[n]);
      CoversAfter(o, times[..n]);
      PassingAmong(o.backends, times[n], PastAfter(o, times[..n]));
      forall k | 0 <= k < n && selected[k].Some?
        ensures selected[k].value in o.backends && selected[k].value.healthy
      {
        assert selected[..n][k] == selected[k];
      }
    }
  }

  lemma CoversAfter(o: Origin, times: seq<seq<int>>)
    requires Covers(o) && Timed(o.backends, times)
    ensures forall b :: b in o.backends ==> b.breaker in PastAfter(o, times)
  {}

  // ---- Behind closed breakers ------------------------------------------------------------

  /** No number of selections opens a breaker, and each finds all the backends marked healthy. */
  lemma {:induction false} ClosedFindAll(o: Origin, times: seq<seq<int>>, now: seq<int>)
    requires Covers(o) && Timed(o.backends, times) && |now| == |o.backends| && AllClosed(o.backends, o.past)
    ensures AllClosed(o.backends, PastAfter(o, times))
    ensures FitNext(o, times, now) == MarkedHealthy(o.backends)
  {
    hide CB.ModeAfter;
    forall b | b in o.backends ensures CB.ModeAfter(b.breaker.config, PastAfter(o, times)[b.breaker]).Closed? {
      AskedOnly(o.backends, times, b.breaker);
      AsksKeepClosed(b.breaker.config, o.past[b.breaker], Asked(o.backends, times, b.breaker));
    }
    ClosedPassAll(o.backends, now, PastAfter(o, times));
  }

  lemma {:induction false} AskedOnly(bs: seq<Backend>, times: seq<seq<int>>, b: CB.CircuitBreaker)
    requires Timed(bs, times)
    ensures forall i :: 0 <= i < |Asked(bs, times, b)| ==> Asked(bs, times, b)[i].Ask?
  {
    if times != [] {
      AskedOnly(bs, times[..|times| - 1], b);
      AsksOnly(bs, times[|times| - 1], b);
    }
  }

  lemma {:induction false} AskedOften(bs: seq<Backend>, times: seq<seq<int>>, b: CB.CircuitBreaker)
    requires Timed(bs, times)
    ensures |Asked(bs, times, b)| == |times| * Entries(bs, b)
  {
    hide AsksTo, Entries;
    if times != [] {
      AskedOften(bs, times[..|times| - 1], b);
      EveryEntryAsks(bs, times[|times| - 1], b);
      assert |times| * Entries(bs, b) == (|times| - 1) * Entries(bs, b) + Entries(bs, b);
    }
  }

  /** An attempt finds nobody exactly when no backend is marked healthy. */
  lemma {:induction false} NobodyIffNoneHealthy(o: Origin, times: seq<seq<int>>, selected: seq<Option<Backend>>)
    requires Covers(o) && Timed(o.backends, times) && AllClosed(o.backends, o.past) && Selections(o, times, selected)
    ensures forall k :: 0 <= k < |selected| ==> (selected[k].None? <==> MarkedHealthy(o.backends) == [])
  {
    hide MaySelect, FitNext, PastAfter, MarkedHealthy, AllClosed, Selections, CounterAfter;
    LastSelection(o, times, selected);
    if times != [] {
      var n := |times| - 1;
      ClosedFindAll(o, times[..n], times[n]);
      SelectedIsFit(o.kind, CounterAfter(o, times[..n]), o.loads, MarkedHealthy(o.backends), selected[n]);
      NobodyIffNoneHealthy(o, times[..n], selected[..n]);
      forall k | 0 <= k < n ensures selected[k].None? <==> MarkedHealthy(o.backends) == [] {
        assert selected[..n][k] == selected[k];
      }
    }
  }

  lemma LeastIsOne(
    kind: Kind, counter: nat, loads: map<string, int>, fit: seq<Backend>, s: Option<Backend>, s': Option<Backend>)
    requires kind.LeastConnectionsKind? && MaySelect(kind, counter, loads, fit, s)
    ensures MaySelect(kind, 0, loads, fit, s)
    ensures MaySelect(kind, 0, loads, fit, s') ==> s == s'
  {}

  /** Under least connections all attempts of a request select the same backend: its count has
      been given back before the next attempt, and no breaker turns against it. */
  lemma {:induction false} LeastConnectionsRepeats(o: Origin, times: seq<seq<int>>, selected: seq<Option<Backend>>)
    requires Covers(o) && Timed(o.backends, times) && AllClosed(o.backends, o.past) && Selections(o, times, selected)
    requires o.kind.LeastConnectionsKind?
    ensures forall k :: 0 <= k < |selected| ==>
      MaySelect(o.kind, 0, o.loads, MarkedHealthy(o.backends), selected[k]) && selected[k] == selected[0]
  {
    hide MaySelect, FitNext, PastAfter, MarkedHealthy, AllClosed, Selections, CounterAfter;
    LastSelection(o, times, selected);
    if times != [] {
      var n := |times| - 1;
      ClosedFindAll(o, times[..n], times[n]);
      LeastIsOne(o.kind, CounterAfter(o, times[..n]), o.loads, MarkedHealthy(o.backends), selected[n], selected[0]);
      LeastConnectionsRepeats(o, times[..n], selected[..n]);
      forall k | 0 <= k < n
        ensures MaySelect(o.kind, 0, o.loads, MarkedHealthy(o.backends), selected[k]) && selected[k] == selected[0]
      {
        assert selected[..n][k] == selected[k] && selected[..n][0] == selected[0];
      }
    }
  }

  /** The backend that a round robin whose counter has come to `counter` selects. */
  function TurnOf(healthy: seq<Backend>, counter: nat): Option<Backend>
    requires healthy != []
  {
    Some(healthy[counter % |healthy|])
  }

  lemma RoundRobinTurn(counter: nat, loads: map<string, int>, fit: seq<Backend>, s: Option<Backend>)
    requires fit != [] && MaySelect(RoundRobinKind, counter, loads, fit, s)
    ensures s == TurnOf(fit, (counter + 1) % WRAP)
  {}

  /** Under round robin each attempt selects the backend after the one before it. */
  lemma {:induction false} RoundRobinMovesOn(o: Origin, times: seq<seq<int>>, selected: seq<Option<Backend>>)
    requires Covers(o) && Timed(o.backends, times) && AllClosed(o.backends, o.past) && Selections(o, times, selected)
    requires o.kind.RoundRobinKind? && MarkedHealthy(o.backends) != []
    ensures CounterAfter(o, times) == RoundRobinFairness.CounterAfter(o.counter, |times|)
    ensures forall k :: 0 <= k < |selected| ==>
      selected[k] == TurnOf(MarkedHealthy(o.backends), RoundRobinFairness.CounterAfter(o.counter, k + 1))
  {
    hide MaySelect, FitNext, PastAfter, MarkedHealthy, AllClosed, Selections, TurnOf;
    LastSelection(o, times, selected);
    if times != [] {
      var n := |times| - 1;
      ClosedFindAll(o, times[..n], times[n]);
      RoundRobinTurn(CounterAfter(o, times[..n]), o.loads, MarkedHealthy(o.backends), selected[n]);
      RoundRobinMovesOn(o, times[..n], selected[..n]);
      forall k | 0 <= k < n
        ensures selected[k] == TurnOf(MarkedHealthy(o.backends), RoundRobinFairness.CounterAfter(o.counter, k + 1))
      {
        assert selected[..n][k] == selected[k];
      }
    }
  }
}
