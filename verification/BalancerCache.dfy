/** The per-pattern balancer cache with its double-checked lookup
    (internal/gateway/proxy.go:147-172), under every interleaving of its callers. */
module BalancerCache {
  import opened Wrappers
  import opened GatewayConfig

  datatype Kind = RoundRobinKind | RandomKind | LeastConnectionsKind

  /** NewLoadBalancer: an unknown strategy falls back to round robin. */
  function KindOf(strategy: string): Kind {
    if strategy == "round_robin" then RoundRobinKind
    else if strategy == "random" then RandomKind
    else if strategy == "least_connections" then LeastConnectionsKind
    else RoundRobinKind
  }

  datatype Pc =
    | Reading                  // 149: look under the read lock
    | Locking                  // 158: take the write lock
    | Checking                 // 162: look again
    | Storing                  // 168: create and store
    | Returned(balancer: nat)

  /** One getLoadBalancer call, for the route that MatchRoute found at `index` for `path`. */
  datatype Caller = Caller(path: string, index: nat, pc: Pc)

  /** A balancer is named by its position in `created`; `writer` holds the write lock. */
  datatype State = State(
    cache: map<string, nat>, created: seq<Kind>, writer: Option<nat>, callers: seq<Caller>, writes: seq<string>)

  ghost predicate Starting(routes: seq<Route>, s: State) {
    && s.cache == map[] && s.created == [] && s.writer == None && s.writes == []
    && forall i :: 0 <= i < |s.callers| ==>
       s.callers[i].pc.Reading? && FirstMatch(routes, s.callers[i].path, s.callers[i].index)
  }

  /** A reader waits while somebody holds the write lock, and so does a second writer. */
  predicate Enabled(routes: seq<Route>, s: State, i: nat) {
    i < |s.callers| && s.callers[i].index < |routes| &&
    match s.callers[i].pc
    case Reading => s.writer.None?
    case Locking => s.writer.None?
    case Checking => s.writer == Some(i)
    case Storing => s.writer == Some(i)
    case Returned(_) => false
  }

  function Apply(routes: seq<Route>, s: State, i: nat): State
    requires Enabled(routes, s, i)
  {
    var caller := s.callers[i];
    var route := routes[caller.index];
    var p := route.pattern;
    match caller.pc
    case Reading =>
      s.(callers := s.callers[i := caller.(pc := if p in s.cache then Returned(s.cache[p]) else Locking)])
    case Locking => s.(writer := Some(i), callers := s.callers[i := caller.(pc := Checking)])
    case Checking =>
      if p in s.cache
      then s.(writer := None, callers := s.callers[i := caller.(pc := Returned(s.cache[p]))])
      else s.(callers := s.callers[i := caller.(pc := Storing)])
    case Storing =>
      var id := |s.created|;
      s.(created := s.created + [KindOf(route.loadBalancer)], cache := s.cache[p := id], writes := s.writes + [p],
         writer := None, callers := s.callers[i := caller.(pc := Returned(id))])
    case Returned(_) => s
  }

  function Exec(routes: seq<Route>, s: State, schedule: seq<nat>): Option<State> {
    if schedule == [] then Some(s) else
    match Exec(routes, s, schedule[..|schedule| - 1])
    case Some(t) =>
      if Enabled(routes, t, schedule[|schedule| - 1]) then Some(Apply(routes, t, schedule[|schedule| - 1])) else None
    case None => None
  }

  // ---- The invariant ---------------------------------------------------------------------

  ghost predicate CallerOk(routes: seq<Route>, s: State, i: nat)
    requires i < |s.callers|
  {
    var caller := s.callers[i];
    && FirstMatch(routes, caller.path, caller.index)
    && (s.writer == Some(i) <==> caller.pc.Checking? || caller.pc.Storing?)
    && var p := routes[caller.index].pattern;
    && (caller.pc.Storing? ==> p !in s.cache)
    && (caller.pc.Returned? ==> p in s.cache && s.cache[p] == caller.pc.balancer)
  }

  /** Each entry was written once, by a caller routed to that pattern, and never changed. */
  ghost predicate EntryOk(routes: seq<Route>, s: State, p: string)
    requires p in s.cache
  {
    && s.cache[p] < |s.writes| == |s.created| && s.writes[s.cache[p]] == p
    && exists path: string, i: nat ::
         && FirstMatch(routes, path, i) && routes[i].pattern == p
         && s.created[s.cache[p]] == KindOf(routes[i].loadBalancer)
  }

  ghost predicate Inv(routes: seq<Route>, s: State) {
    && |s.writes| == |s.created|
    && (forall i: nat :: i < |s.callers| ==> CallerOk(routes, s, i))
    && (forall p :: p in s.cache ==> EntryOk(routes, s, p))
    && (forall k :: 0 <= k < |s.writes| ==> s.writes[k] in s.cache && s.cache[s.writes[k]] == k)
  }

  lemma StepInv(routes: seq<Route>, s: State, i: nat)
    requires Inv(routes, s) && Enabled(routes, s, i)
    ensures Inv(routes, Apply(routes, s, i))
  {
    hide FirstMatch;
    var s' := Apply(routes, s, i);
    assert CallerOk(routes, s, i);
    forall j: nat | j < |s'.callers| ensures CallerOk(routes, s', j) {
      assert CallerOk(routes, s, j);
    }
    forall p | p in s'.cache ensures EntryOk(routes, s', p) {
      if p in s.cache && s'.cache[p] == s.cache[p] {
        assert EntryOk(routes, s, p);
      } else {
        assert FirstMatch(routes, s.callers[i].path, s.callers[i].index);
      }
    }
  }

  lemma {:induction false} RunInv(routes: seq<Route>, s: State, schedule: seq<nat>)
    requires Starting(routes, s) && Exec(routes, s, schedule).Some?
    ensures Inv(routes, Exec(routes, s, schedule).value)
    ensures |Exec(routes, s, schedule).value.callers| == |s.callers|
  {
    if schedule != [] {
      RunInv(routes, s, schedule[..|schedule| - 1]);
      StepInv(routes, Exec(routes, s, schedule[..|schedule| - 1]).value, schedule[|schedule| - 1]);
    }
  }

  /** Under every interleaving each pattern's entry is written at most once, all callers routed
      to the pattern share it, and it is the balancer that an uncached lookup would have made
      for any of them. */
  lemma CacheAgreesWithUncached(routes: seq<Route>, s: State, schedule: seq<nat>)
    requires Starting(routes, s) && Exec(routes, s, schedule).Some?
    ensures var t := Exec(routes, s, schedule).value;
      && (forall j, k :: 0 <= j < k < |t.writes| ==> t.writes[j] != t.writes[k])
      && (forall i :: 0 <= i < |t.callers| && t.callers[i].pc.Returned? ==>
            var caller := t.callers[i];
            && caller.index < |routes| && caller.pc.balancer < |t.created|
            && t.created[caller.pc.balancer] == KindOf(routes[caller.index].loadBalancer))
      && (forall i, j ::
            0 <= i < |t.callers| && 0 <= j < |t.callers| && t.callers[i].pc.Returned? && t.callers[j].pc.Returned? ==>
            (t.callers[i].pc == t.callers[j].pc <==> t.callers[i].index == t.callers[j].index))
  {
    RunInv(routes, s, schedule);
    var t := Exec(routes, s, schedule).value;
    forall i: nat | i < |t.callers| && t.callers[i].pc.Returned?
      ensures var caller := t.callers[i];
        && caller.index < |routes| && caller.pc.balancer < |t.created| &&
           t.writes[caller.pc.balancer] == routes[caller.index].pattern
        && t.created[caller.pc.balancer] == KindOf(routes[caller.index].loadBalancer)
    {
      ReturnedKind(routes, t, i);
    }
    forall i: nat, j: nat | i < |t.callers| && j < |t.callers| && t.callers[i].pc.Returned? && t.callers[j].pc.Returned?
      ensures t.callers[i].pc == t.callers[j].pc <==> t.callers[i].index == t.callers[j].index
    {
      assert CallerOk(routes, t, i) && CallerOk(routes, t, j);
      if t.callers[i].pc == t.callers[j].pc {
        EqualPatternsSameRoute(routes, t.callers[i].path, t.callers[i].index, t.callers[j].path, t.callers[j].index);
      }
    }
  }

  lemma ReturnedKind(routes: seq<Route>, t: State, i: nat)
    requires Inv(routes, t) && i < |t.callers| && t.callers[i].pc.Returned?
    ensures var caller := t.callers[i];
      && caller.index < |routes| && caller.pc.balancer < |t.created| &&
         t.writes[caller.pc.balancer] == routes[caller.index].pattern
      && t.created[caller.pc.balancer] == KindOf(routes[caller.index].loadBalancer)
  {
    var caller := t.callers[i];
    assert CallerOk(routes, t, i);
    var p := routes[caller.index].pattern;
    assert EntryOk(routes, t, p);
    var path: string, k: nat :| FirstMatch(routes, path, k) && routes[k].pattern == p &&
      t.created[t.cache[p]] == KindOf(routes[k].loadBalancer);
    EqualPatternsSameRoute(routes, path, k, caller.path, caller.index);
  }
}
