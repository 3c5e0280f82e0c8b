/** The state a Proxy is built with (internal/gateway/proxy.go:23-43): one bulkhead per backend
    URL, shared by every route that names the URL, and an empty balancer cache that
    getLoadBalancer fills. */
module ProxyState {
  import opened LoadBalancer
  import opened GatewayConfig
  import opened BalancerCache
  import SB = ServiceBulkhead
  import BP = BulkheadProtocol

  const DEFAULT_BULKHEAD := BP.Config(10, 5)

  datatype Balancer =
    | RoundRobin(rr: RoundRobinBalancer)
    | Random(random: RandomBalancer)
    | LeastConnections(lc: LeastConnectionsBalancer)

  function KindOfBalancer(b: Balancer): Kind {
    match b
    case RoundRobin(_) => RoundRobinKind
    case Random(_) => RandomKind
    case LeastConnections(_) => LeastConnectionsKind
  }

  function RoundRobinOf(b: Balancer): RoundRobinBalancer? {
    if b.RoundRobin? then b.rr else null
  }

  function LeastConnectionsOf(b: Balancer): LeastConnectionsBalancer? {
    if b.LeastConnections? then b.lc else null
  }

  ghost predicate Sound(b: Balancer)
    reads RoundRobinOf(b), LeastConnectionsOf(b)
  {
    (b.RoundRobin? ==> b.rr.Valid()) && (b.LeastConnections? ==> b.lc.Valid())
  }

  ghost function CounterOf(b: Balancer): nat
    reads RoundRobinOf(b)
  {
    if b.RoundRobin? then b.rr.counter else 0
  }

  ghost function ConnectionsOf(b: Balancer): map<string, int>
    reads LeastConnectionsOf(b)
  {
    if b.LeastConnections? then b.lc.connections else map[]
  }

  method NewLoadBalancer(strategy: string) returns (b: Balancer)
    ensures KindOfBalancer(b) == KindOf(strategy)
    ensures (b.Random? <==> strategy == "random") && (b.LeastConnections? <==> strategy == "least_connections")
    ensures b.RoundRobin? ==> fresh(b.rr) && b.rr.Valid() && b.rr.counter == 0
    ensures b.LeastConnections? ==> fresh(b.lc) && b.lc.Valid() && b.lc.connections == map[]
  {
    if strategy == "random" {
      var random := new RandomBalancer();
      b := Random(random);
    } else if strategy == "least_connections" {
      var lc := new LeastConnectionsBalancer();
      b := LeastConnections(lc);
    } else {
      var rr := new RoundRobinBalancer();
      b := RoundRobin(rr);
    }
  }

  /** Some route has a backend at this URL. */
  ghost predicate Named(routes: seq<Route>, url: string) {
    exists i, j :: 0 <= i < |routes| && 0 <= j < |routes[i].backends| && routes[i].backends[j].url == url
  }

  class Proxy {
    const routes: seq<Route>
    var loadBalancers: map<string, Balancer>
    var bulkheads: map<string, SB.ServiceBulkhead>
    ghost var wheels: set<RoundRobinBalancer>          // all that were ever cached
    ghost var counters: set<LeastConnectionsBalancer>

    /** Every URL has exactly one bulkhead, of its own, idle and with the default limits. */
    constructor (routes: seq<Route>)
      ensures this.routes == routes && loadBalancers == map[] && Balanced()
      ensures forall url :: url in bulkheads <==> Named(routes, url)
      ensures forall url :: url in bulkheads ==>
        && fresh(bulkheads[url]) && bulkheads[url].Valid() && bulkheads[url].config == BP.Config(10, 5)
        && bulkheads[url].Contents() == SB.Books(0, [], 0, 0)
      ensures forall u, v :: u in bulkheads && v in bulkheads && u != v ==> bulkheads[u] != bulkheads[v]
    {
      this.routes := routes;
      loadBalancers, wheels, counters := map[], {}, {};
      var all := InitBulkheads(routes);
      bulkheads := all;
    }

    /** Every cached balancer is in order. */
    ghost predicate Balanced()
      reads this, wheels, counters
    {
      && (forall p :: p in loadBalancers && loadBalancers[p].RoundRobin? ==> loadBalancers[p].rr in wheels)
      && (forall p :: p in loadBalancers && loadBalancers[p].LeastConnections? ==> loadBalancers[p].lc in counters)
      && (forall w :: w in wheels ==> w.Valid()) && (forall l :: l in counters ==> l.Valid())
    }

    static method InitBulkheads(routes: seq<Route>) returns (all: map<string, SB.ServiceBulkhead>)
      ensures forall url :: url in all <==> Named(routes, url)
      ensures Idle(all) && forall url :: url in all ==> fresh(all[url])
    {
      hide SB.ServiceBulkhead.Valid;
      all := map[];
      for i := 0 to |routes|
        invariant forall url :: url in all <==> Named(routes[..i], url)
        invariant Idle(all) && forall url :: url in all ==> fresh(all[url])
      {
        NamedMore(routes, i);
        all := AddBackends(all, routes[i].backends);
      }
      assert routes[..|routes|] == routes;
    }

    static method AddBackends(all: map<string, SB.ServiceBulkhead>, backends: seq<Backend>)
      returns (more: map<string, SB.ServiceBulkhead>)
      requires Idle(all)
      ensures forall url :: url in more <==> url in all || exists k :: 0 <= k < |backends| && backends[k].url == url
      ensures Idle(more) && forall url :: url in more ==> if url in all then more[url] == all[url] else fresh(more[url])
    {
      hide SB.ServiceBulkhead.Valid;
      more := all;
      for j := 0 to |backends|
        invariant forall url :: url in more <==> url in all || exists k :: 0 <= k < j && backends[k].url == url
        invariant Idle(more) && forall url :: url in more ==>
          if url in all then more[url] == all[url] else fresh(more[url])
      {
        if backends[j].url !in more {
          var bulkhead := new SB.ServiceBulkhead(DEFAULT_BULKHEAD);
          more := more[backends[j].url := bulkhead];
        }
      }
    }

    /** getLoadBalancer without interference: the cached balancer, else a new one that is kept. */
    method GetLoadBalancer(route: Route) returns (b: Balancer)
      requires Balanced()
      modifies this`loadBalancers, this`wheels, this`counters
      ensures Balanced() && Sound(b) && loadBalancers == old(loadBalancers)[route.pattern := b]
      ensures if route.pattern in old(loadBalancers) then b == old(loadBalancers)[route.pattern]
        else KindOfBalancer(b) == KindOf(route.loadBalancer) && CounterOf(b) == 0 && ConnectionsOf(b) == map[]
      ensures forall w :: w in wheels ==> w in old(wheels) || fresh(w)
      ensures forall l :: l in counters ==> l in old(counters) || fresh(l)
    {
      if route.pattern in loadBalancers {
        b := loadBalancers[route.pattern];
        assert loadBalancers == loadBalancers[route.pattern := b];
        return;
      }
      b := NewLoadBalancer(route.loadBalancer);
      if b.RoundRobin? { wheels := wheels + {b.rr}; }
      if b.LeastConnections? { counters := counters + {b.lc}; }
      loadBalancers := loadBalancers[route.pattern := b];
    }
  }

  ghost predicate Idle(all: map<string, SB.ServiceBulkhead>)
    reads all.Values
  {
    && (forall url :: url in all ==>
       all[url] in all.Values && all[url].config == DEFAULT_BULKHEAD && all[url].Contents() == SB.Books(0, [], 0, 0))
    && (forall u, v :: u in all && v in all && u != v ==> all[u] != all[v])
  }

  lemma NamedMore(routes: seq<Route>, i: nat)
    requires i < |routes|
    ensures forall url :: Named(routes[..i + 1], url) <==>
      Named(routes[..i], url) || exists k :: 0 <= k < |routes[i].backends| && routes[i].backends[k].url == url
  {
    var more, less := routes[..i + 1], routes[..i];
    assert more[i] == routes[i] && forall a :: 0 <= a < i ==> more[a] == less[a];
    forall url | Named(more, url)
      ensures Named(less, url) || exists k :: 0 <= k < |routes[i].backends| && routes[i].backends[k].url == url {
      var a, j :| 0 <= a < |more| && 0 <= j < |more[a].backends| && more[a].backends[j].url == url;
      if a < i { assert less[a].backends[j].url == url; } else { assert routes[i].backends[j].url == url; }
    }
    forall url | Named(less, url) ensures Named(more, url) {
      var a, j :| 0 <= a < |less| && 0 <= j < |less[a].backends| && less[a].backends[j].url == url;
      assert more[a].backends[j].url == url;
    }
    forall k | 0 <= k < |routes[i].backends| ensures Named(more, routes[i].backends[k].url) {
      assert more[i].backends[k].url == routes[i].backends[k].url;
    }
  }
}
