/** The bulkheads of the proxy (internal/gateway/proxy.go:20 and 34-40), one for each URL, and
    the visit that one attempt pays to one of them (lines 87 to 95). */
module BulkheadPool {
  import BP = BulkheadProtocol
  import SB = ServiceBulkhead

  // ---- One visit -------------------------------------------------------------------------

  /** What other requests do at the backend's bulkhead since the attempt before, while this one
      waits in the queue and while it holds its slot; and which way a wait ends. */
  datatype Traffic = Traffic(before: seq<SB.Call>, waiting: seq<SB.Call>, held: seq<SB.Call>, winner: SB.Winner)

  /** The reply to TryAcquire and the sizes of the bulkhead then. */
  function Arrival(c: BP.Config, z: SB.Sizes, t: Traffic): (SB.Reply, SB.Sizes) {
    SB.Acquisition(c, SB.AfterCalls(c, z, t.before, 0), t.waiting, t.winner)
  }

  /** The sizes of the bulkhead after the whole attempt. */
  function Visit(c: BP.Config, z: SB.Sizes, t: Traffic): SB.Sizes {
    var (reply, taken) := Arrival(c, z, t);
    if reply.Nil? then Departure(c, taken, t.held) else taken
  }

  /** The sizes after others made the calls in `held` and the slot was released. */
  function Departure(c: BP.Config, z: SB.Sizes, held: seq<SB.Call>): SB.Sizes {
    SB.AfterCall(c, SB.AfterCalls(c, z, held, 1), SB.Release, 0)
  }

  /** Releasing the slot leaves one fewer inside than others left there, whatever they did. */
  lemma DepartureReturnsSlot(c: BP.Config, z: SB.Sizes, held: seq<SB.Call>)
    requires SB.Busy(c, z) && z.semaphore >= 1
    ensures SB.Busy(c, Departure(c, z, held))
    ensures SB.Inside(Departure(c, z, held)) == SB.Inside(SB.AfterCalls(c, z, held, 1)) - 1
    ensures SB.Inside(Departure(c, z, held)) == SB.CountAfter(c, SB.Inside(z), held, 1) - 1
  {
    hide SB.AfterCalls;
    SB.OthersKeep(c, z, held, 1);
    SB.CallsCount(c, z, held, 1);
  }

  /** What trying to get a slot makes of `m` inside: one more, with a slot or in the queue, and
      what others do while it queues; or none if there is no room. */
  function ArrivalCount(c: BP.Config, m: nat, t: Traffic): nat {
    if m < c.maxConcurrent then m + 1
    else if m < c.maxConcurrent + c.queueSize then SB.CountWhileWaiting(c, m + 1, t.waiting, m - c.maxConcurrent)
    else m
  }

  /** It gets a slot at once, or it queues and is not given up before more slots have been released
      than requests were queued before it. */
  predicate GetsSlot(c: BP.Config, m: nat, t: Traffic) {
    || m < c.maxConcurrent
    || (m < c.maxConcurrent + c.queueSize && t.winner.Response? && c.maxConcurrent > 0
        && SB.Releases(t.waiting) > m - c.maxConcurrent)
  }

  /** What a whole visit makes of the number inside: one fewer than there would be if it gets a slot,
      however many others come and go. */
  function VisitCount(c: BP.Config, n: nat, t: Traffic): int {
    var m := SB.CountAfter(c, n, t.before, 0);
    var taken := ArrivalCount(c, m, t);
    if GetsSlot(c, m, t) then SB.CountAfter(c, taken, t.held, 1) - 1 else taken
  }

  lemma ArrivalCounts(c: BP.Config, z: SB.Sizes, t: Traffic)
    requires SB.Busy(c, z)
    ensures var m := SB.CountAfter(c, SB.Inside(z), t.before, 0);
      var (reply, taken) := Arrival(c, z, t);
      && SB.Busy(c, taken) && SB.Inside(taken) == ArrivalCount(c, m, t)
      && (reply.Nil? <==> GetsSlot(c, m, t)) && (reply.Nil? ==> taken.semaphore > 0)
  {
    hide SB.AfterCalls, SB.CountAfter, SB.CountWhileWaiting, SB.Acquisition, SB.Releases, SB.Busy, SB.Inside;
    var arriving := SB.AfterCalls(c, z, t.before, 0);
    SB.CallsCount(c, z, t.before, 0);
    SB.InsideTells(c, arriving);
    SB.AcquiresIff(c, arriving, t.waiting, t.winner);
    SB.AcquisitionCounts(c, arriving, t.waiting, t.winner);
  }

  /** A bulkhead under any traffic is a count of the requests inside, spread over its slots. */
  lemma VisitCounts(c: BP.Config, z: SB.Sizes, t: Traffic)
    requires SB.Busy(c, z)
    ensures SB.Busy(c, Visit(c, z, t)) && SB.Inside(Visit(c, z, t)) == VisitCount(c, SB.Inside(z), t)
  {
    hide Arrival, ArrivalCount, GetsSlot, Departure, SB.CountAfter, SB.Busy, SB.Inside;
    ArrivalCounts(c, z, t);
    var (reply, taken) := Arrival(c, z, t);
    if reply.Nil? { DepartureReturnsSlot(c, taken, t.held); }
  }

  /** Nobody else comes by, and the attempt does not have to queue. */
  predicate Undisturbed(c: BP.Config, z: SB.Sizes, t: Traffic) {
    t.before == [] && t.held == [] && !SB.Decide(c, z).Queued?
  }

  /** Nobody else came by, and the queue was full. */
  predicate TurnedAway(c: BP.Config, z: SB.Sizes, t: Traffic) {
    t.before == [] && Arrival(c, z, t).0.QueueFull?
  }

  /** Such an attempt takes a slot and gives it back, or takes none. */
  lemma UndisturbedVisit(c: BP.Config, z: SB.Sizes, t: Traffic)
    requires SB.Busy(c, z) && Undisturbed(c, z, t)
    ensures Visit(c, z, t) == z
    ensures if Arrival(c, z, t).0.Nil? then z.waiting == 0 else TurnedAway(c, z, t)
  {}

  /** Others have been there, then the attempt tries to get a slot (line 90). */
  method ArriveAt(b: SB.ServiceBulkhead, t: Traffic) returns (reply: SB.Reply)
    requires b.Valid()
    modifies b, b.queue
    ensures b.Valid() && forall r :: r in b.queue ==> r in old(b.queue) || fresh(r)
    ensures var (r, z) := Arrival(b.config, old(SB.SizesOf(b.Contents())), t);
      reply == r && SB.SizesOf(b.Contents()) == z && (r.Nil? ==> z.semaphore > 0)
    ensures t.before == [] && reply.QueueFull? ==> b.Contents() == old(b.Contents())
  {
    b.ServeAll(t.before, 0);
    SB.AcquiresIff(b.config, SB.SizesOf(b.Contents()), t.waiting, t.winner);
    reply := b.TryAcquire(t.waiting, t.winner);
  }

  /** While the attempt holds its slot others come and go, then it releases it. */
  method DepartFrom(b: SB.ServiceBulkhead, held: seq<SB.Call>)
    requires b.Valid() && b.semaphore > 0
    modifies b, b.queue
    ensures b.Valid() && forall r :: r in b.queue ==> r in old(b.queue) || fresh(r)
    ensures SB.SizesOf(b.Contents()) == Departure(b.config, old(SB.SizesOf(b.Contents())), held)
  {
    hide SB.AfterCalls;
    SB.OthersKeep(b.config, SB.SizesOf(b.Contents()), held, 1);
    b.ServeAll(held, 1);
    b.Release();
  }

  // ---- The bulkheads ---------------------------------------------------------------------

  type AllSizes = map<string, SB.Sizes>

  lemma VisitUpdates(c: BP.Config, z: AllSizes, url: string, t: Traffic)
    requires url in z
    ensures var (reply, taken) := Arrival(c, z[url], t);
      z[url := Visit(c, z[url], t)] ==
      if reply.Nil? then z[url := taken][url := Departure(c, taken, t.held)] else z[url := taken]
  {}

  /** The bulkheads of a proxy. Ghost sets name its members and every request ever queued. */
  class Bulkheads {
    const limits: BP.Config
    const at: map<string, SB.ServiceBulkhead>
    ghost const members: set<SB.ServiceBulkhead>
    ghost var queued: set<SB.Request>

    /** One bulkhead for each URL, none of them shared. */
    ghost predicate Valid()
      reads this, members, queued
    {
      && (forall u :: u in at ==> at[u] in members && at[u].config == limits)
      && (forall u, v :: u in at && v in at && u != v ==> at[u] != at[v])
      && (forall u, i :: u in at && 0 <= i < |at[u].queue| ==> at[u].queue[i] in queued)
      && (forall u :: u in at ==> at[u].Valid())
    }

    ghost function Sizes(): (z: AllSizes)
      requires Valid()
      reads this, members, queued
      ensures z.Keys == at.Keys && forall u :: u in at ==> z[u] == SB.SizesOf(at[u].Contents())
    {
      map u | u in at :: SB.SizesOf(at[u].Contents())
    }

    constructor (limits: BP.Config, at: map<string, SB.ServiceBulkhead>)
      requires forall u :: u in at ==> at[u].config == limits && at[u].Valid()
      requires forall u, v :: u in at && v in at && u != v ==> at[u] != at[v]
      ensures Valid() && this.limits == limits && this.at == at
    {
      this.limits, this.at := limits, at;
      members := set u | u in at :: at[u];
      queued := set u, i | u in at && 0 <= i < |at[u].queue| :: at[u].queue[i];
    }

    twostate lemma OneMoved(url: string)
      requires old(Valid()) && url in at && at[url].Valid() && old(queued) <= queued
      requires forall u :: u in at && u != url ==> at[u].Valid() && at[u].Contents() == old(at[u].Contents())
      requires forall i :: 0 <= i < |at[url].queue| ==> at[url].queue[i] in queued
      ensures Valid() && Sizes() == old(Sizes())[url := SB.SizesOf(at[url].Contents())]
    {
      forall u, i | u in at && 0 <= i < |at[u].queue| ensures at[u].queue[i] in queued {
        if u != url { assert at[u].Contents().queue == old(at[u].Contents()).queue; }
      }
    }

    /** Without a queue the sizes of a bulkhead are all there is to know. */
    twostate lemma SizesTell(url: string)
      requires old(Valid()) && Valid() && url in at && Sizes()[url] == old(Sizes()[url]) && Sizes()[url].waiting == 0
      ensures at[url].Contents() == old(at[url].Contents())
    {
      assert at[url].Valid() && old(at[url].Valid());
    }

    lemma BusyAt(url: string)
      requires Valid() && url in at
      ensures SB.Busy(limits, Sizes()[url])
    {
      assert at[url].Valid();
    }

    /** The other bulkheads and their requests, which a call on the one at `url` leaves alone. */
    lemma Apart(url: string)
      requires Valid() && url in at
      ensures at[url] in members && at[url].config == limits && at[url].Valid()
      ensures Sizes()[url] == SB.SizesOf(at[url].Contents()) && Sizes()[url].semaphore == at[url].semaphore
      ensures forall r :: r in at[url].queue ==> r in queued
      ensures forall u :: u in at && u != url ==> at[u] in members && at[u] != at[url] && at[u].Valid()
      ensures forall u, i :: u in at && u != url && 0 <= i < |at[u].queue| ==>
        at[u].queue[i] in queued && at[u].queue[i] !in at[url].queue
    {
      assert forall u, i :: u in at && 0 <= i < |at[u].queue| ==> at[u].queue[i].home == at[u];
    }

    method Arrive(url: string, t: Traffic) returns (reply: SB.Reply)
      requires Valid() && url in at
      modifies this, members, queued
      ensures Valid() && forall r :: r in queued ==> r in old(queued) || fresh(r)
      ensures var (r, z) := Arrival(limits, old(Sizes()[url]), t);
        reply == r && Sizes() == old(Sizes())[url := z] && (r.Nil? ==> z.semaphore > 0)
      ensures forall u :: u in at && u != url ==> at[u].Contents() == old(at[u].Contents())
      ensures t.before == [] && reply.QueueFull? ==> at[url].Contents() == old(at[url].Contents())
    {
      hide *;
      Apart(url);
      reply := ArriveAt(at[url], t);
      forall u | u in at && u != url ensures at[u].Valid() && at[u].Contents() == old(at[u].Contents()) {}
      queued := queued + (set r | r in at[url].queue);
      OneMoved(url);
    }

    method Depart(url: string, held: seq<SB.Call>)
      requires Valid() && url in at && Sizes()[url].semaphore > 0
      modifies this, members, queued
      ensures Valid() && forall r :: r in queued ==> r in old(queued) || fresh(r)
      ensures Sizes() == old(Sizes())[url := Departure(limits, old(Sizes()[url]), held)]
      ensures SB.Inside(Sizes()[url]) == SB.CountAfter(limits, old(SB.Inside(Sizes()[url])), held, 1) - 1
      ensures forall u :: u in at && u != url ==> at[u].Contents() == old(at[u].Contents())
    {
      hide *;
      Apart(url);
      BusyAt(url);
      DepartureReturnsSlot(limits, Sizes()[url], held);
      DepartFrom(at[url], held);
      forall u | u in at && u != url ensures at[u].Valid() && at[u].Contents() == old(at[u].Contents()) {}
      queued := queued + (set r | r in at[url].queue);
      OneMoved(url);
    }
  }
}
