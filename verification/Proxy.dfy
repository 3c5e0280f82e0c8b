/** One request through `ServeHTTP` (internal/gateway/proxy.go:61-133), over every script of
    what its attempts meet. */
module Proxy {
  import opened Arithmetic
  import opened Wrappers
  import opened Retry
  import opened ResponseBuffer
  import opened ProxyAttempts
  import opened BulkheadPool
  import opened BackendSelection
  import opened GatewayConfig
  import opened ProxyState
  import BC = BalancerCache
  import LB = LoadBalancer
  import CB = CircuitBreaker
  import BP = BulkheadProtocol
  import SB = ServiceBulkhead
  import BT = BreakerTheorems

  // ---- The request -----------------------------------------------------------------------

  datatype Response = ErrorPage(code: int) | Relayed(calls: seq<Call>)

  datatype Ending = Plain | Recorded | Panicked

  /** Taken as a backend is called: the slots in use at its bulkhead and the connections its
      balancer counts for it. */
  datatype Moment = Moment(slots: nat, load: int)

  /** The variables of one ServeHTTP call that its closure captures. */
  class Exchange {
    const retry: RetryConfig
    const pool: Bulkheads
    const backends: seq<LB.Backend>  // of the route
    const balancer: Balancer         // of the route
    const wheel: LB.RoundRobinBalancer? := RoundRobinOf(balancer)
    const lcb: LB.LeastConnectionsBalancer? := LeastConnectionsOf(balancer)
    const client: ClientWriter
    const greeting: Headers          // what the client has been sent before
    var finalBackend: Option<LB.Backend>
    var finalStatus: int
    ghost var responses: seq<Response>
    ghost var moment: Moment         // of the last call of a backend

    constructor (retry: RetryConfig, pool: Bulkheads, backends: seq<LB.Backend>, balancer: Balancer,
      client: ClientWriter)
      ensures this.retry == retry && this.pool == pool && this.backends == backends && this.balancer == balancer
      ensures this.client == client && greeting == client.received.header
      ensures finalBackend == None && finalStatus == 0 && responses == []
    {
      this.retry, this.pool, this.backends, this.balancer, this.client := retry, pool, backends, balancer, client;
      greeting := client.received.header;
      finalBackend, finalStatus, responses, moment := None, 0, [], Moment(0, 0);
    }

    ghost predicate Untouched()
      reads client
    {
      client.received == Received(greeting, 0, [])
    }

    ghost function Connections(): map<string, int>
      reads lcb
    {
      if lcb == null then map[] else lcb.connections
    }

    /** What the balancer counts for a URL, zero if it does not count. */
    ghost function Load(url: string): int
      reads lcb
    {
      LB.Load(Connections(), url)
    }

    ghost predicate Counting()
      reads lcb
    {
      lcb != null ==> lcb.Valid()
    }

    /** What the client and the captured variables show once the last attempt was `a`. */
    ghost predicate Shows(a: Attempt, before: seq<Response>)
      reads this, client
    {
      if Good(a)
      then client.received == Replayed(Received(greeting, 0, []), Buffer(a.response)) &&
        responses == before + [Relayed(a.response)]
           && finalBackend == Some(a.backend) && finalStatus == TrackedStatus(a.response)
      else Untouched() && responses == before
    }

    /** So far only a good attempt shows. */
    ghost predicate Told(a: Attempt, before: seq<Response>)
      reads this, client
    {
      Shows(a, before) && (!Good(a) ==> Untouched() && responses == before)
    }

    /** An attempt that called its backend did so with a slot taken and, where connections are
        counted, as one of them. */
    ghost predicate InHand(a: Attempt)
      reads this, lcb
    {
      a.Unparsable? || a.Answered? ==> moment.slots > 0 && (lcb != null ==> moment.load == Load(a.backend.url) + 1)
    }

    /** Lines 97 to 117: the call is counted while it lasts. */
    method CountedCall(backend: LB.Backend, response: Option<seq<Call>>) returns (o: Outcome)
      requires Untouched() && Counting() && pool.Valid() && backend.url in pool.at
      modifies this, client, lcb
      ensures o == OutcomeOf(Called(backend, response)) && Shows(Called(backend, response), old(responses))
      ensures Counting() && forall url :: Load(url) == old(Load(url))
      ensures pool.Valid() && pool.Sizes() == old(pool.Sizes())
      ensures forall u :: u in pool.at ==> pool.at[u].Contents() == old(pool.at[u].Contents())
      ensures moment == Moment(
        old(pool.Sizes()[backend.url]).semaphore, if lcb == null then 0 else Load(backend.url) + 1)
    {
      hide OutcomeOf, Shows, Bulkheads.Valid, Bulkheads.Sizes, Untouched, Called;
      ghost var loads := Connections();
      if lcb != null {
        lcb.IncrementConnections(backend.url);
        IncrementThenDecrement(loads, backend.url);
      }
      moment := Moment(pool.at[backend.url].semaphore, Load(backend.url));
      o := Respond(backend, response);
      if lcb != null {
        lcb.DecrementConnections(backend.url);
      }
    }

    /** Lines 95 to 117: the slot is held. Of what others do meanwhile only the order among
        themselves matters, so it stands at the end. */
    method WithSlot(backend: LB.Backend, response: Option<seq<Call>>, held: seq<SB.Call>) returns (o: Outcome)
      requires Untouched() && Counting() && pool.Valid()
      requires backend.url in pool.at && pool.Sizes()[backend.url].semaphore > 0
      modifies this, client, lcb, pool, pool.members, pool.queued
      ensures o == OutcomeOf(Called(backend, response)) && Shows(Called(backend, response), old(responses))
      ensures Counting() && forall url :: Load(url) == old(Load(url))
      ensures pool.Valid() && forall r :: r in pool.queued ==> r in old(pool.queued) || fresh(r)
      ensures pool.Sizes() == old(pool.Sizes())[backend.url :=
        Departure(pool.limits, old(pool.Sizes()[backend.url]), held)]
      ensures forall u :: u in pool.at && u != backend.url ==> pool.at[u].Contents() == old(pool.at[u].Contents())
      ensures moment.slots > 0 && (lcb != null ==> moment.load == Load(backend.url) + 1)
    {
      hide Shows, OutcomeOf, Departure, Counting, LB.Load, Bulkheads.Valid, Bulkheads.Sizes;
      o := CountedCall(backend, response);
      pool.Depart(backend.url, held);
    }

    /** Lines 103 to 117: the backend answers, and a good answer goes to the client. */
    method Respond(backend: LB.Backend, response: Option<seq<Call>>) returns (o: Outcome)
      requires Untouched()
      modifies this, client
      ensures o == OutcomeOf(Called(backend, response)) && Shows(Called(backend, response), old(responses))
      ensures moment == old(moment)
    {
      hide OutcomeOf, TrackedStatus, Replayed, Buffer;
      var buffer := new BufferingResponseWriter();
      var status := ExecuteRequest(response, buffer);
      finalBackend := Some(backend);
      finalStatus := status;
      if status < 500 {
        buffer.ReplayTo(client);
        responses := responses + [Relayed(response.value)];
      }
      o := OutcomeOf(Called(backend, response));
    }

    /** The reverse proxy writes through the status tracker into the buffer. */
    method ExecuteRequest(response: Option<seq<Call>>, buffer: BufferingResponseWriter) returns (status: int)
      requires buffer.Contents() == Buffer([])
      modifies buffer
      ensures status == if response.None? then 500 else TrackedStatus(response.value)
      ensures response.Some? ==> buffer.Contents() == Buffer(response.value)
    {
      if response.None? {
        return 500;
      }
      var calls := response.value;
      status := 200;
      for i := 0 to |calls|
        invariant buffer.Contents() == Buffer(calls[..i]) && status == TrackedStatus(calls[..i])
      {
        buffer.Accept(calls[i], calls[..i]);
        if calls[i].WriteHeader? {
          status := calls[i].status;
        }
        assert calls[..i + 1] == calls[..i] + [calls[i]];
        assert calls[..i + 1][..i] == calls[..i];
      }
      assert calls[..|calls|] == calls;
    }

    /** Lines 87 to 117: a backend is selected. */
    method AtBackend(m: Meeting) returns (o: Outcome, ghost a: Attempt)
      requires Untouched() && Counting() && pool.Valid() && m.Meets? && m.backend.url in pool.at
      modifies this, client, lcb, pool, pool.members, pool.queued
      ensures a == Attempted(pool.limits, old(pool.Sizes()[m.backend.url]), m)
      ensures o == OutcomeOf(a) && Shows(a, old(responses))
      ensures Counting() && forall url :: Load(url) == old(Load(url))
      ensures pool.Valid() && forall r :: r in pool.queued ==> r in old(pool.queued) || fresh(r)
      ensures pool.Sizes() == old(pool.Sizes())[m.backend.url :=
        Visit(pool.limits, old(pool.Sizes()[m.backend.url]), m.traffic)]
      ensures forall u :: u in pool.at && u != m.backend.url ==> pool.at[u].Contents() == old(pool.at[u].Contents())
      ensures TurnedAway(pool.limits, old(pool.Sizes()[m.backend.url]), m.traffic) ==>
        pool.at[m.backend.url].Contents() == old(pool.at[m.backend.url].Contents())
      ensures InHand(a)
    {
      assert Shows(Refused(m.backend), responses);
      hide Shows, OutcomeOf, Arrival, Departure, Counting, Load, Called, Visit, Bulkheads.Valid, Bulkheads.Sizes;
      VisitUpdates(pool.limits, pool.Sizes(), m.backend.url, m.traffic);
      var reply := pool.Arrive(m.backend.url, m.traffic);
      if reply != SB.Nil {
        a := Refused(m.backend);
        return OutcomeOf(Refused(m.backend)), a;
      }
      a := Called(m.backend, m.response);
      o := WithSlot(m.backend, m.response, m.traffic.held);
    }

    /** The rest of the closure once somebody was selected or nobody; the round-robin counter stays. */
    method Meet(m: Meeting) returns (o: Outcome, ghost a: Attempt)
      requires Untouched() && Sound(balancer) && pool.Valid() && (m.Meets? ==> m.backend.url in pool.at)
      modifies this, client, lcb, pool, pool.members, pool.queued
      ensures a == AttemptedIn(pool.limits, old(pool.Sizes()), m)
      ensures o == OutcomeOf(a) && Told(a, old(responses))
      ensures Sound(balancer) && CounterOf(balancer) == old(CounterOf(balancer))
      ensures forall url :: Load(url) == old(Load(url))
      ensures pool.Valid() && forall r :: r in pool.queued ==> r in old(pool.queued) || fresh(r)
      ensures pool.Sizes() == SizesAfterOne(pool.limits, old(pool.Sizes()), m)
      ensures forall u :: u in pool.at && LeavesAlone(pool.limits, old(pool.Sizes()[u]), m, u) ==>
        pool.at[u].Contents() == old(pool.at[u].Contents())
      ensures InHand(a)
    {
      hide Load, Arrival, Visit, Undisturbed, Bulkheads.Valid, Bulkheads.Sizes;
      if m.Nobody? {
        a := NoBackend;
        return OutcomeOf(NoBackend), a;
      }
      ghost var z := pool.Sizes()[m.backend.url];
      pool.BusyAt(m.backend.url);
      o, a := AtBackend(m);
      if Undisturbed(pool.limits, z, m.traffic) {
        UndisturbedVisit(pool.limits, z, m.traffic);
        if Arrival(pool.limits, z, m.traffic).0.Nil? { pool.SizesTell(m.backend.url); }
      }
    }

    /** It leaves the breakers alone. */
    method MeetAside(m: Meeting) returns (o: Outcome, ghost a: Attempt)
      requires Untouched() && Sound(balancer) && LB.AllValid(backends) && pool.Valid() &&
        (m.Meets? ==> m.backend.url in pool.at)
      modifies this, client, lcb, pool, pool.members, pool.queued
      ensures a == AttemptedIn(pool.limits, old(pool.Sizes()), m)
      ensures o == OutcomeOf(a) && Told(a, old(responses))
      ensures Sound(balancer) && CounterOf(balancer) == old(CounterOf(balancer))
      ensures forall b :: b in LB.Breakers(backends) ==> b.Valid() && b.history == old(b.history)
      ensures forall url :: Load(url) == old(Load(url))
      ensures pool.Valid() && forall r :: r in pool.queued ==> r in old(pool.queued) || fresh(r)
      ensures pool.Sizes() == SizesAfterOne(pool.limits, old(pool.Sizes()), m)
      ensures forall u :: u in pool.at && LeavesAlone(pool.limits, old(pool.Sizes()[u]), m, u) ==>
        pool.at[u].Contents() == old(pool.at[u].Contents())
      ensures InHand(a)
    {
      hide Load, Bulkheads.Valid, Bulkheads.Sizes, CB.CircuitBreaker.Valid, OutcomeOf, Shows, AttemptedIn, LeavesAlone;
      hide SizesAfterOne, LeavesAlone, Sound, CounterOf, Told;
      o, a := Meet(m);
    }

    /** Line 82, which changes nothing but the round-robin counter and the breakers. */
    method Select(times: seq<int>, roll: nat) returns (selected: Option<LB.Backend>)
      requires Untouched() && Sound(balancer) && LB.AllValid(backends) && pool.Valid() && |times| == |backends|
      modifies wheel, LB.Breakers(backends)
      ensures Untouched() && Sound(balancer) && LB.AllValid(backends)
      ensures LB.Histories(backends) == AfterAsking(old(LB.Histories(backends)), backends, times)
      ensures var kind, fit := KindOfBalancer(balancer), LB.Passing(backends, times, old(LB.Histories(backends)));
        && MaySelect(kind, old(CounterOf(balancer)), old(Connections()), fit, selected)
        && CounterOf(balancer) == Advanced(kind, old(CounterOf(balancer)), fit)
      ensures selected.Some? ==> selected.value in backends
      ensures pool.Valid() && pool.Sizes() == old(pool.Sizes())
      ensures Connections() == old(Connections())
      ensures forall u :: u in pool.at ==> pool.at[u].Contents() == old(pool.at[u].Contents())
    {
      hide MaySelect, LB.Passing, AfterAsking, CB.CircuitBreaker.Valid, Bulkheads.Valid, Bulkheads.Sizes;
      FitAmong(backends, times, LB.Histories(backends));
      ghost var fit := LB.Passing(backends, times, LB.Histories(backends));
      selected := SelectBackend(balancer, backends, times, roll);
      SelectedIsFit(KindOfBalancer(balancer), old(CounterOf(balancer)), old(Connections()), fit, selected);
    }

    /** The closure handed to the retry loop. */
    method Operation(e: Encounter) returns (o: Outcome, ghost selected: Option<LB.Backend>, ghost a: Attempt)
      requires Untouched() && Sound(balancer) && LB.AllValid(backends) && |e.times| == |backends|
      requires pool.Valid() && forall b :: b in backends ==> b.url in pool.at
      modifies this, client, lcb, wheel, LB.Breakers(backends), pool, pool.members, pool.queued
      ensures Sound(balancer) && LB.AllValid(backends)
      ensures LB.Histories(backends) == AfterAsking(old(LB.Histories(backends)), backends, e.times)
      ensures var kind, fit := KindOfBalancer(balancer), LB.Passing(backends, e.times, old(LB.Histories(backends)));
        && MaySelect(kind, old(CounterOf(balancer)), old(Connections()), fit, selected)
        && CounterOf(balancer) == Advanced(kind, old(CounterOf(balancer)), fit)
      ensures a == AttemptedIn(pool.limits, old(pool.Sizes()), Met(selected, e))
      ensures o == OutcomeOf(a) && Told(a, old(responses))
      ensures forall url :: Load(url) == old(Load(url))
      ensures pool.Valid() && forall r :: r in pool.queued ==> r in old(pool.queued) || fresh(r)
      ensures pool.Sizes() == SizesAfterOne(pool.limits, old(pool.Sizes()), Met(selected, e))
      ensures forall u :: u in pool.at && LeavesAlone(pool.limits, old(pool.Sizes()[u]), Met(selected, e), u) ==>
        pool.at[u].Contents() == old(pool.at[u].Contents())
      ensures InHand(a)
    {
      hide Bulkheads.Valid, Bulkheads.Sizes, MaySelect, LB.Passing, AfterAsking, LB.AllValid, LB.Histories, LB.Breakers;
      hide OutcomeOf, Told, AttemptedIn, LeavesAlone, SizesAfterOne, InHand, Sound, CounterOf, LB.Load, Untouched;
      var chosen := Select(e.times, e.roll);
      selected := chosen;
      ghost var past := LB.Histories(backends);
      AreHistories(past);
      o, a := MeetAside(Met(chosen, e));
      AreHistories(past);
    }

    lemma AreHistories(past: Past)
      ensures LB.AllValid(backends) <==> forall b :: b in LB.Breakers(backends) ==> b.Valid()
      ensures past == LB.Histories(backends) <==>
        past.Keys == LB.Breakers(backends) && forall b :: b in past ==> b.history == past[b]
    {}

    /** What the request finds. */
    ghost function Start(): Origin
      reads lcb, wheel, LB.Breakers(backends)
    {
      Origin(KindOfBalancer(balancer), CounterOf(balancer), Connections(), backends, LB.Histories(backends))
    }

    /** The script is one for this route and a request that found `from`. */
    ghost predicate Fits(from: Origin, script: seq<Encounter>) {
      && from.kind == KindOfBalancer(balancer) && from.backends == backends && Follows(from, script)
      && forall b :: b in backends ==> b.url in pool.at
    }

    lemma FitsFollows(from: Origin, script: seq<Encounter>)
      requires Fits(from, script)
      ensures Follows(from, script)
    {}

    /** The state is `now`, up to how the connection counts are written down. */
    ghost predicate Stands(now: Snapshot)
      reads lcb, wheel, LB.Breakers(backends), pool, pool.members, pool.queued
    {
      && Sound(balancer) && LB.AllValid(backends) && pool.Valid()
      && LB.Histories(backends) == now.past && CounterOf(balancer) == now.counter
      && (forall url :: Load(url) == LB.Load(now.loads, url)) && pool.Sizes() == now.sizes
    }

    lemma HistoriesOf(now: Snapshot)
      requires Stands(now)
      ensures LB.Breakers(backends) == now.past.Keys
      ensures forall b :: b in LB.Breakers(backends) ==> b in now.past && b.history == now.past[b]
    {
      assert LB.Histories(backends).Keys == LB.Breakers(backends);
    }

    ghost predicate Shown(made: seq<Attempt>)
      reads this, client
    {
      if made == [] then Untouched() && responses == [] && finalBackend == None
      else Shows(made[|made| - 1], [])
    }

    /** The closure, as a step from one state to the next. */
    method Step(e: Encounter, ghost now: Snapshot) returns (o: Outcome, ghost s: Option<LB.Backend>, ghost a: Attempt)
      requires Untouched() && Stands(now) && Asks(backends, now, e) && forall b :: b in backends ==> b.url in pool.at
      modifies this, client, lcb, wheel, LB.Breakers(backends), pool, pool.members, pool.queued
      ensures MaySelect(KindOfBalancer(balancer), now.counter, now.loads, FitIn(backends, now, e), s)
      ensures Stands(Next(pool.limits, KindOfBalancer(balancer), backends, now, e, s))
      ensures a == AttemptedIn(pool.limits, now.sizes, Met(s, e))
      ensures o == OutcomeOf(a) && Told(a, old(responses))
      ensures forall r :: r in pool.queued ==> r in old(pool.queued) || fresh(r)
    {
      hide Shows, OutcomeOf, Good, SizesAfterOne, Bulkheads.Valid, Bulkheads.Sizes, LB.Passing, MaySelect, AfterAsking;
      hide LB.AllValid, LB.Histories, LB.Breakers, Sound, LB.Load, LeavesAlone, AttemptedIn, Met, Advanced;
      ghost var loads := Connections();
      o, s, a := Operation(e);
      LoadsAlike(KindOfBalancer(balancer), now.counter, loads, now.loads, FitIn(backends, now, e), s);
    }

    /** The selections were made as the balancer makes them, the state has followed, and the
        client has seen the last attempt if it was good, and otherwise nothing. */
    ghost predicate Underway(from: Origin, z: AllSizes, script: seq<Encounter>, selected: seq<Option<LB.Backend>>)
      requires Follows(from, script) && |selected| <= |script|
      reads this, client, lcb, wheel, LB.Breakers(backends), pool, pool.members, pool.queued
    {
      && Selected(from, script, selected)
      && Stands(StateAt(pool.limits, from, z, script, selected))
      && Shown(RunOf(pool.limits, z, script, selected))
    }

    /** One more attempt. */
    method Again(ghost from: Origin, ghost z: AllSizes, script: seq<Encounter>, n: nat,
      ghost selected: seq<Option<LB.Backend>>)
      returns (o: Outcome, ghost s: Option<LB.Backend>)
      requires Fits(from, script) && |selected| == n < |script| && Underway(from, z, script, selected)
      requires n > 0 ==> !Good(RunOf(pool.limits, z, script, selected)[n - 1])
      modifies this, client, lcb, wheel, LB.Breakers(backends), pool, pool.members, pool.queued
      ensures Underway(from, z, script, selected + [s])
      ensures o == OutcomeOf(RunOf(pool.limits, z, script, selected + [s])[n])
      ensures forall r :: r in pool.queued ==> r in old(pool.queued) || fresh(r)
    {
      assert Untouched() && responses == [];
      hide Stands, Shows, OutcomeOf, Good, RunOf, Next, Asks, MaySelect, Selected, FitIn, AttemptedIn, Met, Untouched;
      ghost var a;
      AsksAt(pool.limits, from, z, script, selected);
      o, s, a := Step(script[n], StateAt(pool.limits, from, z, script, selected));
      OneMoreAttempt(pool.limits, from, z, script, selected, s);
      RunGrows(pool.limits, z, script, selected, s);
    }

    /** The pause between two attempts, during which this request changes nothing. */
    method Pause(rolls: seq<real>, slept: seq<int>, ghost from: Origin, ghost z: AllSizes,
      ghost script: seq<Encounter>, ghost selected: seq<Option<LB.Backend>>)
      returns (longer: seq<int>)
      requires Draws(rolls) && Drawn(retry, rolls, slept) && |slept| < |rolls|
      requires Follows(from, script) && |selected| <= |script| && Underway(from, z, script, selected)
      ensures |longer| == |slept| + 1 && Drawn(retry, rolls, longer)
      ensures Underway(from, z, script, selected) && pool.queued == old(pool.queued)
    {
      hide Selected, StateAt, RunOf, Drawn, Delay, Backoff, CB.CircuitBreaker.Valid, Bulkheads.Sizes;
      OneMorePause(retry, rolls, slept);
      var delay := CalculateDelay(retry, |slept|, rolls[|slept|]);
      longer := slept + [delay];
    }

    /** The retry loop around the closure, with `slept` its pauses; `rolls` are their random draws. */
    method RunAttempts(script: seq<Encounter>, rolls: seq<real>, ghost from: Origin, ghost z: AllSizes)
      returns (err: Option<Error>, slept: seq<int>, ghost selected: seq<Option<LB.Backend>>)
      requires retry.maxAttempts <= |script| && retry.maxAttempts <= |rolls| && Draws(rolls)
      requires Fits(from, script) && Underway(from, z, script, [])
      modifies this, client, lcb, wheel, LB.Breakers(backends), pool, pool.members, pool.queued
      ensures |selected| <= |script| && Underway(from, z, script, selected)
      ensures var outcomes := Outcomes(RunOf(pool.limits, z, script, selected));
        Attempts(retry.maxAttempts, outcomes, |outcomes|) && err == Verdict(outcomes)
      ensures |slept| == (if selected == [] then 0 else |selected| - 1) && Drawn(retry, rolls, slept)
    {
      ghost var outcomes := [];
      hide *;
      FitsFollows(from, script);
      NothingTried(retry, rolls, pool.limits, z, script);
      var lastErr, n := None, 0;
      slept, selected := [], [];
      while n < retry.maxAttempts
        invariant n <= retry.maxAttempts || n == 0
        invariant if n == 0 then lastErr == None else n < retry.maxAttempts
        invariant |slept| == n == |selected| && Drawn(retry, rolls, slept)
        invariant Underway(from, z, script, selected)
        invariant outcomes == Outcomes(RunOf(pool.limits, z, script, selected)) && Retrying(outcomes, n, lastErr)
        invariant n > 0 ==> !IsSuccess(outcomes[n - 1])
        invariant forall r :: r in pool.queued ==> r in old(pool.queued) || fresh(r)
        decreases retry.maxAttempts - n
      {
        var outcome;
        ghost var s;
        outcome, s := Again(from, z, script, n, selected);
        OutcomesGrow(pool.limits, z, script, selected, s);
        OneMoreTurn(retry.maxAttempts, outcomes, outcome, lastErr);
        outcomes, selected, n := outcomes + [outcome], selected + [s], n + 1;
        if IsSuccess(outcome) {
          return None, slept, selected;
        }
        if IsServerError(outcome) {
          lastErr := outcome.err;
        }
        if n == retry.maxAttempts || !ShouldRetry(outcome) {
          break;
        }
        slept := Pause(rolls, slept, from, z, script, selected);
      }
      err := lastErr;
    }

    /** Line 129. */
    method RecordOn(backend: LB.Backend, ghost made: seq<Attempt>, ghost now: Snapshot)
      requires backend in backends && Stands(now)
      requires made != [] && Good(made[|made| - 1]) && made[|made| - 1].backend == backend
      modifies backend.breaker
      ensures Stands(WithVerdict(now, made))
    {
      hide CB.CircuitBreaker.Valid, Bulkheads.Valid, Bulkheads.Sizes, Good;
      ghost var b := backend.breaker;
      backend.breaker.RecordSuccess();
      assert b.history == now.past[b] + Verdicts(made, b);
      forall c | c in LB.Breakers(backends) && c != b
        ensures c.Valid() && c.history == now.past[c] + Verdicts(made, c)
      {
        assert Verdicts(made, c) == [];
      }
      assert LB.Histories(backends) == WithVerdict(now, made).past;
    }

    /** Lines 119 to 132. */
    method Report(err: Option<Error>, ghost made: seq<Attempt>, ghost now: Snapshot) returns (ending: Ending)
      requires Shown(made) && (err.None? <==> made == [] || Good(made[|made| - 1]))
      requires err.None? && made != [] ==> made[|made| - 1].backend in backends
      requires Stands(now)
      modifies this, client, LB.Breakers(backends)
      ensures ending == Ended(true, made) && responses == Responses(true, made)
      ensures ending == Plain ==> client.received == Received(greeting, 503, [])
      ensures ending == Recorded ==> Shows(made[|made| - 1], [])
      ensures Stands(WithVerdict(now, made))
    {
      hide CB.CircuitBreaker.Valid, OutcomeOf, TrackedStatus, Buffer, Replayed, Bulkheads.Valid, Bulkheads.Sizes;
      if err.Some? {
        client.Send(WriteHeader(503));
        responses := responses + [ErrorPage(503)];
        NoVerdict(now, made);
        return Plain;
      }
      if finalBackend.None? {
        NoVerdict(now, made);
        return Panicked;
      }
      if finalStatus >= 500 {
        // RecordFailure (line 126) would be called here; no run gets here.
        assert false;
      } else {
        RecordOn(finalBackend.value, made, now);
        ending := Recorded;
      }
    }

    /** The attempts and the report on them. */
    method RunAndReport(script: seq<Encounter>, rolls: seq<real>, ghost from: Origin, ghost z: AllSizes)
      returns (ending: Ending, ghost selected: seq<Option<LB.Backend>>, ghost made: seq<Attempt>)
      requires retry.maxAttempts <= |script| && retry.maxAttempts <= |rolls| && Draws(rolls)
      requires Fits(from, script) && Underway(from, z, script, [])
      modifies this, client, lcb, wheel, LB.Breakers(backends), pool, pool.members, pool.queued
      ensures |selected| <= |script| && Selected(from, script, selected) &&
        made == RunOf(pool.limits, z, script, selected)
      ensures Attempts(retry.maxAttempts, Outcomes(made), |made|)
      ensures ending == Ended(true, made) && responses == Responses(true, made)
      ensures ending == Plain ==> client.received == Received(greeting, 503, [])
      ensures ending == Recorded ==> Shows(made[|made| - 1], [])
      ensures Stands(WithVerdict(StateAt(pool.limits, from, z, script, selected), made))
    {
      hide Stands, OutcomeOf, RunOf, StateAt, Good, Shows, Selected, Attempts, Drawn, Draws, WithVerdict, Responses;
      var err, slept;
      err, slept, selected := RunAttempts(script, rolls, from, z);
      made := RunOf(pool.limits, z, script, selected);
      if selected != [] { CoherentVerdict(retry.maxAttempts, made); }
      GoodIsAmong(pool.limits, from, z, script, selected);
      assert selected == [] ==> err.None? by { NoVerdictYet(retry.maxAttempts); }
      ending := Report(err, made, StateAt(pool.limits, from, z, script, selected));
    }

    /** Lines 77 to 132: a route matches. Each breaker of the route is asked in every selection,
        and the one of the backend that was replayed has a success recorded. */
    method ServeRoute(script: seq<Encounter>, rolls: seq<real>)
      returns (ending: Ending, ghost selected: seq<Option<LB.Backend>>, ghost made: seq<Attempt>)
      requires retry.maxAttempts <= |script| && retry.maxAttempts <= |rolls| && Draws(rolls)
      requires Follows(Start(), script) && forall b :: b in backends ==> b.url in pool.at
      requires Shown([]) && Sound(balancer) && LB.AllValid(backends) && pool.Valid()
      modifies this, client, lcb, wheel, LB.Breakers(backends), pool, pool.members, pool.queued
      ensures |selected| <= |script| && Selected(old(Start()), script, selected)
      ensures made == RunOf(pool.limits, old(pool.Sizes()), script, selected)
      ensures Attempts(retry.maxAttempts, Outcomes(made), |made|)
      ensures ending == Ended(true, made) && responses == Responses(true, made)
      ensures Saw(greeting, made, ending, client.received)
      ensures Stands(WithVerdict(StateAt(pool.limits, old(Start()), old(pool.Sizes()), script, selected), made))
      ensures forall b :: b in LB.Breakers(backends) ==>
        b.history == old(b.history) + RequestEvents(backends, script, made, b)
      ensures forall b :: b in LB.Breakers(backends) ==>
        var won := made != [] && Good(made[|made| - 1]) && made[|made| - 1].backend.breaker == b;
        && CB.Asks(b.history, 0) == old(CB.Asks(b.history, 0)) + |made| * LB.Entries(backends, b)
        && CB.Successes(b.history, 0) == old(CB.Successes(b.history, 0)) + Bit(won)
        && CB.FailureRun(b.history) == (if won then 0 else old(CB.FailureRun(b.history)))
    {
      ghost var from, z := Start(), pool.Sizes();
      NoAttempt(pool.limits, from, z, script);
      assert Fits(from, script) && Underway(from, z, script, []);
      hide Stands, RunOf, StateAt, Shows, Selected, Attempts, Draws, WithVerdict, Responses, Underway, RequestEvents,
        Saw;
      ending, selected, made := RunAndReport(script, rolls, from, z);
      EventsOfRequest(pool.limits, from, z, script, selected, made);
      HistoriesOf(WithVerdict(StateAt(pool.limits, from, z, script, selected), made));
      Seen(made, ending);
      forall b | b in LB.Breakers(backends) { RequestCounts(backends, script, made, b, from.past[b]); }
    }

    lemma Seen(made: seq<Attempt>, ending: Ending)
      requires ending == Ended(true, made)
      requires ending == Plain ==> client.received == Received(greeting, 503, [])
      requires ending == Recorded ==> Shows(made[|made| - 1], [])
      ensures Saw(greeting, made, ending, client.received)
    {}
  }

  /** What a request came to: the route it matched, if any, the selections of its attempts and
      what the attempts came to. */
  datatype Course = Unrouted | Routed(route: nat, selected: seq<Option<LB.Backend>>, made: seq<Attempt>)

  /** The breakers of all routes. */
  ghost function RouteBreakers(routes: seq<Route>): set<CB.CircuitBreaker> {
    set i, b | 0 <= i < |routes| && b in LB.Breakers(routes[i].backends) :: b
  }

  /** What a request to this route finds: the cached balancer or, failing that, a new one. */
  ghost function Found(p: ProxyState.Proxy, route: Route): Origin
    requires p.Balanced()
    reads p, p.wheels, p.counters, LB.Breakers(route.backends)
  {
    var past := LB.Histories(route.backends);
    if route.pattern in p.loadBalancers
    then var b := p.loadBalancers[route.pattern];
      Origin(KindOfBalancer(b), CounterOf(b), ConnectionsOf(b), route.backends, past)
    else Origin(BC.KindOf(route.loadBalancer), 0, map[], route.backends, past)
  }

  /** The state of a route's balancer, breakers and bulkheads is `now`, up to how the connection
      counts are written down. */
  ghost predicate Leaves(p: ProxyState.Proxy, route: Route, pool: Bulkheads, now: Snapshot)
    reads p, p.wheels, p.counters, LB.Breakers(route.backends), pool, pool.members, pool.queued
  {
    && p.Balanced() && route.pattern in p.loadBalancers
    && LB.AllValid(route.backends) && LB.Histories(route.backends) == now.past
    && CounterOf(p.loadBalancers[route.pattern]) == now.counter
    && (forall url :: LB.Load(ConnectionsOf(p.loadBalancers[route.pattern]), url) == LB.Load(now.loads, url))
    && pool.Valid() && pool.Sizes() == now.sizes
  }

  /** What the attempts of a routed request were and how it ended. */
  ghost predicate Ran(c: BP.Config, max: int, from: Origin, z: AllSizes, script: seq<Encounter>,
    selected: seq<Option<LB.Backend>>, made: seq<Attempt>, ending: Ending, responses: seq<Response>)
  {
    && Follows(from, script) && |made| == |selected| <= |script| && Selected(from, script, selected)
    && made == RunOf(c, z, script, selected) && Attempts(max, Outcomes(made), |made|)
    && ending == Ended(true, made) && responses == Responses(true, made)
  }

  /** What the client has been sent by the end of a routed request. */
  ghost predicate Saw(greeting: Headers, made: seq<Attempt>, ending: Ending, received: Received) {
    && (ending.Plain? ==> received == Received(greeting, 503, []))
    && (ending.Recorded? ==>
          made != [] && Good(made[|made| - 1]) &&
          received == Replayed(Received(greeting, 0, []), Buffer(made[|made| - 1].response)))
  }

  /** Each breaker had the history in `past`. It has one success more, which ends its run of
      failures, if the client was sent an answer of its backend, and its counts stay otherwise. */
  ghost predicate Rewards(backends: seq<LB.Backend>, past: Past, made: seq<Attempt>, ending: Ending)
    reads LB.Breakers(backends)
  {
    && (ending.Recorded? ==> made != [] && Good(made[|made| - 1]))
    && forall b :: b in LB.Breakers(backends) ==>
      var won := ending.Recorded? && made[|made| - 1].backend.breaker == b;
      && b in past
      && CB.Successes(b.history, 0) == CB.Successes(past[b], 0) + Bit(won)
      && CB.FailureRun(b.history) == (if won then 0 else CB.FailureRun(past[b]))
  }

  /** A routed request that found `from` and bulkheads of sizes `z` has been carried out. */
  ghost predicate Carried(p: ProxyState.Proxy, route: Route, pool: Bulkheads, max: int, from: Origin, z: AllSizes,
    script: seq<Encounter>, selected: seq<Option<LB.Backend>>, made: seq<Attempt>, ending: Ending,
    responses: seq<Response>)
    reads p, p.wheels, p.counters, LB.Breakers(route.backends), pool, pool.members, pool.queued
  {
    && Ran(pool.limits, max, from, z, script, selected, made, ending, responses)
    && Leaves(p, route, pool, WithVerdict(StateAt(pool.limits, from, z, script, selected), made))
    && Rewards(route.backends, from.past, made, ending)
  }

  /** Lines 75 and 77 to 78: the balancer of the route, and the variables of the call. */
  method Open(p: ProxyState.Proxy, pool: Bulkheads, retry: RetryConfig, client: ClientWriter, route: Route)
    returns (x: Exchange)
    requires p.Balanced() && LB.AllValid(route.backends) && pool.Valid()
    requires client.received.status == 0 && client.received.body == []
    modifies p`loadBalancers, p`wheels, p`counters
    ensures fresh(x) && x.retry == retry && x.pool == pool && x.client == client && x.backends == route.backends
    ensures x.greeting == client.received.header && x.Shown([])
    ensures Sound(x.balancer) && LB.AllValid(route.backends) && x.Start() == old(Found(p, route))
    ensures p.loadBalancers == old(p.loadBalancers)[route.pattern := x.balancer] && p.Balanced()
    ensures pool.Valid() && pool.Sizes() == old(pool.Sizes())
    ensures (x.wheel != null ==> x.wheel in p.wheels) && (x.lcb != null ==> x.lcb in p.counters)
    ensures forall w :: w in p.wheels ==> w in old(p.wheels) || fresh(w)
    ensures forall l :: l in p.counters ==> l in old(p.counters) || fresh(l)
  {
    hide CB.CircuitBreaker.Valid, Bulkheads.Valid, Bulkheads.Sizes;
    var balancer := p.GetLoadBalancer(route);
    assert route.pattern in p.loadBalancers && p.loadBalancers[route.pattern] == balancer;
    x := new Exchange(retry, pool, route.backends, balancer, client);
  }

  lemma Left(p: ProxyState.Proxy, route: Route, pool: Bulkheads, x: Exchange, now: Snapshot)
    requires p.Balanced() && route.pattern in p.loadBalancers && p.loadBalancers[route.pattern] == x.balancer
    requires x.pool == pool && x.backends == route.backends && x.Stands(now)
    ensures Leaves(p, route, pool, now)
  {}

  /** The rest of a matched request, which found `from` and bulkheads of sizes `z`. */
  method Continue(p: ProxyState.Proxy, pool: Bulkheads, route: Route, x: Exchange,
    script: seq<Encounter>, rolls: seq<real>, ghost from: Origin, ghost z: AllSizes)
    returns (ending: Ending, ghost selected: seq<Option<LB.Backend>>, ghost made: seq<Attempt>)
    requires p.Balanced() && route.pattern in p.loadBalancers && p.loadBalancers[route.pattern] == x.balancer
    requires x.pool == pool && x.backends == route.backends && x.Start() == from && Follows(from, script) &&
      LB.AllValid(route.backends)
    requires forall b :: b in route.backends ==> b.url in pool.at
    requires x.retry.maxAttempts <= |script| && x.retry.maxAttempts <= |rolls| && Draws(rolls)
    requires x.Shown([]) && pool.Valid() && pool.Sizes() == z
    modifies x, x.client, x.lcb, x.wheel, LB.Breakers(route.backends), pool, pool.members, pool.queued
    ensures Ran(pool.limits, x.retry.maxAttempts, from, z, script, selected, made, ending, x.responses)
    ensures Saw(x.greeting, made, ending, x.client.received)
    ensures Leaves(p, route, pool, WithVerdict(StateAt(pool.limits, from, z, script, selected), made))
  {
    hide CB.CircuitBreaker.Valid, Bulkheads.Valid, Bulkheads.Sizes, Selected, RunOf, StateAt, RequestEvents, Good;
    hide Attempts, Saw, Outcomes, Leaves, WithVerdict, Follows;
    ending, selected, made := x.ServeRoute(script, rolls);
    forall w | w in p.wheels ensures w.Valid() {}
    forall l | l in p.counters ensures l.Valid() {}
    Left(p, route, pool, x, WithVerdict(StateAt(pool.limits, from, z, script, selected), made));
  }

  /** A request whose path matches this route. */
  method ServeMatched(p: ProxyState.Proxy, pool: Bulkheads, retry: RetryConfig, client: ClientWriter, route: Route,
    script: seq<Encounter>, rolls: seq<real>)
    returns (ending: Ending, ghost selected: seq<Option<LB.Backend>>, ghost made: seq<Attempt>,
      ghost responses: seq<Response>)
    requires p.Balanced() && pool.Valid() && LB.AllValid(route.backends)
    requires forall b :: b in route.backends ==> b.url in pool.at
    requires retry.maxAttempts <= |script| && retry.maxAttempts <= |rolls| && Draws(rolls)
    requires Timed(route.backends, TimesOf(script))
    requires client.received.status == 0 && client.received.body == []
    modifies p`loadBalancers, p`wheels, p`counters, p.wheels, p.counters
    modifies LB.Breakers(route.backends), client, pool, pool.members, pool.queued
    ensures Carried(p, route, pool, retry.maxAttempts, old(Found(p, route)), old(pool.Sizes()), script, selected,
      made, ending, responses)
    ensures Saw(old(client.received).header, made, ending, client.received)
  {
    ghost var z, from := pool.Sizes(), Found(p, route);
    assert Follows(from, script) && from.backends == route.backends;
    hide CB.CircuitBreaker.Valid, Bulkheads.Valid, Bulkheads.Sizes, Follows, Leaves, WithVerdict, StateAt, Ran, Saw,
      Found, Rewards;
    var exchange := Open(p, pool, retry, client, route);
    ending, selected, made := Continue(p, pool, route, exchange, script, rolls, from, z);
    responses := exchange.responses;
    CountsLeft(p, route, pool, pool.limits, retry.maxAttempts, from, z, script, selected, made, ending, responses);
  }

  /** One request, from its path on: 404 when no route matches, else the route's attempts. */
  method ServeHTTP(p: ProxyState.Proxy, pool: Bulkheads, retry: RetryConfig, client: ClientWriter, path: string,
    script: seq<Encounter>, rolls: seq<real>)
    returns (ending: Ending, ghost course: Course, ghost responses: seq<Response>)
    requires p.Balanced() && pool.Valid() && pool.at == p.bulkheads
    requires forall i :: 0 <= i < |p.routes| ==> LB.AllValid(p.routes[i].backends)
    requires forall url :: Named(p.routes, url) ==> url in p.bulkheads
    requires retry.maxAttempts <= |script| && retry.maxAttempts <= |rolls| && Draws(rolls)
    requires forall i: nat :: FirstMatch(p.routes, path, i) ==> Timed(p.routes[i].backends, TimesOf(script))
    requires client.received.status == 0 && client.received.body == []
    modifies p`loadBalancers, p`wheels, p`counters, p.wheels, p.counters
    modifies RouteBreakers(p.routes), client, pool, pool.members, pool.queued
    ensures match course
            case Unrouted =>
              && (forall i :: 0 <= i < |p.routes| ==> !MatchesPattern(p.routes[i].pattern, path))
              && ending == Plain && responses == [ErrorPage(404)]
              && client.received == Received(old(client.received).header, 404, [])
            case Routed(i, selected, made) =>
              && FirstMatch(p.routes, path, i)
              && Carried(p, p.routes[i], pool, retry.maxAttempts, old(Found(p, p.routes[i])), old(pool.Sizes()),
                script, selected, made, ending, responses)
              && Saw(old(client.received).header, made, ending, client.received)
  {
    hide *;
    BreakersExist(p.routes);
    var route := MatchRoute(p.routes, path);
    if route.None? {
      PageSent(client.received, 404);
      client.Send(WriteHeader(404));
      return Plain, Unrouted, [ErrorPage(404)];
    }
    ghost var i: nat :| i < |p.routes| && FirstMatch(p.routes, path, i) && route.value == p.routes[i];
    NamedHere(p.routes, i);
    ghost var selected, made;
    ending, selected, made, responses := ServeMatched(p, pool, retry, client, route.value, script, rolls);
    course := Routed(i, selected, made);
  }

  lemma PageSent(r: Received, code: int)
    requires r.status == 0 && r.body == []
    ensures Deliver(r, WriteHeader(code)) == Received(r.header, code, [])
  {}

  lemma BreakersExist(routes: seq<Route>)
    ensures forall i, b :: 0 <= i < |routes| && b in LB.Breakers(routes[i].backends) ==> allocated(b)
  {}

  lemma NamedHere(routes: seq<Route>, i: nat)
    requires i < |routes|
    ensures forall b :: b in routes[i].backends ==> Named(routes, b.url)
    ensures LB.Breakers(routes[i].backends) <= RouteBreakers(routes)
  {}

  /** The verdict of the request is recorded. */
  ghost function WithVerdict(now: Snapshot, made: seq<Attempt>): Snapshot {
    now.(past := map b | b in now.past :: now.past[b] + Verdicts(made, b))
  }

  /** What one request adds to the history of a breaker: the questions of its selections, and the
      verdict on its last attempt. */
  ghost function RequestEvents(
    backends: seq<LB.Backend>, script: seq<Encounter>, made: seq<Attempt>, b: CB.CircuitBreaker): seq<CB.Event>
    requires Timed(backends, TimesOf(script)) && |made| <= |script|
  {
    Asked(backends, TimesOf(script)[..|made|], b) + Verdicts(made, b)
  }

  lemma EventsOfRequest(
    c: BP.Config, from: Origin, z: AllSizes, script: seq<Encounter>, selected: seq<Option<LB.Backend>>,
    made: seq<Attempt>)
    requires Follows(from, script) && |made| == |selected| <= |script|
    ensures var past := WithVerdict(StateAt(c, from, z, script, selected), made).past;
      && past.Keys == from.past.Keys
      && forall b :: b in past ==> past[b] == from.past[b] + RequestEvents(from.backends, script, made, b)
  {
    hide Asked, Verdicts;
    var past, times := WithVerdict(StateAt(c, from, z, script, selected), made).past, TimesOf(script)[..|selected|];
    forall b | b in past
      ensures past[b] == from.past[b] + RequestEvents(from.backends, script, made, b)
    {
      Associate(from.past[b], Asked(from.backends, times, b), Verdicts(made, b));
    }
  }

  /** So each breaker of a served route has the events of the request added to its history. */
  lemma HistoriesLeft(p: ProxyState.Proxy, route: Route, pool: Bulkheads, c: BP.Config, from: Origin, z: AllSizes,
    script: seq<Encounter>, selected: seq<Option<LB.Backend>>, made: seq<Attempt>)
    requires Follows(from, script) && |made| == |selected| <= |script| && from.backends == route.backends
    requires Leaves(p, route, pool, WithVerdict(StateAt(c, from, z, script, selected), made))
    ensures forall b :: b in LB.Breakers(route.backends) ==>
      b in from.past && b.history == from.past[b] + RequestEvents(route.backends, script, made, b)
  {
    hide StateAt, WithVerdict, RequestEvents, Follows;
    var past := WithVerdict(StateAt(c, from, z, script, selected), made).past;
    EventsOfRequest(c, from, z, script, selected, made);
    assert LB.Histories(route.backends).Keys == LB.Breakers(route.backends);
    assert forall b :: b in LB.Breakers(route.backends) ==> b in past && b.history == past[b];
  }

  /** A request asks each breaker of its route once per attempt and entry, and records nothing
      but one success, on the breaker of the backend whose answer the client has been sent. */
  lemma RequestCounts(
    backends: seq<LB.Backend>, script: seq<Encounter>, made: seq<Attempt>, b: CB.CircuitBreaker, h: seq<CB.Event>)
    requires Timed(backends, TimesOf(script)) && |made| <= |script|
    ensures var won := made != [] && Good(made[|made| - 1]) && made[|made| - 1].backend.breaker == b;
      var h' := h + RequestEvents(backends, script, made, b);
      && |h'| == |h| + |made| * LB.Entries(backends, b) + Bit(won)
      && CB.Asks(h', 0) == CB.Asks(h, 0) + |made| * LB.Entries(backends, b)
      && CB.Successes(h', 0) == CB.Successes(h, 0) + Bit(won)
      && CB.FailureRun(h') == (if won then 0 else CB.FailureRun(h))
  {
    var times := TimesOf(script)[..|made|];
    var asked := Asked(backends, times, b);
    AskedOnly(backends, times, b);
    AskedOften(backends, times, b);
    BT.AsksCount(h, asked);
    Associate(h, asked, Verdicts(made, b));
    if Verdicts(made, b) == [] {
      assert h + asked + [] == h + asked;
    } else {
      BT.FrontOf(h + asked, CB.Success);
    }
  }

  lemma CountsLeft(p: ProxyState.Proxy, route: Route, pool: Bulkheads, c: BP.Config, max: int, from: Origin,
    z: AllSizes, script: seq<Encounter>, selected: seq<Option<LB.Backend>>, made: seq<Attempt>, ending: Ending,
    responses: seq<Response>)
    requires from.backends == route.backends
    requires Ran(c, max, from, z, script, selected, made, ending, responses)
    requires Leaves(p, route, pool, WithVerdict(StateAt(c, from, z, script, selected), made))
    ensures Rewards(route.backends, from.past, made, ending)
  {
    hide Leaves, StateAt, WithVerdict, RequestEvents;
    HistoriesLeft(p, route, pool, c, from, z, script, selected, made);
    forall b | b in LB.Breakers(route.backends) {
      RequestCounts(route.backends, script, made, b, from.past[b]);
    }
  }

  lemma NoVerdict(now: Snapshot, made: seq<Attempt>)
    requires made == [] || !Good(made[|made| - 1])
    ensures WithVerdict(now, made) == now
  {
    assert forall b :: b in now.past ==> now.past[b] + [] == now.past[b];
  }

  lemma NothingTried(c: RetryConfig, rolls: seq<real>, limits: BP.Config, z: AllSizes, script: seq<Encounter>)
    ensures Retrying([], 0, None) && Drawn(c, rolls, []) && Outcomes(RunOf(limits, z, script, [])) == []
    ensures c.maxAttempts <= 0 ==> Attempts(c.maxAttempts, [], 0) && Verdict([]) == None
  {}

  lemma NoVerdictYet(max: int)
    ensures Outcomes([]) == [] && Verdict([]) == None
  {}

  lemma CoherentVerdict(max: int, made: seq<Attempt>)
    requires made != [] && Attempts(max, Outcomes(made), |made|)
    ensures Verdict(Outcomes(made)).None? <==> Good(made[|made| - 1])
  {
    CoherentScripts(max, Outcomes(made), |made|);
    assert Outcomes(made)[..|made|] == Outcomes(made);
  }

  lemma GoodIsAmong(c: BP.Config, from: Origin, z: AllSizes, script: seq<Encounter>, selected: seq<Option<LB.Backend>>)
    requires Follows(from, script) && |selected| <= |script| && Selected(from, script, selected)
    ensures var made := RunOf(c, z, script, selected);
      made != [] && Good(made[|made| - 1]) ==> made[|made| - 1].backend in from.backends
  {
    hide Selections, RunOf, SizesBy, Arrival, TrackedStatus;
    SelectedAmong(from, TimesOf(script)[..|selected|], selected);
    if selected != [] {
      var n := |selected| - 1;
      assert selected == selected[..n] + [selected[n]];
      RunGrows(c, z, script, selected[..n], selected[n]);
    }
  }

  /** How ServeHTTP ends after these attempts; without any, it records on no backend. */
  function Ended(matched: bool, made: seq<Attempt>): Ending {
    if !matched then Plain else if made == [] then Panicked else if Good(made[|made| - 1]) then Recorded else Plain
  }

  lemma IncrementThenDecrement(m: map<string, int>, url: string)
    requires forall u :: u in m ==> m[u] >= 0
    ensures forall u :: LB.Load(LB.Decremented(LB.Incremented(m, url), url), u) == LB.Load(m, u)
  {}

  /** The responses written for the attempts made. */
  function Responses(matched: bool, made: seq<Attempt>): seq<Response> {
    if !matched then [ErrorPage(404)]
    else if made == [] then []
    else if Good(made[|made| - 1]) then [Relayed(made[|made| - 1].response)]
    else [ErrorPage(503)]
  }

  /** What the attempts made record on a breaker. */
  function Verdicts(made: seq<Attempt>, b: CB.CircuitBreaker): seq<CB.Event> {
    if made != [] && Good(made[|made| - 1]) && made[|made| - 1].backend.breaker == b then [CB.Success] else []
  }

  // ---- One response ----------------------------------------------------------------------

  /** A matched request whose attempts came to `made` gets exactly one response: its last attempt
      if that was good, and it is the first good one; otherwise, all allowed attempts having
      failed, one 503. */
  lemma ExactlyOneResponse(max: int, made: seq<Attempt>)
    requires max >= 1 && Attempts(max, Outcomes(made), |made|)
    ensures forall j :: 0 <= j < |made| - 1 ==> !Good(made[j])
    ensures Responses(true, made) ==
            if exists j :: 0 <= j < |made| && Good(made[j])
            then [Relayed(made[|made| - 1].response)]
            else [ErrorPage(503)]
    ensures |made| == max || Good(made[|made| - 1])
  {
    CoherentScripts(max, Outcomes(made), |made|);
    assert forall j :: 0 <= j < |made| ==> (IsSuccess(Outcomes(made)[j]) <==> Good(made[j]));
  }

  /** A relayed response reaches the client as if the backend had written to it directly, with
      a status below 500; nothing of the failed attempts is left in it. */
  lemma ClientSeesTheLastAnswer(greeting: Headers, a: Attempt)
    requires Good(a) && Orderly(a.response)
    ensures var r := Received(greeting, 0, []);
      Replayed(r, Buffer(a.response)) == DeliverAll(r, a.response) && DeliverAll(r, a.response).status < 500
  {
    BufferingIsTransparent(Received(greeting, 0, []), a.response);
  }

  // ---- Breakers behind the proxy ---------------------------------------------------------

  /** One request as the breakers see it. */
  datatype Served = Served(backends: seq<LB.Backend>, script: seq<Encounter>, made: seq<Attempt>)

  ghost predicate Caused(r: Served, e: CB.Event, b: CB.CircuitBreaker) {
    && Timed(r.backends, TimesOf(r.script)) && |r.made| <= |r.script|
    && e in RequestEvents(r.backends, r.script, r.made, b)
  }

  lemma NeverFailure(r: Served, e: CB.Event, b: CB.CircuitBreaker)
    requires Caused(r, e, b)
    ensures !e.Failure?
  {
    AskedOnly(r.backends, TimesOf(r.script)[..|r.made|], b);
  }

  lemma NewIsClosed(c: CB.Config)
    ensures CB.ModeAfter(c, []).Closed?
  {}

  /** However requests interleave, the proxy never trips a breaker and no request is ever
      turned away by one: failed answers are reported to the retry loop only. */
  lemma ProxyNeverTrips(h: seq<CB.Event>, requests: seq<Served>, b: CB.CircuitBreaker, now: int)
    requires |requests| == |h| && forall i :: 0 <= i < |h| ==> Caused(requests[i], h[i], b)
    ensures CB.ModeAfter(b.config, h).Closed? && CB.Admits(b.config, h, now)
  {
    hide Caused, CB.ModeAfter;
    forall i | 0 <= i < |h| ensures !h[i].Failure? { NeverFailure(requests[i], h[i], b); }
    assert CB.ModeAfter(b.config, []).Closed? by { NewIsClosed(b.config); }
    LB.AsksKeepClosed(b.config, [], h);
    assert [] + h == h;
  }

  /** A request that finds the breakers of its route closed leaves them closed. */
  lemma RequestKeepsClosed(c: BP.Config, from: Origin, z: AllSizes, script: seq<Encounter>,
    selected: seq<Option<LB.Backend>>, made: seq<Attempt>)
    requires Follows(from, script) && |made| == |selected| <= |script| && LB.AllClosed(from.backends, from.past)
    ensures LB.AllClosed(from.backends, WithVerdict(StateAt(c, from, z, script, selected), made).past)
  {
    hide CB.ModeAfter, StateAt, WithVerdict;
    EventsOfRequest(c, from, z, script, selected, made);
    forall b | b in from.backends
      ensures CB.ModeAfter(
        b.breaker.config, from.past[b.breaker] + RequestEvents(from.backends, script, made, b.breaker)).Closed?
    {
      EventsKeepClosed(from.backends, script, made, b.breaker, from.past[b.breaker]);
    }
  }

  lemma EventsKeepClosed(
    backends: seq<LB.Backend>, script: seq<Encounter>, made: seq<Attempt>, b: CB.CircuitBreaker, h: seq<CB.Event>)
    requires Timed(backends, TimesOf(script)) && |made| <= |script| && CB.ModeAfter(b.config, h).Closed?
    ensures CB.ModeAfter(b.config, h + RequestEvents(backends, script, made, b)).Closed?
  {
    hide CB.ModeAfter;
    AskedOnly(backends, TimesOf(script)[..|made|], b);
    LB.AsksKeepClosed(b.config, h, RequestEvents(backends, script, made, b));
  }
}
