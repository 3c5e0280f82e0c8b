/** All requests of the gateway at once (internal/gateway/proxy.go:34-40 and 87-105): every
    backend URL has one bulkhead shared by all routes, and every least-connections balancer
    counts its own requests per URL. */
module Isolation {
  import opened Arithmetic
  import opened Wrappers
  import opened BulkheadProtocol
  import opened BulkheadSafety
  import opened BulkheadTheorems
  import opened LoadBalancer

  /** What a thread that holds a slot does with it. Deferred calls run in reverse order, so the
      connection is uncounted before the slot is released. */
  datatype Stage =
    | Fresh       // slot not used yet; next: IncrementConnections (line 99)
    | Counted     // next: enter executeRequest (line 105)
    | Executing   // inside executeRequest
    | Returned    // next: DecrementConnections (line 100, deferred)
    | Uncounted   // next: Release (line 95, deferred)

  /** One attempt at this backend: the pattern whose balancer chose it, and whether that is a
      least-connections balancer. */
  datatype Job = Job(pattern: string, counted: bool, stage: Stage)

  /** One backend URL. Thread i of the bulkhead carries out job i; `connections` maps a pattern
      to what the balancer of that pattern counts for this URL. */
  datatype Site = Site(bulkhead: State, jobs: seq<Job>, connections: map<string, int>)

  datatype Move = InBulkhead(action: Action) | Advance(tid: nat)

  predicate CanMove(c: Config, s: Site, m: Move) {
    |s.jobs| == |s.bulkhead.threads| &&
    match m
    case InBulkhead(a) =>
      Enabled(c, s.bulkhead, a) && (s.bulkhead.threads[a.tid].pc.Holding? ==> s.jobs[a.tid].stage.Uncounted?)
    case Advance(i) => i < |s.jobs| && s.bulkhead.threads[i].pc.Holding? && !s.jobs[i].stage.Uncounted?
  }

  function MoveSite(c: Config, s: Site, m: Move): Site
    requires CanMove(c, s, m)
  {
    match m
    case InBulkhead(a) => s.(bulkhead := Apply(c, s.bulkhead, a))
    case Advance(i) =>
      var j := s.jobs[i];
      match j.stage
      case Fresh =>
        s.(jobs := s.jobs[i := j.(stage := Counted)],
           connections := if j.counted then Incremented(s.connections, j.pattern) else s.connections)
      case Counted => s.(jobs := s.jobs[i := j.(stage := Executing)])
      case Executing => s.(jobs := s.jobs[i := j.(stage := Returned)])
      case Returned =>
        s.(jobs := s.jobs[i := j.(stage := Uncounted)],
           connections := if j.counted then Decremented(s.connections, j.pattern) else s.connections)
      case Uncounted => s
  }

  // ---- Counting jobs ---------------------------------------------------------------------

  predicate Running(j: Job) { j.stage.Executing? }

  predicate InFlight(j: Job, pattern: string) {
    j.counted && j.pattern == pattern && (j.stage.Counted? || j.stage.Executing? || j.stage.Returned?)
  }

  function CountRunning(jobs: seq<Job>): nat {
    if jobs == [] then 0 else CountRunning(jobs[..|jobs| - 1]) + Bit(Running(jobs[|jobs| - 1]))
  }

  function CountInFlight(jobs: seq<Job>, pattern: string): nat {
    if jobs == [] then 0 else CountInFlight(jobs[..|jobs| - 1], pattern) + Bit(InFlight(jobs[|jobs| - 1], pattern))
  }

  lemma {:induction false} InFlightUpdate(jobs: seq<Job>, i: nat, j: Job, pattern: string)
    requires i < |jobs|
    ensures CountInFlight(jobs[i := j], pattern) ==
            CountInFlight(jobs, pattern) - Bit(InFlight(jobs[i], pattern)) + Bit(InFlight(j, pattern))
  {
    var n := |jobs| - 1;
    if i == n {
      assert jobs[i := j][..n] == jobs[..n];
    } else {
      assert jobs[i := j][..n] == jobs[..n][i := j];
      InFlightUpdate(jobs[..n], i, j, pattern);
    }
  }

  // ---- The invariant ---------------------------------------------------------------------

  ghost predicate JobOk(t: Thread, j: Job) {
    match t.pc
    case Holding => true
    case Idle => j.stage.Fresh?
    case Admitted => j.stage.Fresh?
    case Overflow => j.stage.Fresh?
    case Enqueued => j.stage.Fresh?
    case Waiting => j.stage.Fresh?
    case Rejected => j.stage.Fresh?
    case GaveUp => j.stage.Fresh?
    case _ => j.stage.Uncounted?
  }

  ghost predicate SiteInv(c: Config, s: Site) {
    && Inv(c, s.bulkhead)
    && |s.jobs| == |s.bulkhead.threads|
    && (forall i :: 0 <= i < |s.jobs| ==> JobOk(s.bulkhead.threads[i], s.jobs[i]))
    && (forall p :: Load(s.connections, p) == CountInFlight(s.jobs, p))
  }

  lemma BulkheadMoveKeepsJobs(c: Config, s: Site, a: Action)
    requires SiteInv(c, s) && CanMove(c, s, InBulkhead(a))
    ensures SiteInv(c, MoveSite(c, s, InBulkhead(a)))
  {
    StepInv(c, s.bulkhead, a);
    StepReady(c, s.bulkhead, a);
    StepMoves(c, s.bulkhead, a);
    StepRank(c, s.bulkhead, a);
    ActorOk(c, s, a);
  }

  lemma ActorOk(c: Config, s: Site, a: Action)
    requires CanMove(c, s, InBulkhead(a)) && Ready(c, s.bulkhead, a) && JobOk(s.bulkhead.threads[a.tid], s.jobs[a.tid])
    ensures JobOk(Apply(c, s.bulkhead, a).threads[a.tid], s.jobs[a.tid])
  {}

  lemma AdvanceKeepsCounts(c: Config, s: Site, i: nat)
    requires SiteInv(c, s) && CanMove(c, s, Advance(i))
    ensures SiteInv(c, MoveSite(c, s, Advance(i)))
  {
    hide Inv;
    var s' := MoveSite(c, s, Advance(i));
    forall p ensures Load(s'.connections, p) == CountInFlight(s'.jobs, p) {
      InFlightUpdate(s.jobs, i, s'.jobs[i], p);
      SomeInFlight(s.jobs, i, s.jobs[i].pattern);
    }
  }

  lemma {:induction false} SomeInFlight(jobs: seq<Job>, i: nat, pattern: string)
    requires i < |jobs|
    ensures InFlight(jobs[i], pattern) ==> CountInFlight(jobs, pattern) > 0
  {
    if i < |jobs| - 1 { SomeInFlight(jobs[..|jobs| - 1], i, pattern); }
  }

  lemma MoveInv(c: Config, s: Site, m: Move)
    requires SiteInv(c, s) && CanMove(c, s, m)
    ensures SiteInv(c, MoveSite(c, s, m))
  {
    match m
    case InBulkhead(a) => BulkheadMoveKeepsJobs(c, s, a);
    case Advance(i) => AdvanceKeepsCounts(c, s, i);
  }

  // ---- The whole gateway -----------------------------------------------------------------

  type Gateway = map<string, Site>

  /** Every URL starts with an idle bulkhead, whatever requests are going to come. */
  ghost predicate Starting(g: Gateway) {
    forall u :: u in g ==>
      && g[u].bulkhead == Init(|g[u].jobs|) && g[u].connections == map[]
      && forall i :: 0 <= i < |g[u].jobs| ==> g[u].jobs[i].stage.Fresh?
  }

  /** The gateway after a schedule of moves at its URLs; None if a move was not possible. */
  function ExecAll(c: Config, g: Gateway, trace: seq<(string, Move)>): Option<Gateway> {
    if trace == [] then Some(g) else
    match ExecAll(c, g, trace[..|trace| - 1])
    case None => None
    case Some(h) =>
      var (u, m) := trace[|trace| - 1];
      if u in h && CanMove(c, h[u], m) then Some(h[u := MoveSite(c, h[u], m)]) else None
  }

  lemma {:induction false} NobodyInFlight(jobs: seq<Job>, pattern: string)
    requires forall i :: 0 <= i < |jobs| ==> jobs[i].stage.Fresh?
    ensures CountInFlight(jobs, pattern) == 0
  {
    if jobs != [] { NobodyInFlight(jobs[..|jobs| - 1], pattern); }
  }

  lemma {:induction false} GatewayInv(c: Config, g: Gateway, trace: seq<(string, Move)>)
    requires Starting(g) && ExecAll(c, g, trace).Some?
    ensures forall u :: u in ExecAll(c, g, trace).value ==> SiteInv(c, ExecAll(c, g, trace).value[u])
  {
    if trace == [] {
      forall u | u in g ensures SiteInv(c, g[u]) {
        InitInv(c, |g[u].jobs|);
        forall p ensures CountInFlight(g[u].jobs, p) == 0 { NobodyInFlight(g[u].jobs, p); }
      }
    } else {
      var prefix := trace[..|trace| - 1];
      GatewayInv(c, g, prefix);
      var (u, m) := trace[|trace| - 1];
      MoveInv(c, ExecAll(c, g, prefix).value[u], m);
    }
  }

  // ---- Isolation -------------------------------------------------------------------------

  lemma {:induction false} BusyHold(ts: seq<Thread>, jobs: seq<Job>, pattern: string)
    requires |ts| == |jobs| && forall i :: 0 <= i < |jobs| ==> JobOk(ts[i], jobs[i])
    ensures CountRunning(jobs) <= Count(ts, Live) && CountInFlight(jobs, pattern) <= Count(ts, Live)
  {
    if jobs != [] {
      var n := |jobs| - 1;
      BusyHold(ts[..n], jobs[..n], pattern);
      assert JobOk(ts[n], jobs[n]);
    }
  }

  /** Under every interleaving of every route's requests, the requests inside executeRequest
      for one URL never exceed that URL's limit, less the slots lost there. */
  lemma BackendsAreIsolated(c: Config, g: Gateway, trace: seq<(string, Move)>, url: string)
    requires Starting(g) && ExecAll(c, g, trace).Some? && url in ExecAll(c, g, trace).value
    ensures var s := ExecAll(c, g, trace).value[url];
      CountRunning(s.jobs) + Count(s.bulkhead.threads, Abandoned) <= c.maxConcurrent
  {
    GatewayInv(c, g, trace);
    var s := ExecAll(c, g, trace).value[url];
    OwnersSplit(s.bulkhead.threads);
    BusyHold(s.bulkhead.threads, s.jobs, "");
  }

  /** A least-connections balancer's count for a URL is exactly its requests between increment
      and decrement, so it stays between zero and the URL's limit, and the guard of the
      decrement is never needed. */
  lemma ConnectionsAreExact(c: Config, g: Gateway, trace: seq<(string, Move)>, url: string, pattern: string)
    requires Starting(g) && ExecAll(c, g, trace).Some? && url in ExecAll(c, g, trace).value
    ensures var s := ExecAll(c, g, trace).value[url];
      && Load(s.connections, pattern) == CountInFlight(s.jobs, pattern)
      && 0 <= Load(s.connections, pattern) <= c.maxConcurrent
      && forall i :: 0 <= i < |s.jobs| && s.jobs[i].counted && s.jobs[i].stage.Returned? ==>
         Load(s.connections, s.jobs[i].pattern) > 0
  {
    GatewayInv(c, g, trace);
    var s := ExecAll(c, g, trace).value[url];
    OwnersSplit(s.bulkhead.threads);
    BusyHold(s.bulkhead.threads, s.jobs, pattern);
    forall i | 0 <= i < |s.jobs| && s.jobs[i].counted && s.jobs[i].stage.Returned?
      ensures Load(s.connections, s.jobs[i].pattern) > 0
    {
      SomeInFlight(s.jobs, i, s.jobs[i].pattern);
    }
  }

  // ---- One attempt as a schedule ---------------------------------------------------------

  /** The site of `url` makes one more move. */
  lemma MoveOn(c: Config, g: Gateway, trace: seq<(string, Move)>, url: string, s: Site, m: Move)
    returns (more: seq<(string, Move)>, t: Site)
    requires url in g && ExecAll(c, g, trace) == Some(g[url := s]) && CanMove(c, s, m)
    ensures t == MoveSite(c, s, m) && ExecAll(c, g, more) == Some(g[url := t])
  {
    more, t := trace + [(url, m)], MoveSite(c, s, m);
    assert more[..|trace|] == trace && g[url := s][url := t] == g[url := t];
  }

  lemma AcquireMoves(c: Config, g: Gateway, url: string, i: nat) returns (trace: seq<(string, Move)>, s: Site)
    requires url in g && i < |g[url].jobs| == |g[url].bulkhead.threads|
    requires g[url].bulkhead.threads[i].pc.Idle? && g[url].bulkhead.semaphore < c.maxConcurrent
    ensures ExecAll(c, g, trace) == Some(g[url := s])
    ensures var b := g[url].bulkhead;
      s == g[url].(bulkhead := Goto(b, i, Holding).(semaphore := b.semaphore + 1, activeCount := b.activeCount + 1))
  {
    trace, s := [], g[url];
    assert g[url := s] == g;
    trace, s := MoveOn(c, g, trace, url, s, InBulkhead(Step(i)));
    trace, s := MoveOn(c, g, trace, url, s, InBulkhead(Step(i)));
  }

  lemma CallMoves(c: Config, g: Gateway, trace: seq<(string, Move)>, url: string, s: Site, i: nat)
    returns (more: seq<(string, Move)>, t: Site)
    requires url in g && ExecAll(c, g, trace) == Some(g[url := s]) && i < |s.jobs| == |s.bulkhead.threads|
    requires s.bulkhead.threads[i].pc.Holding? && s.jobs[i].stage.Fresh?
    ensures ExecAll(c, g, more) == Some(g[url := t])
    ensures var j := s.jobs[i];
      t == s.(jobs := s.jobs[i := j.(stage := Uncounted)],
              connections := if j.counted
                             then Decremented(Incremented(s.connections, j.pattern), j.pattern)
                             else s.connections)
  {
    more, t := MoveOn(c, g, trace, url, s, Advance(i));
    more, t := MoveOn(c, g, more, url, t, Advance(i));
    more, t := MoveOn(c, g, more, url, t, Advance(i));
    more, t := MoveOn(c, g, more, url, t, Advance(i));
  }

  lemma ReleaseMoves(c: Config, g: Gateway, trace: seq<(string, Move)>, url: string, s: Site, i: nat)
    returns (more: seq<(string, Move)>, t: Site)
    requires url in g && ExecAll(c, g, trace) == Some(g[url := s]) && i < |s.jobs| == |s.bulkhead.threads|
    requires s.bulkhead.threads[i].pc.Holding? && s.jobs[i].stage.Uncounted?
    requires s.bulkhead.semaphore > 0 && s.bulkhead.queue == []
    ensures ExecAll(c, g, more) == Some(g[url := t])
    ensures var b := s.bulkhead;
      t == s.(bulkhead := Goto(b, i, Done).(semaphore := b.semaphore - 1, activeCount := b.activeCount - 1))
  {
    more, t := MoveOn(c, g, trace, url, s, InBulkhead(Step(i)));
    more, t := MoveOn(c, g, more, url, t, InBulkhead(Step(i)));
    more, t := MoveOn(c, g, more, url, t, InBulkhead(Step(i)));
  }

  /** An attempt that nothing disturbs, as `Proxy.Exchange` makes it, is a schedule of these
      moves, and gives back the slot and the count. */
  lemma AttemptIsASchedule(c: Config, g: Gateway, url: string, i: nat) returns (trace: seq<(string, Move)>, t: Site)
    requires url in g && SiteInv(c, g[url]) && i < |g[url].jobs|
    requires g[url].bulkhead.threads[i].pc.Idle? && g[url].bulkhead.semaphore < c.maxConcurrent &&
      g[url].bulkhead.queue == []
    ensures ExecAll(c, g, trace) == Some(g[url := t])
    ensures t.bulkhead == Goto(g[url].bulkhead, i, Done) &&
      t.jobs == g[url].jobs[i := g[url].jobs[i].(stage := Uncounted)]
    ensures forall p :: Load(t.connections, p) == Load(g[url].connections, p)
  {
    hide Inv;
    var s;
    assert JobOk(g[url].bulkhead.threads[i], g[url].jobs[i]);
    trace, s := AcquireMoves(c, g, url, i);
    trace, t := CallMoves(c, g, trace, url, s, i);
    trace, t := ReleaseMoves(c, g, trace, url, t, i);
    assert forall p :: Load(g[url].connections, p) >= 0;
  }
}
