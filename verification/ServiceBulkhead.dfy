/** `ServiceBulkhead` (internal/gateway/bulkhead.go) as a class, one call at a time: its books,
    its contract with what others call while a request waits, and the proof that undisturbed
    calls are schedules of the interleaving protocol. */
module ServiceBulkhead {
  import opened Arithmetic
  import opened Wrappers
  import opened BulkheadProtocol
  import opened BulkheadSafety
  import opened BulkheadTheorems

  // ---- The books of a bulkhead -----------------------------------------------------------

  datatype Books<R> = Books(semaphore: nat, queue: seq<R>, activeCount: int, queuedCount: int)

  /** How many slots are taken and how many requests are queued. */
  datatype Sizes = Sizes(semaphore: nat, waiting: nat)

  function SizesOf<R>(b: Books<R>): Sizes { Sizes(b.semaphore, |b.queue|) }

  datatype Admission = Acquired | Queued | Full

  /** What TryAcquire decides before a queued request starts to wait. */
  function Decide(c: Config, z: Sizes): Admission {
    if z.semaphore < c.maxConcurrent then Acquired else if z.waiting < c.queueSize then Queued else Full
  }

  function AfterAcquire<R>(c: Config, b: Books<R>, r: R): Books<R> {
    match Decide(c, SizesOf(b))
    case Acquired => b.(semaphore := b.semaphore + 1, activeCount := b.activeCount + 1)
    case Queued => b.(queue := b.queue + [r], queuedCount := b.queuedCount + 1)
    case Full => b
  }

  /** Release passes its slot to the oldest queued request, or frees it. */
  function AfterRelease<R>(b: Books<R>): Books<R>
    requires b.semaphore > 0
  {
    if b.queue == [] then b.(semaphore := b.semaphore - 1, activeCount := b.activeCount - 1)
    else b.(queue := b.queue[1..], queuedCount := b.queuedCount - 1)
  }

  /** Nobody queues while a slot is free, and the counters tell the channel lengths. */
  ghost predicate Conserving<R>(c: Config, b: Books<R>) {
    && Busy(c, SizesOf(b))
    && b.activeCount == b.semaphore && b.queuedCount == |b.queue|
  }

  ghost predicate Busy(c: Config, z: Sizes) {
    && z.semaphore <= c.maxConcurrent && z.waiting <= c.queueSize
    && (z.waiting > 0 ==> z.semaphore == c.maxConcurrent)
  }

  // ---- What other requests do ------------------------------------------------------------

  datatype Call = TryAcquire | Release | Leave

  function SizesAfterRelease(z: Sizes): Sizes
    requires z.semaphore > 0
  {
    if z.waiting == 0 then z.(semaphore := z.semaphore - 1) else z.(waiting := z.waiting - 1)
  }

  /** One call by somebody else, while `kept` of the slots are not theirs to release. */
  function AfterCall(c: Config, z: Sizes, call: Call, kept: nat): Sizes {
    match call
    case TryAcquire =>
      (match Decide(c, z)
       case Acquired => z.(semaphore := z.semaphore + 1)
       case Queued => z.(waiting := z.waiting + 1)
       case Full => z)
    case Release => if z.semaphore > kept then SizesAfterRelease(z) else z
    case Leave => z
  }

  function AfterCalls(c: Config, z: Sizes, calls: seq<Call>, kept: nat): Sizes {
    if calls == [] then z else AfterCall(c, AfterCalls(c, z, calls[..|calls| - 1], kept), calls[|calls| - 1], kept)
  }

  /** A request in the queue with `ahead` others before it; or `served`, with its response. */
  datatype Line = Line(sizes: Sizes, ahead: nat, served: bool)

  /** One call by somebody else while the request waits: once served, its slot is its own. */
  function LineAfterCall(c: Config, l: Line, call: Call): Line {
    var handed := call.Release? && !l.served && l.sizes.semaphore > 0;
    Line(AfterCall(c, l.sizes, call, if l.served then 1 else 0),
         if handed && l.ahead > 0 then l.ahead - 1 else l.ahead,
         l.served || (handed && l.ahead == 0))
  }

  function LineAfter(c: Config, l: Line, calls: seq<Call>): Line {
    if calls == [] then l else LineAfterCall(c, LineAfter(c, l, calls[..|calls| - 1]), calls[|calls| - 1])
  }

  /** Which branch of the select at line 92 wins the race when several are ready. */
  datatype Winner = Response | Timeout | Cancellation

  datatype Reply = Nil | TimedOut | Cancelled | QueueFull

  /** How the wait ends; without a response the timer fires unless the caller cancels. */
  function WaitReply(l: Line, winner: Winner): Reply {
    if winner.Response? && l.served then Nil else if winner.Cancellation? then Cancelled else TimedOut
  }

  /** A whole TryAcquire call: its reply and the sizes after it, given what others do while it
      waits. */
  function Acquisition(c: Config, z: Sizes, others: seq<Call>, winner: Winner): (Reply, Sizes) {
    match Decide(c, z)
    case Acquired => (Nil, z.(semaphore := z.semaphore + 1))
    case Queued =>
      var l := LineAfter(c, Line(z.(waiting := z.waiting + 1), z.waiting, false), others);
      (WaitReply(l, winner), l.sizes)
    case Full => (QueueFull, z)
  }

  function Releases(calls: seq<Call>): nat {
    if calls == [] then 0 else Releases(calls[..|calls| - 1]) + if calls[|calls| - 1].Release? then 1 else 0
  }

  lemma {:induction false} LineClosedForm(c: Config, l: Line, calls: seq<Call>)
    requires Busy(c, l.sizes) && !l.served && l.ahead < l.sizes.waiting
    ensures var l' := LineAfter(c, l, calls);
      && Busy(c, l'.sizes)
      && (l'.served <==> c.maxConcurrent > 0 && Releases(calls) > l.ahead)
      && (l'.served ==> l'.sizes.semaphore > 0)
      && (!l'.served ==>
            && l'.ahead < l'.sizes.waiting
            && l'.ahead == l.ahead - if c.maxConcurrent > 0 then Releases(calls) else 0)
  {
    if calls != [] { LineClosedForm(c, l, calls[..|calls| - 1]); }
  }

  /** TryAcquire succeeds exactly when a slot is free, or there is room in the queue, the
      response wins the race, and more slots are released during the wait than requests were
      queued before; whatever else others do in the meantime. Each way to fail is exact as well. */
  lemma AcquiresIff(c: Config, z: Sizes, others: seq<Call>, winner: Winner)
    requires Busy(c, z)
    ensures var (reply, z') := Acquisition(c, z, others, winner);
      && Busy(c, z')
      && (reply.Nil? ==> z'.semaphore > 0)
      && (reply.Nil? <==>
            || z.semaphore < c.maxConcurrent
            || (z.waiting < c.queueSize && winner.Response? && c.maxConcurrent > 0 && Releases(others) > z.waiting))
      && (reply.QueueFull? <==> z.semaphore == c.maxConcurrent && z.waiting == c.queueSize)
      && (reply.Cancelled? <==> z.semaphore == c.maxConcurrent && z.waiting < c.queueSize && winner.Cancellation?)
      && (reply.TimedOut? <==>
            && z.semaphore == c.maxConcurrent && z.waiting < c.queueSize && !winner.Cancellation?
            && !(winner.Response? && c.maxConcurrent > 0 && Releases(others) > z.waiting))
  {
    if Decide(c, z) == Queued {
      LineClosedForm(c, Line(z.(waiting := z.waiting + 1), z.waiting, false), others);
    }
  }

  lemma {:induction false} OthersKeep(c: Config, z: Sizes, calls: seq<Call>, kept: nat)
    requires Busy(c, z) && z.semaphore >= kept
    ensures Busy(c, AfterCalls(c, z, calls, kept)) && AfterCalls(c, z, calls, kept).semaphore >= kept
  {
    if calls != [] { OthersKeep(c, z, calls[..|calls| - 1], kept); }
  }

  // ---- A bulkhead is a count -------------------------------------------------------------

  /** The requests that hold a slot or a place in the queue. */
  function Inside(z: Sizes): nat { z.semaphore + z.waiting }

  /** With `n` requests inside, as many as can have a slot and the others wait. */
  function Spread(c: Config, n: nat): Sizes {
    Sizes(Min(n, c.maxConcurrent), Max(n - c.maxConcurrent, 0))
  }

  lemma BusyIsSpread(c: Config, z: Sizes)
    ensures Busy(c, z) <==> z == Spread(c, Inside(z)) && Inside(z) <= c.maxConcurrent + c.queueSize
  {}

  lemma InsideTells(c: Config, z: Sizes)
    requires Busy(c, z)
    ensures z.semaphore < c.maxConcurrent <==> Inside(z) < c.maxConcurrent
    ensures z.semaphore == c.maxConcurrent ==> z.waiting == Inside(z) - c.maxConcurrent
    ensures z.semaphore <= c.maxConcurrent && z.waiting <= c.queueSize
  {}

  /** One call by somebody else: come in unless all places are taken, or go unless none of the
      slots is theirs. */
  function CountAfterCall(c: Config, n: nat, call: Call, kept: nat): nat {
    match call
    case TryAcquire => Min(n + 1, Max(n, c.maxConcurrent + c.queueSize))
    case Release => if Min(n, c.maxConcurrent) > kept then n - 1 else n
    case Leave => n
  }

  function CountAfter(c: Config, n: nat, calls: seq<Call>, kept: nat): nat {
    if calls == [] then n else CountAfterCall(c, CountAfter(c, n, calls[..|calls| - 1], kept), calls[|calls| - 1], kept)
  }

  /** The same while a request waits behind `ahead` others: its slot is its own once more slots
      were released than that. */
  function CountWhileWaiting(c: Config, n: nat, calls: seq<Call>, ahead: nat): nat {
    if calls == [] then n else
    var front := calls[..|calls| - 1];
    CountAfterCall(c, CountWhileWaiting(c, n, front, ahead), calls[|calls| - 1], Bit(Releases(front) > ahead))
  }

  lemma {:induction false} CallsCount(c: Config, z: Sizes, calls: seq<Call>, kept: nat)
    requires Busy(c, z)
    ensures Busy(c, AfterCalls(c, z, calls, kept))
    ensures Inside(AfterCalls(c, z, calls, kept)) == CountAfter(c, Inside(z), calls, kept)
  {
    if calls != [] { CallsCount(c, z, calls[..|calls| - 1], kept); }
  }

  lemma {:induction false} WaitCounts(c: Config, l: Line, calls: seq<Call>)
    requires Busy(c, l.sizes) && !l.served && l.ahead < l.sizes.waiting
    ensures Busy(c, LineAfter(c, l, calls).sizes)
    ensures Inside(LineAfter(c, l, calls).sizes) == CountWhileWaiting(c, Inside(l.sizes), calls, l.ahead)
  {
    if calls != [] {
      var front := calls[..|calls| - 1];
      WaitCounts(c, l, front);
      LineClosedForm(c, l, front);
      if c.maxConcurrent == 0 { NoSlotsNoCount(c, LineAfter(c, l, front).sizes, calls[|calls| - 1]); }
    }
  }

  lemma NoSlotsNoCount(c: Config, z: Sizes, call: Call)
    requires c.maxConcurrent == 0 && Busy(c, z)
    ensures AfterCall(c, z, call, 0) == AfterCall(c, z, call, 1)
  {}

  /** A call that comes in is one more inside, whether it gets a slot or a place in the queue. */
  lemma AcquisitionCounts(c: Config, z: Sizes, others: seq<Call>, winner: Winner)
    requires Busy(c, z)
    ensures Inside(Acquisition(c, z, others, winner).1) ==
      if z.semaphore < c.maxConcurrent then Inside(z) + 1
      else if z.waiting < c.queueSize then CountWhileWaiting(c, Inside(z) + 1, others, z.waiting)
      else Inside(z)
  {
    if Decide(c, z) == Queued { WaitCounts(c, Line(z.(waiting := z.waiting + 1), z.waiting, false), others); }
  }

  /** What others do is what the calls of the books do. */
  lemma CallsAreBooks<R>(c: Config, b: Books<R>, r: R, kept: nat)
    ensures AfterCall(c, SizesOf(b), TryAcquire, kept) == SizesOf(AfterAcquire(c, b, r))
    ensures b.semaphore > kept ==> AfterCall(c, SizesOf(b), Release, kept) == SizesOf(AfterRelease(b))
  {}

  // ---- The class -------------------------------------------------------------------------

  /** A queued request; `response` is the content of its channel of capacity 1. */
  class Request {
    var response: seq<bool>
    ghost const home: ServiceBulkhead  // where it queues

    constructor (ghost home: ServiceBulkhead)
      ensures response == [] && this.home == home
    {
      response := [];
      this.home := home;
    }
  }

  class ServiceBulkhead {
    const config: Config
    var semaphore: nat
    var queue: seq<Request>
    var activeCount: int
    var queuedCount: int

    ghost function Contents(): Books<Request>
      reads this
    {
      Books(semaphore, queue, activeCount, queuedCount)
    }

    ghost predicate Valid()
      reads this, queue
    {
      && Conserving(config, Contents())
      && (forall i, j :: 0 <= i < j < |queue| ==> queue[i] != queue[j])
      && (forall i :: 0 <= i < |queue| ==> queue[i].response == [] && queue[i].home == this)
    }

    constructor (config: Config)
      ensures Valid() && this.config == config
      ensures Contents() == Books(0, [], 0, 0)
    {
      this.config := config;
      semaphore, queue, activeCount, queuedCount := 0, [], 0, 0;
    }

    /** Takes a slot, or queues and waits while others make the calls in `others`. */
    method TryAcquire(others: seq<Call>, winner: Winner) returns (reply: Reply)
      requires Valid()
      modifies this, queue
      ensures Valid()
      ensures (reply, SizesOf(Contents())) == Acquisition(config, old(SizesOf(Contents())), others, winner)
      ensures Follows(old(queue), queue) && Served(old(queue))
      ensures forall r :: r in queue ==> r in old(queue) || fresh(r)
      ensures old(semaphore) < config.maxConcurrent ==>
        Contents() == old(Contents()).(semaphore := old(semaphore) + 1, activeCount := old(activeCount) + 1)
      ensures reply.QueueFull? ==> Contents() == old(Contents())
    {
      hide Follows;
      if semaphore < config.maxConcurrent {
        semaphore := semaphore + 1;
        activeCount := activeCount + 1;
        FollowsSelf(queue);
        return Nil;
      }
      reply := TryQueue(others, winner);
    }

    method TryQueue(others: seq<Call>, winner: Winner) returns (reply: Reply)
      requires Valid() && semaphore == config.maxConcurrent
      modifies this, queue
      ensures Valid()
      ensures (reply, SizesOf(Contents())) == Acquisition(config, old(SizesOf(Contents())), others, winner)
      ensures Follows(old(queue), queue) && Served(old(queue))
      ensures forall r :: r in queue ==> r in old(queue) || fresh(r)
      ensures reply.QueueFull? ==> Contents() == old(Contents())
    {
      hide Follows;
      FollowsSelf(queue);
      if |queue| == config.queueSize {
        return QueueFull;
      }
      var req := new Request(this);
      Enqueue(req);
      reply := Await(req, others, winner);
      FollowsButLast(old(queue), req, queue);
    }

    method Enqueue(req: Request)
      requires Valid() && semaphore == config.maxConcurrent && |queue| < config.queueSize
      requires req !in queue && req.response == [] && req.home == this
      modifies this
      ensures Valid() && Contents() == AfterAcquire(config, old(Contents()), req)
    {
      queue := queue + [req];
      queuedCount := queuedCount + 1;
    }

    /** The wait at line 92 of the request last in the queue. */
    method Await(req: Request, others: seq<Call>, winner: Winner) returns (reply: Reply)
      requires Valid() && queue != [] && queue[|queue| - 1] == req
      modifies this, queue
      ensures Valid()
      ensures var l := LineAfter(config, Line(old(SizesOf(Contents())), |old(queue)| - 1, false), others);
        reply == WaitReply(l, winner) && SizesOf(Contents()) == l.sizes
      ensures reply.Cancelled? <==> winner.Cancellation?
      ensures Follows(old(queue), queue) && forall r :: r in queue ==> r in old(queue) || fresh(r)
      ensures forall r :: r in old(queue) && r != req ==> r.response == if r in queue then [] else [true]
    {
      hide Follows;
      ghost var start, l := queue, Line(SizesOf(Contents()), |queue| - 1, false);
      FollowsSelf(queue);
      for i := 0 to |others|
        invariant Valid() && InLine(req, l)
        invariant l == LineAfter(config, Line(old(SizesOf(Contents())), |start| - 1, false), others[..i])
        invariant Follows(start, queue) && Served(start) && forall r :: r in queue ==> r in start || fresh(r)
      {
        hide LineAfterCall, InLine;
        ghost var before := queue;
        ServeWaiting(req, l, others[i]);
        l := LineAfterCall(config, l, others[i]);
        FollowsAfter(start, before, queue);
        assert others[..i + 1][..i] == others[..i];
      }
      assert others[..|others|] == others;
      if winner.Response? && |req.response| > 0 {
        req.response := req.response[1..];
        return Nil;
      }
      reply := if winner.Cancellation? then Cancelled else TimedOut;
    }

    /** Called by a slot holder, so the semaphore is not empty. The slot taken back for a
        queued request is the one just given up, so the second send does not block either. */
    method Release()
      requires Valid() && semaphore > 0
      modifies this, queue
      ensures Valid()
      ensures Contents() == AfterRelease(old(Contents()))
      ensures Served(old(queue))
    {
      semaphore := semaphore - 1;
      activeCount := activeCount - 1;
      if |queue| > 0 {
        var req := queue[0];
        queue := queue[1..];
        semaphore := semaphore + 1;
        activeCount := activeCount + 1;
        queuedCount := queuedCount - 1;
        req.response := req.response + [true];
      }
    }

    /** Of these requests exactly those no longer queued were sent a response, exactly one. */
    ghost predicate Served(requests: seq<Request>)
      reads this, requests
    {
      forall r :: r in requests ==> r.response == if r in queue then [] else [true]
    }

    /** A waiting request stands in the queue as `l` says, or has been served. */
    ghost predicate InLine(req: Request, l: Line)
      reads this, req
    {
      && SizesOf(Contents()) == l.sizes
      && if l.served then req !in queue && req.response == [true] && semaphore > 0
         else l.ahead < |queue| && queue[l.ahead] == req
    }

    /** One call by another request while `req` waits. */
    method ServeWaiting(req: Request, ghost l: Line, call: Call)
      requires Valid() && InLine(req, l)
      modifies this, queue
      ensures Valid() && InLine(req, LineAfterCall(config, l, call))
      ensures Served(old(queue))
      ensures forall r :: r in queue ==> r in old(queue) || fresh(r)
      ensures (old(queue) <= queue && forall i :: |old(queue)| <= i < |queue| ==> fresh(queue[i]))
              || (old(queue) != [] && queue == old(queue)[1..])
    {
      Serve(call, |req.response|);
    }

    /** One call by another request, up to the point where it would wait. */
    method Serve(call: Call, kept: nat)
      requires Valid()
      modifies this, queue
      ensures Valid()
      ensures SizesOf(Contents()) == AfterCall(config, old(SizesOf(Contents())), call, kept)
      ensures Served(old(queue))
      ensures call.Release? && old(semaphore) > kept && old(queue) != [] ==> queue == old(queue)[1..]
      ensures !(call.Release? && old(semaphore) > kept && old(queue) != []) ==>
        old(queue) <= queue && forall i :: |old(queue)| <= i < |queue| ==> fresh(queue[i])
      ensures forall r :: r in queue ==> r in old(queue) || fresh(r)
    {
      match call {
        case TryAcquire =>
          if semaphore < config.maxConcurrent {
            semaphore := semaphore + 1;
            activeCount := activeCount + 1;
          } else if |queue| < config.queueSize {
            var req := new Request(this);
            Enqueue(req);
          }
        case Release =>
          if semaphore > kept {
            this.Release();
          }
        case Leave =>
      }
    }

    /** Calls by other requests, while `kept` of the slots are not theirs. */
    method ServeAll(calls: seq<Call>, kept: nat)
      requires Valid()
      modifies this, queue
      ensures Valid()
      ensures SizesOf(Contents()) == AfterCalls(config, old(SizesOf(Contents())), calls, kept)
      ensures Follows(old(queue), queue) && Served(old(queue))
      ensures forall r :: r in queue ==> r in old(queue) || fresh(r)
      ensures calls == [] ==> Contents() == old(Contents())
    {
      FollowsSelf(queue);
      for i := 0 to |calls|
        invariant Valid() && SizesOf(Contents()) == AfterCalls(config, old(SizesOf(Contents())), calls[..i], kept)
        invariant Follows(old(queue), queue) && Served(old(queue))
        invariant forall r :: r in queue ==> r in old(queue) || fresh(r)
        invariant i == 0 ==> Contents() == old(Contents())
      {
        ghost var before := queue;
        Serve(calls[i], kept);
        FollowsAfter(old(queue), before, queue);
        assert calls[..i + 1][..i] == calls[..i];
      }
      assert calls[..|calls|] == calls;
    }
  }

  // ---- First in, first out ---------------------------------------------------------------

  /** `now` is `earlier` with requests taken from the front and others added at the back. */
  ghost predicate Follows<R>(earlier: seq<R>, now: seq<R>) {
    exists kept: nat :: KeepsLast(earlier, now, kept)
  }

  ghost predicate KeepsLast<R>(earlier: seq<R>, now: seq<R>, kept: nat) {
    && kept <= |earlier| && kept <= |now|
    && now[..kept] == earlier[|earlier| - kept..]
    && forall i :: kept <= i < |now| ==> now[i] !in earlier
  }

  lemma FollowsSelf<R>(q: seq<R>)
    ensures Follows(q, q)
  {
    assert KeepsLast(q, q, |q|);
  }

  lemma FollowsAfter<R>(earlier: seq<R>, q: seq<R>, now: seq<R>)
    requires Follows(earlier, q)
    requires (q <= now && forall i :: |q| <= i < |now| ==> now[i] !in earlier) || (q != [] && now == q[1..])
    ensures Follows(earlier, now)
  {
    var kept: nat :| KeepsLast(earlier, q, kept);
    if q <= now {
      assert KeepsLast(earlier, now, kept);
    } else if kept == 0 {
      assert KeepsLast(earlier, now, 0);
    } else {
      assert now[..kept - 1] == q[..kept][1..];
      assert KeepsLast(earlier, now, kept - 1);
    }
  }

  lemma FollowsButLast<R>(earlier: seq<R>, r: R, now: seq<R>)
    requires Follows(earlier + [r], now) && r !in earlier
    ensures Follows(earlier, now)
  {
    var kept: nat :| KeepsLast(earlier + [r], now, kept);
    if kept == 0 {
      assert KeepsLast(earlier, now, 0);
    } else {
      assert now[..kept - 1] == now[..kept][..kept - 1];
      assert now[kept - 1] == now[..kept][kept - 1];
      assert KeepsLast(earlier, now, kept - 1);
    }
  }

  // ---- Every sequence of calls -----------------------------------------------------------

  /** The books after a sequence of calls, with the n-th request to queue named n; `granted`
      lists the requests that were handed a slot. None when a Release had nothing to release. */
  function Drive(c: Config, calls: seq<Call>): Option<(Books<nat>, nat, seq<nat>)> {
    if calls == [] then Some((Books(0, [], 0, 0), 0, [])) else
    match Drive(c, calls[..|calls| - 1])
    case None => None
    case Some((b, next, granted)) =>
      match calls[|calls| - 1]
      case Leave => Some((b, next, granted))
      case TryAcquire =>
        Some((AfterAcquire(c, b, next), if Decide(c, SizesOf(b)) == Queued then next + 1 else next, granted))
      case Release =>
        if b.semaphore == 0 then None
        else Some((AfterRelease(b), next, if b.queue == [] then granted else granted + [b.queue[0]]))
  }

  /** Over every sequence of calls, with requests leaving at will: no request queues while a
      slot is free, the counters are exact, and slots are handed out in queueing order. */
  lemma {:induction false} EveryCallSequenceConserves(c: Config, calls: seq<Call>)
    requires Drive(c, calls).Some?
    ensures var (b, next, granted) := Drive(c, calls).value;
      && Conserving(c, b)
      && |granted| + |b.queue| == next
      && forall i :: 0 <= i < next ==> (granted + b.queue)[i] == i
  {
    if calls != [] {
      EveryCallSequenceConserves(c, calls[..|calls| - 1]);
      var (b, next, granted) := Drive(c, calls[..|calls| - 1]).value;
      var (b', next', granted') := Drive(c, calls).value;
      assert granted' + b'.queue == if next' == next then granted + b.queue else granted + b.queue + [next];
    }
  }

  // ---- Calls as schedules ----------------------------------------------------------------

  function BooksOf(s: State): Books<nat> {
    Books(s.semaphore, s.queue, s.activeCount, s.queuedCount)
  }

  /** Thread `i` runs `k` steps with nobody else moving. */
  function Alone(c: Config, s: State, i: nat, k: nat): Option<State> {
    if k == 0 then Some(s)
    else match Alone(c, s, i, k - 1)
      case Some(t) => if Enabled(c, t, Step(i)) then Some(Apply(c, t, Step(i))) else None
      case None => None
  }

  lemma {:induction false} AloneIsARun(c: Config, s: State, i: nat, k: nat)
    ensures Alone(c, s, i, k) == Exec(c, s, seq(k, _ => Step(i)))
  {
    if k > 0 {
      AloneIsARun(c, s, i, k - 1);
      assert seq(k, _ => Step(i))[..k - 1] == seq(k - 1, _ => Step(i));
    }
  }

  /** One more step of the same thread. */
  lemma Onward(c: Config, s: State, i: nat, k: nat, t: State) returns (u: State)
    requires Alone(c, s, i, k) == Some(t) && Enabled(c, t, Step(i))
    ensures u == Apply(c, t, Step(i)) && Alone(c, s, i, k + 1) == Some(u)
  {
    u := Apply(c, t, Step(i));
  }

  /** TryAcquire of the class is the undisturbed run of the protocol's acquire path. */
  lemma AcquireIsASchedule(c: Config, s: State, i: nat) returns (k: nat, t: State)
    requires i < |s.threads| && s.threads[i].pc.Idle?
    ensures Alone(c, s, i, k) == Some(t)
    ensures BooksOf(t) == AfterAcquire(c, BooksOf(s), i)
    ensures |t.threads| == |s.threads|
    ensures t.threads[i].pc == match Decide(c, SizesOf(BooksOf(s)))
                               case Acquired => Holding
                               case Queued => Waiting
                               case Full => Rejected
  {
    t := Onward(c, s, i, 0, s);
    t := Onward(c, s, i, 1, t);
    k := 2;
    if Decide(c, SizesOf(BooksOf(s))) == Queued {
      t := Onward(c, s, i, 2, t);
      k := 3;
    }
  }

  /** Release of the class is the undisturbed run of the protocol's release path, whose two
      blocking sends then never block; the oldest queued request finds its response. */
  lemma ReleaseIsASchedule(c: Config, s: State, i: nat) returns (k: nat, t: State)
    requires Reachable(c, s) && i < |s.threads| && s.threads[i].pc.Holding?
    ensures Alone(c, s, i, k) == Some(t)
    ensures s.semaphore > 0 && BooksOf(t) == AfterRelease(BooksOf(s))
    ensures |t.threads| == |s.threads| && t.threads[i].pc == Done
    ensures s.queue != [] ==> s.queue[0] < |s.threads| && t.threads[s.queue[0]].inbox == 1
  {
    hide Exec, ThreadOk, OnePlace, Ledgers;
    assert Alone(c, s, i, 0) == Some(s);
    NeverBlocked(c, s, i);
    t := Onward(c, s, i, 0, s);
    t := Onward(c, s, i, 1, t);
    t := Onward(c, s, i, 2, t);
    k := 3;
    if s.queue != [] {
      ReachableInv(c, s);
      HeadWaits(c, s, i);
      t := Resends(c, s, i, t);
      k := 5;
      t := Onward(c, s, i, 5, t);
      k := 6;
    }
  }

  lemma Resends(c: Config, s: State, i: nat, t: State) returns (u: State)
    requires Alone(c, s, i, 3) == Some(t) && i < |t.threads| && t.threads[i].pc.Delivering? &&
      t.semaphore < c.maxConcurrent
    ensures Alone(c, s, i, 5) == Some(u)
    ensures u == t.(semaphore := t.semaphore + 1, activeCount := t.activeCount + 1, queuedCount := t.queuedCount - 1,
                    threads := t.threads[i := t.threads[i].(pc := Replying(t.threads[i].pc.req))])
  {
    u := Onward(c, s, i, 3, t);
    u := Onward(c, s, i, 4, u);
  }

  lemma HeadWaits(c: Config, s: State, i: nat)
    requires Inv(c, s) && s.queue != [] && i < |s.threads| && s.threads[i].pc.Holding?
    ensures s.queue[0] < |s.threads| && s.queue[0] != i && s.threads[s.queue[0]].inbox == 0
  {
    QueuedExist(c, s);
    assert s.queue[0] in s.queue;
    assert OnePlace(s, s.queue[0]) && ThreadOk(s.threads[s.queue[0]], |s.threads|);
  }
}
