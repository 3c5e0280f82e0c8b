/** What every interleaving of the bulkhead protocol keeps, proved over all runs. */
module BulkheadSafety {
  import opened Arithmetic
  import opened Wrappers
  import opened BulkheadProtocol

  // ---- The invariant ---------------------------------------------------------------------

  ghost predicate ThreadOk(t: Thread, n: nat) {
    && (t.pc.Delivering? || t.pc.Resent? || t.pc.Replying? ==> t.pc.req < n)
    && match t.pc
       case Idle => t == FRESH
       case Admitted => t == Thread(Admitted, 0, false, 0)
       case Overflow => t == Thread(Overflow, 0, false, 0)
       case Rejected => t == Thread(Rejected, 0, false, 0)
       case Enqueued => t.entered && t.inbox == t.grants
       case Waiting => t.entered && t.inbox == t.grants
       case GaveUp => t.entered && t.inbox == t.grants
       case _ => t.inbox == 0 && t.grants == Bit(t.entered)
  }

  ghost predicate Shape(c: Config, s: State) {
    && s.semaphore <= c.maxConcurrent
    && |s.queue| <= c.queueSize
    && s.arrivals == s.served + s.queue
    && (forall i :: 0 <= i < |s.arrivals| ==> s.arrivals[i] < |s.threads|)
    && (forall i :: 0 <= i < |s.threads| ==> ThreadOk(s.threads[i], |s.threads|))
  }

  ghost predicate Ledgers(s: State) {
    && s.semaphore == Count(s.threads, Owner)
    && s.semaphore == s.activeCount + Count(s.threads, At(Admitted))
       + Count(s.threads, Resending) - Count(s.threads, At(Draining))
    && |s.queue| == s.queuedCount + Count(s.threads, At(Enqueued)) - Count(s.threads, Dequeued)
  }

  /** Each request that entered the queue is in exactly one place: still queued, on its way
      with one releaser, or told. */
  ghost predicate OnePlace(s: State, r: nat)
    requires r < |s.threads|
  {
    && multiset(s.queue)[r] + Count(s.threads, Carrier(r)) + s.threads[r].grants == Bit(s.threads[r].entered)
    && multiset(s.arrivals)[r] == Bit(s.threads[r].entered)
  }

  ghost predicate Inv(c: Config, s: State) {
    && Shape(c, s)
    && Ledgers(s)
    && forall r: nat :: r < |s.threads| ==> OnePlace(s, r)
  }

  // ---- Preservation ----------------------------------------------------------------------

  lemma {:induction false} CountFresh(ts: seq<Thread>, m: Mark)
    requires forall i :: 0 <= i < |ts| ==> ts[i] == FRESH
    requires m != At(Idle)
    ensures Count(ts, m) == 0
  {
    if ts != [] { CountFresh(ts[..|ts| - 1], m); }
  }

  lemma InitInv(c: Config, n: nat)
    ensures Inv(c, Init(n))
  {
    forall m | m != At(Idle) ensures Count(Init(n).threads, m) == 0 { CountFresh(Init(n).threads, m); }
  }

  lemma QueueHead(q: seq<nat>)
    requires |q| > 0
    ensures multiset(q) == multiset(q[1..]) + multiset{q[0]}
  {
    assert q == [q[0]] + q[1..];
  }

  /** The second thread a step touches: the request being told, else the acting thread itself. */
  ghost function Target(s: State, a: Action): nat
    requires a.tid < |s.threads|
  {
    if a.Step? && s.threads[a.tid].pc.Replying? then s.threads[a.tid].pc.req else a.tid
  }

  /** All a step needs to know of the invariant: who acts, and that a request about to be
      told is another thread that has not been told yet. */
  ghost predicate Ready(c: Config, s: State, a: Action) {
    && Enabled(c, s, a)
    && ThreadOk(s.threads[a.tid], |s.threads|) && s.threads[a.tid].grants <= 1
    && (a.Step? && s.threads[a.tid].pc.Replying? ==>
      var r := Target(s, a);
      && r != a.tid && r < |s.threads| && ThreadOk(s.threads[r], |s.threads|)
      && s.threads[r].entered && s.threads[r].grants == 0
      && (s.threads[r].pc.Enqueued? || s.threads[r].pc.Waiting? || s.threads[r].pc.GaveUp?))
  }

  lemma StepReady(c: Config, s: State, a: Action)
    requires Inv(c, s) && Enabled(c, s, a)
    ensures Ready(c, s, a)
  {
    var t := s.threads[a.tid];
    assert ThreadOk(t, |s.threads|) && OnePlace(s, a.tid);
    if a.Step? && t.pc.Replying? {
      CountWitness(s.threads, Carrier(t.pc.req));
      assert Has(t, Carrier(t.pc.req));
      assert OnePlace(s, t.pc.req);
      assert ThreadOk(s.threads[t.pc.req], |s.threads|);
    }
  }

  /** At most threads `i` and `r` changed. */
  ghost predicate OnlyMoved(s: State, s': State, i: nat, r: nat) {
    && i < |s.threads| && r < |s.threads| && |s'.threads| == |s.threads|
    && s'.threads == s.threads[r := s'.threads[r]][i := s'.threads[i]]
  }

  /** By how much the count of a role changed, judged from the two threads alone. */
  ghost function Shift(s: State, s': State, i: nat, r: nat, m: Mark): int
    requires OnlyMoved(s, s', i, r)
  {
    Bit(Has(s'.threads[i], m)) - Bit(Has(s.threads[i], m))
    + if r == i then 0 else Bit(Has(s'.threads[r], m)) - Bit(Has(s.threads[r], m))
  }

  lemma CountShift(s: State, s': State, i: nat, r: nat, m: Mark)
    requires OnlyMoved(s, s', i, r)
    ensures Count(s'.threads, m) == Count(s.threads, m) + Shift(s, s', i, r, m)
  {
    var mid := s.threads[r := s'.threads[r]];
    CountUpdate(s.threads, r, s'.threads[r], m);
    CountUpdate(mid, i, s'.threads[i], m);
  }

  ghost predicate SlotShift(s: State, s': State, i: nat, r: nat)
    requires OnlyMoved(s, s', i, r)
  {
    s'.semaphore - s.semaphore == Shift(s, s', i, r, Owner)
  }

  ghost predicate ActiveShift(s: State, s': State, i: nat, r: nat)
    requires OnlyMoved(s, s', i, r)
  {
    s'.semaphore - s.semaphore == s'.activeCount - s.activeCount + Shift(s, s', i, r, At(Admitted))
      + Shift(s, s', i, r, Resending) - Shift(s, s', i, r, At(Draining))
  }

  ghost predicate QueuedShift(s: State, s': State, i: nat, r: nat)
    requires OnlyMoved(s, s', i, r)
  {
    |s'.queue| - |s.queue| == s'.queuedCount - s.queuedCount
      + Shift(s, s', i, r, At(Enqueued)) - Shift(s, s', i, r, Dequeued)
  }

  lemma StepMoves(c: Config, s: State, a: Action)
    requires Ready(c, s, a)
    ensures OnlyMoved(s, Apply(c, s, a), a.tid, Target(s, a))
  {}

  lemma StepSlotShift(c: Config, s: State, a: Action)
    requires Ready(c, s, a)
    ensures OnlyMoved(s, Apply(c, s, a), a.tid, Target(s, a)) && SlotShift(s, Apply(c, s, a), a.tid, Target(s, a))
  {
    StepMoves(c, s, a);
  }

  lemma StepActiveShift(c: Config, s: State, a: Action)
    requires Ready(c, s, a)
    ensures OnlyMoved(s, Apply(c, s, a), a.tid, Target(s, a)) && ActiveShift(s, Apply(c, s, a), a.tid, Target(s, a))
  {
    StepMoves(c, s, a);
  }

  lemma StepQueuedShift(c: Config, s: State, a: Action)
    requires Ready(c, s, a)
    ensures OnlyMoved(s, Apply(c, s, a), a.tid, Target(s, a)) && QueuedShift(s, Apply(c, s, a), a.tid, Target(s, a))
  {
    StepMoves(c, s, a);
  }

  lemma LedgersKept(s: State, s': State, i: nat, r: nat)
    requires Ledgers(s) && OnlyMoved(s, s', i, r) && SlotShift(s, s', i, r) && ActiveShift(s, s', i, r) &&
      QueuedShift(s, s', i, r)
    ensures Ledgers(s')
  {
    CountShift(s, s', i, r, Owner);
    CountShift(s, s', i, r, At(Admitted));
    CountShift(s, s', i, r, Resending);
    CountShift(s, s', i, r, At(Draining));
    CountShift(s, s', i, r, At(Enqueued));
    CountShift(s, s', i, r, Dequeued);
  }

  /** Does this step append thread `q` to the queue; does it remove `q` from its head. */
  ghost predicate Joins(c: Config, s: State, a: Action, q: nat)
    requires Enabled(c, s, a)
  {
    a.Step? && s.threads[a.tid].pc.Overflow? && |s.queue| < c.queueSize && q == a.tid
  }

  ghost predicate Leaves(c: Config, s: State, a: Action, q: nat)
    requires Enabled(c, s, a)
  {
    a.Step? && s.threads[a.tid].pc.Polling? && |s.queue| > 0 && q == s.queue[0]
  }

  lemma StepQueue(c: Config, s: State, a: Action, q: nat)
    requires Enabled(c, s, a)
    ensures var s' := Apply(c, s, a);
      && multiset(s'.queue)[q] == multiset(s.queue)[q] + Bit(Joins(c, s, a, q)) - Bit(Leaves(c, s, a, q))
      && multiset(s'.arrivals)[q] == multiset(s.arrivals)[q] + Bit(Joins(c, s, a, q))
  {
    if |s.queue| > 0 { QueueHead(s.queue); }
  }

  lemma StepPlaceShift(c: Config, s: State, a: Action, q: nat)
    requires Ready(c, s, a) && q < |s.threads|
    ensures var s' := Apply(c, s, a);
      && OnlyMoved(s, s', a.tid, Target(s, a))
      && Bit(s'.threads[q].entered) == Bit(s.threads[q].entered) + Bit(Joins(c, s, a, q))
      && Shift(s, s', a.tid, Target(s, a), Carrier(q)) + s'.threads[q].grants - s.threads[q].grants ==
         Bit(Leaves(c, s, a, q))
  {
    StepMoves(c, s, a);
  }

  lemma StepPlace(c: Config, s: State, a: Action, q: nat)
    requires Ready(c, s, a) && q < |s.threads| && OnePlace(s, q)
    ensures q < |Apply(c, s, a).threads| && OnePlace(Apply(c, s, a), q)
  {
    StepPlaceShift(c, s, a, q);
    StepQueue(c, s, a, q);
    CountShift(s, Apply(c, s, a), a.tid, Target(s, a), Carrier(q));
  }

  lemma StepThreadsOk(c: Config, s: State, a: Action)
    requires Ready(c, s, a) && (|s.queue| > 0 ==> s.queue[0] < |s.threads|)
    ensures var s' := Apply(c, s, a); var r := Target(s, a);
      && ThreadOk(s'.threads[a.tid], |s.threads|) && ThreadOk(s'.threads[r], |s.threads|)
  {}

  lemma StepChannels(c: Config, s: State, a: Action)
    requires Ready(c, s, a) && s.semaphore <= c.maxConcurrent && |s.queue| <= c.queueSize &&
      s.arrivals == s.served + s.queue
    ensures var s' := Apply(c, s, a);
      && s'.semaphore <= c.maxConcurrent && |s'.queue| <= c.queueSize
      && s'.arrivals == s'.served + s'.queue
      && (s'.arrivals == s.arrivals || s'.arrivals == s.arrivals + [a.tid])
  {}

  lemma StepInv(c: Config, s: State, a: Action)
    requires Inv(c, s) && Enabled(c, s, a)
    ensures Inv(c, Apply(c, s, a))
  {
    var s', i, r := Apply(c, s, a), a.tid, Target(s, a);
    StepReady(c, s, a);
    StepSlotShift(c, s, a);
    StepActiveShift(c, s, a);
    StepQueuedShift(c, s, a);
    LedgersKept(s, s', i, r);
    forall q: nat | q < |s.threads| ensures OnePlace(s', q) {
      StepPlace(c, s, a, q);
    }
    assert |s.queue| > 0 ==> s.queue[0] == s.arrivals[|s.served|];
    StepThreadsOk(c, s, a);
    StepChannels(c, s, a);
    InvFromParts(c, s, s', i, r);
  }

  lemma InvFromParts(c: Config, s: State, s': State, i: nat, r: nat)
    requires Shape(c, s) && OnlyMoved(s, s', i, r)
    requires ThreadOk(s'.threads[i], |s.threads|) && ThreadOk(s'.threads[r], |s.threads|)
    requires s'.semaphore <= c.maxConcurrent && |s'.queue| <= c.queueSize && s'.arrivals == s'.served + s'.queue
    requires s'.arrivals == s.arrivals || s'.arrivals == s.arrivals + [i]
    ensures Shape(c, s')
  {}

  lemma {:induction false} RunInv(c: Config, s: State, trace: seq<Action>)
    requires Inv(c, s) && Exec(c, s, trace).Some?
    ensures Inv(c, Exec(c, s, trace).value)
  {
    if trace != [] {
      var prefix := trace[..|trace| - 1];
      RunInv(c, s, prefix);
      StepInv(c, Exec(c, s, prefix).value, trace[|trace| - 1]);
    }
  }

  lemma ReachableInv(c: Config, s: State)
    requires Reachable(c, s)
    ensures Inv(c, s)
  {
    var n: nat, trace: seq<Action> :| Exec(c, Init(n), trace) == Some(s);
    InitInv(c, n);
    RunInv(c, Init(n), trace);
  }
}
