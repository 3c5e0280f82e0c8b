/** The promises of the bulkhead, for every reachable state of every interleaving, and the
    runs in which it breaks the ones it cannot keep. */
module BulkheadTheorems {
  import opened BulkheadProtocol
  import opened BulkheadSafety

  // ---- Slots -----------------------------------------------------------------------------

  /** Every token in the semaphore has exactly one owner, so live requests never exceed the
      limit, and each slot that is lost is charged to one request that left with its grant. */
  lemma SlotConservation(c: Config, s: State)
    requires Reachable(c, s)
    ensures s.semaphore == Count(s.threads, Live) + Count(s.threads, Granting) + Count(s.threads, Granted)
      + Count(s.threads, Abandoned)
    ensures Count(s.threads, Live) + Count(s.threads, Abandoned) <= c.maxConcurrent
  {
    ReachableInv(c, s);
    OwnersSplit(s.threads);
  }

  // ---- Counters --------------------------------------------------------------------------

  lemma {:induction false} ActiveThreads(ts: seq<Thread>, n: nat)
    requires forall i :: 0 <= i < |ts| ==> ThreadOk(ts[i], n)
    ensures Count(ts, Owner) + Count(ts, At(Draining)) >= Count(ts, At(Admitted)) + Count(ts, Resending)
  {
    if ts != [] { ActiveThreads(ts[..|ts| - 1], n); }
  }

  /** What GetStats may report: each counter strays from its channel by exactly the threads
      between a channel operation and the counter update that follows it. */
  lemma CounterLedger(c: Config, s: State)
    requires Reachable(c, s)
    ensures s.semaphore == s.activeCount + Count(s.threads, At(Admitted))
      + Count(s.threads, Resending) - Count(s.threads, At(Draining))
    ensures |s.queue| == s.queuedCount + Count(s.threads, At(Enqueued)) - Count(s.threads, Dequeued)
    ensures 0 <= s.activeCount <= c.maxConcurrent + Count(s.threads, At(Draining))
  {
    ReachableInv(c, s);
    ActiveThreads(s.threads, |s.threads|);
  }

  // ---- Queue -----------------------------------------------------------------------------

  /** Requests leave the queue in the order they entered it, each at most once, and each is
      sent at most one message; a message sent was sent to a dequeued request. */
  lemma ServedInOrderOnce(c: Config, s: State, r: nat)
    requires Reachable(c, s) && r < |s.threads|
    ensures s.arrivals == s.served + s.queue
    ensures multiset(s.arrivals)[r] <= 1 && multiset(s.served)[r] <= 1
    ensures s.threads[r].grants <= multiset(s.served)[r]
    ensures s.threads[r].inbox <= 1
  {
    ReachableInv(c, s);
    assert OnePlace(s, r) && ThreadOk(s.threads[r], |s.threads|);
    assert multiset(s.arrivals) == multiset(s.served) + multiset(s.queue);
  }

  /** The send on the response channel never blocks, even when the request has left, and the
      receive in Release never blocks a caller that holds a slot. */
  lemma NeverBlocked(c: Config, s: State, i: nat)
    requires Reachable(c, s) && i < |s.threads|
    requires s.threads[i].pc.Replying? || s.threads[i].pc.Holding?
    ensures Enabled(c, s, Step(i))
  {
    ReachableInv(c, s);
    assert ThreadOk(s.threads[i], |s.threads|);
    if s.threads[i].pc.Holding? {
      CountWitness(s.threads, Owner);
      assert Has(s.threads[i], Owner);
    } else {
      var r := s.threads[i].pc.req;
      CountWitness(s.threads, Carrier(r));
      assert Has(s.threads[i], Carrier(r));
      assert OnePlace(s, r) && ThreadOk(s.threads[r], |s.threads|);
    }
  }

  // ---- Progress --------------------------------------------------------------------------

  /** A slot owner that has not been abandoned can always take its next step. */
  lemma OwnerMoves(c: Config, s: State, j: nat)
    requires Inv(c, s) && Reachable(c, s) && j < |s.threads|
    requires Has(s.threads[j], Owner) && !Has(s.threads[j], Abandoned)
    ensures Enabled(c, s, Step(j))
  {
    if s.threads[j].pc.Replying? || s.threads[j].pc.Holding? { NeverBlocked(c, s, j); }
  }

  lemma {:induction false} SomeOwnerStays(ts: seq<Thread>)
    requires Count(ts, Owner) > Count(ts, Abandoned)
    ensures exists j :: 0 <= j < |ts| && Has(ts[j], Owner) && !Has(ts[j], Abandoned)
  {
    var n := |ts| - 1;
    if !(Has(ts[n], Owner) && !Has(ts[n], Abandoned)) {
      SomeOwnerStays(ts[..n]);
      var j :| 0 <= j < n && Has(ts[..n][j], Owner) && !Has(ts[..n][j], Abandoned);
      assert ts[j] == ts[..n][j];
    }
  }

  /** Unless every slot is lost, a releaser blocked at line 68 is not the only thread left. */
  lemma BlockedReleaserHasCompany(c: Config, s: State, i: nat)
    requires Reachable(c, s) && i < |s.threads|
    requires s.threads[i].pc.Delivering? && !Enabled(c, s, Step(i))
    requires Count(s.threads, Abandoned) < c.maxConcurrent
    ensures exists j: nat :: j < |s.threads| && Enabled(c, s, Step(j))
  {
    ReachableInv(c, s);
    SomeOwnerStays(s.threads);
    var j :| 0 <= j < |s.threads| && Has(s.threads[j], Owner) && !Has(s.threads[j], Abandoned);
    OwnerMoves(c, s, j);
  }

  // ---- How runs end ----------------------------------------------------------------------

  /** No thread is inside a call except requests still waiting without a grant. */
  ghost predicate Settled(s: State) {
    forall i :: 0 <= i < |s.threads| ==>
      var t := s.threads[i];
      t.pc.Done? || t.pc.Rejected? || t.pc.GaveUp? || (t.pc.Waiting? && t.inbox == 0)
  }

  lemma {:induction false} SettledCounts(ts: seq<Thread>, m: Mark)
    requires forall i :: 0 <= i < |ts| ==>
      ts[i].pc.Done? || ts[i].pc.Rejected? || ts[i].pc.GaveUp? || (ts[i].pc.Waiting? && ts[i].inbox == 0)
    ensures Count(ts, Owner) == Count(ts, Abandoned)
    ensures m in {At(Admitted), At(Draining), At(Enqueued), Resending, Dequeued} || m.Carrier? ==> Count(ts, m) == 0
  {
    if ts != [] { SettledCounts(ts[..|ts| - 1], m); }
  }

  lemma QueuedExist(c: Config, s: State)
    requires Shape(c, s)
    ensures forall r: nat :: r in s.queue ==> r < |s.threads|
  {
    forall k | 0 <= k < |s.queue| ensures s.queue[k] < |s.threads| {
      assert s.arrivals[|s.served| + k] == s.queue[k];
    }
  }

  lemma SettledLedgers(s: State)
    requires Ledgers(s) && Settled(s)
    ensures s.semaphore == s.activeCount == Count(s.threads, Abandoned)
    ensures s.queuedCount == |s.queue|
  {
    SettledCounts(s.threads, At(Admitted));
    SettledCounts(s.threads, At(Draining));
    SettledCounts(s.threads, At(Enqueued));
    SettledCounts(s.threads, Resending);
    SettledCounts(s.threads, Dequeued);
  }

  /** When every call has settled the books are exact: the slots still taken are the abandoned
      grants, and the queue holds exactly the requests that were never told. */
  lemma SettledAccount(c: Config, s: State)
    requires Reachable(c, s) && Settled(s)
    ensures s.semaphore == s.activeCount == Count(s.threads, Abandoned)
    ensures s.queuedCount == |s.queue|
    ensures forall r: nat :: r in s.queue <==>
      r < |s.threads| && (s.threads[r].pc.Waiting? || s.threads[r].pc.GaveUp?) && s.threads[r].grants == 0
    ensures forall r: nat :: r < |s.threads| && s.threads[r].entered && s.threads[r].pc.Done? ==>
      s.threads[r].grants == 1
  {
    ReachableInv(c, s);
    SettledLedgers(s);
    QueuedExist(c, s);
    forall r: nat
      ensures r in s.queue <==>
        r < |s.threads| && (s.threads[r].pc.Waiting? || s.threads[r].pc.GaveUp?) && s.threads[r].grants == 0
    {
      if r < |s.threads| {
        SettledCounts(s.threads, Carrier(r));
        assert OnePlace(s, r) && ThreadOk(s.threads[r], |s.threads|);
      }
    }
    forall r: nat | r < |s.threads| ensures ThreadOk(s.threads[r], |s.threads|) {}
  }

  /** Once all calls have returned, every slot and every queue place is free again exactly when
      no request left its wait early. */
  lemma QuiescenceIsCleanIff(c: Config, s: State)
    requires Reachable(c, s)
    requires forall i :: 0 <= i < |s.threads| ==>
      s.threads[i].pc.Done? || s.threads[i].pc.Rejected? || s.threads[i].pc.GaveUp?
    ensures (s.semaphore == 0 && s.queue == [] && s.activeCount == 0 && s.queuedCount == 0) <==>
      forall i :: 0 <= i < |s.threads| ==> !s.threads[i].pc.GaveUp?
  {
    hide Exec, OnePlace, Ledgers, Count;
    SettledAccount(c, s);
    CountWitness(s.threads, Abandoned);
    ReachableInv(c, s);
    if i :| 0 <= i < |s.threads| && s.threads[i].pc.GaveUp? {
      assert ThreadOk(s.threads[i], |s.threads|);
      if s.threads[i].grants == 0 { assert i in s.queue; } else { assert Has(s.threads[i], Abandoned); }
    } else if s.queue != [] {
      assert s.queue[0] in s.queue;
    }
  }

  /** While a slot can still be recovered, the only way for the protocol to stop short is a
      lost wake-up: requests wait in the queue although slots are free and nobody is left to
      release one. */
  lemma StuckIsLostWakeup(c: Config, s: State)
    requires Reachable(c, s) && Count(s.threads, Abandoned) < c.maxConcurrent
    requires forall j: nat :: j < |s.threads| ==> !Enabled(c, s, Step(j))
    ensures Settled(s) && s.semaphore < c.maxConcurrent
    ensures forall r: nat :: r < |s.threads| && s.threads[r].pc.Waiting? ==> r in s.queue
  {
    ReachableInv(c, s);
    forall i: nat | i < |s.threads|
      ensures var t := s.threads[i]; t.pc.Done? || t.pc.Rejected? || t.pc.GaveUp? || (t.pc.Waiting? && t.inbox == 0)
    {
      assert !Enabled(c, s, Step(i));
      if s.threads[i].pc.Holding? || s.threads[i].pc.Replying? {
        NeverBlocked(c, s, i);
      } else if s.threads[i].pc.Delivering? {
        BlockedReleaserHasCompany(c, s, i);
      }
    }
    forall i | 0 <= i < |s.threads| ensures ThreadOk(s.threads[i], |s.threads|) {}
    SettledAccount(c, s);
  }

  // ---- Every run is finite ---------------------------------------------------------------

  function Rank(pc: Pc): nat {
    match pc
    case Idle => 10 case Overflow => 9 case Enqueued => 8 case Waiting => 7 case Admitted => 7
    case Holding => 6 case Draining => 5 case Polling => 4 case Delivering(_) => 3
    case Resent(_) => 2 case Replying(_) => 1 case _ => 0
  }

  function Potential(ts: seq<Thread>): nat {
    if ts == [] then 0 else Potential(ts[..|ts| - 1]) + Rank(ts[|ts| - 1].pc)
  }

  lemma {:induction false} PotentialUpdate(ts: seq<Thread>, i: nat, t: Thread)
    requires i < |ts|
    ensures Potential(ts[i := t]) == Potential(ts) - Rank(ts[i].pc) + Rank(t.pc)
  {
    var n := |ts| - 1;
    if i == n {
      assert ts[i := t][..n] == ts[..n];
    } else {
      assert ts[i := t][..n] == ts[..n][i := t];
      PotentialUpdate(ts[..n], i, t);
    }
  }

  lemma StepDescends(c: Config, s: State, a: Action)
    requires Ready(c, s, a)
    ensures Potential(Apply(c, s, a).threads) < Potential(s.threads)
  {
    var s', r := Apply(c, s, a), Target(s, a);
    StepMoves(c, s, a);
    StepRank(c, s, a);
    PotentialUpdate(s.threads, r, s'.threads[r]);
    PotentialUpdate(s.threads[r := s'.threads[r]], a.tid, s'.threads[a.tid]);
  }

  lemma StepRank(c: Config, s: State, a: Action)
    requires Ready(c, s, a)
    ensures var s' := Apply(c, s, a); var r := Target(s, a);
      Rank(s'.threads[a.tid].pc) < Rank(s.threads[a.tid].pc) && (r != a.tid ==> s'.threads[r].pc == s.threads[r].pc)
  {}

  lemma {:induction false} PotentialFresh(ts: seq<Thread>)
    requires forall i :: 0 <= i < |ts| ==> ts[i] == FRESH
    ensures Potential(ts) == 10 * |ts|
  {
    if ts != [] { PotentialFresh(ts[..|ts| - 1]); }
  }

  lemma {:induction false} RunDescends(c: Config, s: State, trace: seq<Action>)
    requires Inv(c, s) && Exec(c, s, trace).Some?
    ensures |trace| + Potential(Exec(c, s, trace).value.threads) <= Potential(s.threads)
  {
    if trace != [] {
      var prefix := trace[..|trace| - 1];
      RunDescends(c, s, prefix);
      RunInv(c, s, prefix);
      StepReady(c, Exec(c, s, prefix).value, trace[|trace| - 1]);
      StepDescends(c, Exec(c, s, prefix).value, trace[|trace| - 1]);
    }
  }

  /** `n` requests take at most ten steps each, whatever the schedule: no call spins. */
  lemma RunsAreFinite(c: Config, n: nat, trace: seq<Action>)
    requires Exec(c, Init(n), trace).Some?
    ensures |trace| <= 10 * n
  {
    InitInv(c, n);
    PotentialFresh(Init(n).threads);
    RunDescends(c, Init(n), trace);
  }

  // ---- Lost slots ------------------------------------------------------------------------

  lemma StepKeepsAbandoned(c: Config, s: State, a: Action)
    requires Ready(c, s, a)
    ensures Count(Apply(c, s, a).threads, Abandoned) >= Count(s.threads, Abandoned)
  {
    StepMoves(c, s, a);
    CountShift(s, Apply(c, s, a), a.tid, Target(s, a), Abandoned);
  }

  lemma {:induction false} AbandonedForever(c: Config, s: State, trace: seq<Action>)
    requires Inv(c, s) && Exec(c, s, trace).Some?
    ensures Count(Exec(c, s, trace).value.threads, Abandoned) >= Count(s.threads, Abandoned)
  {
    if trace != [] {
      var prefix := trace[..|trace| - 1];
      AbandonedForever(c, s, prefix);
      RunInv(c, s, prefix);
      StepReady(c, Exec(c, s, prefix).value, trace[|trace| - 1]);
      StepKeepsAbandoned(c, Exec(c, s, prefix).value, trace[|trace| - 1]);
    }
  }
}
