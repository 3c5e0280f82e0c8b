/** Concrete schedules showing what the bulkhead does not promise. Each has one slot and the
    threads 0, 1, 2, ... of the protocol. */
module BulkheadWitnesses {
  import opened Wrappers
  import opened BulkheadProtocol
  import opened BulkheadSafety
  import opened BulkheadTheorems
  import opened BulkheadHangs

  const SMALL := Config(1, 2)

  lemma Start(c: Config, n: nat) returns (s: State)
    ensures s == Init(n) && Reachable(c, s)
  {
    s := Init(n);
    assert Exec(c, Init(n), []) == Some(s);
  }

  lemma Next(s: State, a: Action) returns (t: State)
    requires Reachable(SMALL, s) && Enabled(SMALL, s, a)
    ensures t == Apply(SMALL, s, a) && Reachable(SMALL, t)
  {
    Extend(SMALL, s, a);
    t := Apply(SMALL, s, a);
  }

  const HOLDER := Thread(Holding, 0, false, 0)
  const FINISHED := Thread(Done, 0, false, 0)
  const QUEUED := Thread(Waiting, 0, true, 0)
  const LEFT := Thread(GaveUp, 0, true, 0)

  function To(r: nat): Thread { Thread(Delivering(r), 0, false, 0) }

  /** Thread 0 holds the only slot and thread 1 has found the semaphore full. */
  lemma OneOverflowed() returns (s: State)
    ensures Reachable(SMALL, s)
    ensures s == State(1, [], 1, 0, [HOLDER, Thread(Overflow, 0, false, 0)], [], [])
  {
    s := Start(SMALL, 2);
    s := Next(s, Step(0));
    s := Next(s, Step(0));
    s := Next(s, Step(1));
  }

  /** activeCount can exceed the limit: the next request is counted before the last is uncounted. */
  lemma ActiveCountCanExceedLimit()
    ensures exists s :: Reachable(SMALL, s) && s.activeCount > SMALL.maxConcurrent
  {
    var s := Start(SMALL, 2);
    s := Next(s, Step(0));
    s := Next(s, Step(0));
    s := Next(s, Step(0));
    s := Next(s, Step(1));
    s := Next(s, Step(1));
    assert s.activeCount == 2;
  }

  /** queuedCount can be negative: a request is served before its own thread counts it. */
  lemma QueuedCountCanBeNegative()
    ensures exists s :: Reachable(SMALL, s) && s.queuedCount < 0
  {
    var s := OneOverflowed();
    s := Next(s, Step(1));
    assert s.threads == [HOLDER, Thread(Enqueued, 0, true, 0)];
    s := Next(s, Step(0));
    s := Next(s, Step(0));
    s := Next(s, Step(0));
    s := Next(s, Step(0));
    s := Next(s, Step(0));
    assert s.queuedCount == -1;
  }

  lemma OneReleased() returns (s: State)
    ensures Reachable(SMALL, s)
    ensures s == State(0, [], 0, 0, [FINISHED, Thread(Overflow, 0, false, 0)], [], [])
  {
    s := OneOverflowed();
    s := Next(s, Step(0));
    s := Next(s, Step(0));
    s := Next(s, Step(0));
  }

  /** A request that finds the semaphore full and enqueues just after the last release waits in
      the queue although every slot is free and no thread can take a step. */
  lemma WakeupCanBeLost()
    ensures exists s :: Reachable(SMALL, s) && s.semaphore == 0 && s.queue == [1] && s.threads == [FINISHED, QUEUED]
                        && forall j: nat :: !Enabled(SMALL, s, Step(j))
  {
    var s := OneReleased();
    s := Next(s, Step(1));
    s := Next(s, Step(1));
    assert s == State(0, [1], 0, 1, [FINISHED, QUEUED], [1], []);
  }

  lemma OneQueued() returns (s: State)
    ensures Reachable(SMALL, s)
    ensures s == State(1, [1], 1, 1, [HOLDER, QUEUED], [1], [])
  {
    s := OneOverflowed();
    s := Next(s, Step(1));
    s := Next(s, Step(1));
  }

  /** Thread 1 has left the queue unserved and thread 0 has dequeued it. */
  lemma OneLeft() returns (s: State)
    ensures Reachable(SMALL, s)
    ensures s == State(0, [], 0, 1, [To(1), LEFT], [1], [1])
  {
    s := OneQueued();
    s := Next(s, Abandon(1));
    s := Next(s, Step(0));
    s := Next(s, Step(0));
    s := Next(s, Step(0));
  }

  lemma OneResent() returns (s: State)
    ensures Reachable(SMALL, s)
    ensures s == State(1, [], 0, 1, [Thread(Resent(1), 0, false, 0), LEFT], [1], [1])
  {
    s := OneLeft();
    s := Next(s, Step(0));
  }

  /** A grant sent to a request that timed out is never given back: all calls have returned
      and the only slot is taken. */
  lemma SlotCanBeLost()
    ensures exists s :: Reachable(SMALL, s) && s.semaphore == 1 && s.threads == [FINISHED, Thread(GaveUp, 1, true, 1)]
  {
    var s := OneResent();
    s := Next(s, Step(0));
    s := Next(s, Step(0));
    assert s == State(1, [], 1, 0, [FINISHED, Thread(GaveUp, 1, true, 1)], [1], [1]);
  }

  lemma FirstHolds() returns (s: State)
    ensures Reachable(SMALL, s)
    ensures s == State(1, [], 1, 0, [HOLDER, FRESH, FRESH, FRESH], [], [])
  {
    s := Start(SMALL, 4);
    s := Next(s, Step(0));
    s := Next(s, Step(0));
  }

  lemma FirstLeft() returns (s: State)
    ensures Reachable(SMALL, s)
    ensures s == State(1, [1], 1, 1, [HOLDER, LEFT, FRESH, FRESH], [1], [])
  {
    s := FirstHolds();
    s := Next(s, Step(1));
    s := Next(s, Step(1));
    s := Next(s, Step(1));
    s := Next(s, Abandon(1));
  }

  lemma SecondLeft() returns (s: State)
    ensures Reachable(SMALL, s)
    ensures s == State(1, [1, 2], 1, 2, [HOLDER, LEFT, LEFT, FRESH], [1, 2], [])
  {
    s := FirstLeft();
    s := Next(s, Step(2));
    s := Next(s, Step(2));
    s := Next(s, Step(2));
    s := Next(s, Abandon(2));
  }

  /** Two requests have left the queue unserved, thread 0 has dequeued the first of them. */
  lemma TwoLeft() returns (s: State)
    ensures Reachable(SMALL, s)
    ensures s == State(0, [2], 0, 2, [To(1), LEFT, LEFT, FRESH], [1, 2], [1])
  {
    s := SecondLeft();
    s := Next(s, Step(0));
    s := Next(s, Step(0));
    s := Next(s, Step(0));
  }

  /** Thread 3 slips in, and dequeues the second of them before the first is delivered. */
  lemma TwoDelivering() returns (s: State)
    ensures Reachable(SMALL, s)
    ensures s == State(0, [], 0, 2, [To(1), LEFT, LEFT, To(2)], [1, 2], [1, 2])
  {
    s := TwoLeft();
    s := Next(s, Step(3));
    s := Next(s, Step(3));
    s := Next(s, Step(3));
    s := Next(s, Step(3));
    assert s.threads[3].pc == Polling;
    s := Next(s, Step(3));
  }

  /** Thread 0 is about to tell thread 1, which is gone, of the only slot. */
  lemma OneResending() returns (s: State)
    ensures Reachable(SMALL, s)
    ensures s == State(1, [], 0, 2, [Thread(Resent(1), 0, false, 0), LEFT, LEFT, To(2)], [1, 2], [1, 2])
  {
    s := TwoDelivering();
    s := Next(s, Step(0));
  }

  lemma OneReplying() returns (s: State)
    ensures Reachable(SMALL, s)
    ensures s == State(1, [], 1, 1, [Thread(Replying(1), 0, false, 0), LEFT, LEFT, To(2)], [1, 2], [1, 2])
  {
    s := OneResending();
    s := Next(s, Step(0));
  }

  /** Thread 0 has delivered the only slot to thread 1. */
  lemma OneAbandoned() returns (s: State)
    ensures Reachable(SMALL, s)
    ensures s == State(1, [], 1, 1, [FINISHED, Thread(GaveUp, 1, true, 1), LEFT, To(2)], [1, 2], [1, 2])
  {
    s := OneReplying();
    s := Next(s, Step(0));
  }

  /** A Release call can hang for ever: thread 3 is blocked at line 68 and stays there in every
      continuation, because the only slot went to a request that had left. */
  lemma ReleaseCanHangForever()
    ensures exists s :: Reachable(SMALL, s) && |s.threads| == 4 && s.threads[3] == To(2) && HangsForever(SMALL, s, 3)
  {
    var s := OneAbandoned();
    BlockedReleaserHangsIff(SMALL, s, 3);
  }

  /** It hangs even before any slot is lost: the only slot is still on its way. */
  lemma HangsWithNothingLost()
    ensures exists s :: Reachable(SMALL, s) && Count(s.threads, Abandoned) == 0
                        && |s.threads| == 4 && s.threads[3] == To(2) && HangsForever(SMALL, s, 3)
  {
    var s := OneResending();
    CountWitness(s.threads, Abandoned);
    BlockedReleaserHangsIff(SMALL, s, 3);
  }
}
