/** Exactly when a Release call of the bulkhead never returns, if any blocked releaser may be
    served next. */
module BulkheadHangs {
  import opened Arithmetic
  import opened Wrappers
  import opened BulkheadProtocol
  import opened BulkheadSafety
  import opened BulkheadTheorems
  import opened BulkheadWakeups

  /** The slot that thread `j` owns will never be given back: its request has left with the
      grant, or the releaser holding it is about to tell a request that has left. */
  ghost predicate Doomed(s: State, j: nat)
    requires j < |s.threads|
  {
    var pc := s.threads[j].pc;
    || Has(s.threads[j], Abandoned)
    || ((pc.Resent? || pc.Replying?) && pc.req < |s.threads| && s.threads[pc.req].pc.GaveUp?)
  }

  ghost predicate AllDoomed(s: State) {
    forall j: nat :: j < |s.threads| && Has(s.threads[j], Owner) ==> Doomed(s, j)
  }

  /** Every slot is taken and none will come back. */
  ghost predicate Dead(c: Config, s: State) {
    s.semaphore == c.maxConcurrent && AllDoomed(s)
  }

  /** Thread `i` stays where it is, whatever happens from here. */
  ghost predicate HangsForever(c: Config, s: State, i: nat)
    requires i < |s.threads|
  {
    forall trace :: Exec(c, s, trace).Some? ==>
      var t := Exec(c, s, trace).value;
      i < |t.threads| && t.threads[i].pc == s.threads[i].pc
  }

  // ---- A dead bulkhead stays dead --------------------------------------------------------

  /** Nobody who could own a slot for a reason other than doom takes part in this step. */
  lemma DeadMover(c: Config, s: State, a: Action)
    requires Inv(c, s) && Dead(c, s) && Enabled(c, s, a)
    ensures Apply(c, s, a).semaphore == c.maxConcurrent
    ensures var t, t' := s.threads[a.tid], Apply(c, s, a).threads[a.tid];
      && !t.pc.Delivering? && !Has(t', Live)
      && (Has(t', Owner) ==>
        t.pc.Resent? && t'.pc == Replying(t.pc.req) && t.pc.req < |s.threads| && s.threads[t.pc.req].pc.GaveUp?)
  {
    hide Count;
    var t := s.threads[a.tid];
    assert ThreadOk(t, |s.threads|);
    assert Has(t, Owner) ==> Doomed(s, a.tid);
  }

  lemma StepKeepsDead(c: Config, s: State, a: Action)
    requires Inv(c, s) && Dead(c, s) && Enabled(c, s, a)
    ensures Dead(c, Apply(c, s, a)) && |Apply(c, s, a).threads| == |s.threads|
    ensures forall i :: 0 <= i < |s.threads| && s.threads[i].pc.Delivering? ==>
      Apply(c, s, a).threads[i].pc == s.threads[i].pc
  {
    hide Count, Inv, Apply;
    var s', r := Apply(c, s, a), Target(s, a);
    StepReady(c, s, a);
    StepMoves(c, s, a);
    StepRank(c, s, a);
    DeadMover(c, s, a);
    DeadTarget(c, s, a);
    forall j: nat | j < |s'.threads| && Has(s'.threads[j], Owner) ensures Doomed(s', j) {
      if j != a.tid && j != r { assert s'.threads[j] == s.threads[j] && Doomed(s, j); }
    }
  }

  lemma DeadTarget(c: Config, s: State, a: Action)
    requires Inv(c, s) && Dead(c, s) && Ready(c, s, a)
    ensures forall j: nat :: j < |s.threads| && s.threads[j].pc.GaveUp? ==> Apply(c, s, a).threads[j].pc.GaveUp?
    ensures var r := Target(s, a); r != a.tid ==> Has(Apply(c, s, a).threads[r], Abandoned)
  {
    hide Count;
    assert Has(s.threads[a.tid], Owner) ==> Doomed(s, a.tid);
  }

  lemma DeadHasNoneLive(s: State)
    requires AllDoomed(s)
    ensures Count(s.threads, Live) == 0
  {
    CountWitness(s.threads, Live);
    forall j: nat | j < |s.threads| ensures !Has(s.threads[j], Live) {
      assert Has(s.threads[j], Owner) ==> Doomed(s, j);
    }
  }

  /** Once every slot is lost or promised to a request that left, the service is gone for good:
      in every later state nobody is admitted and a releaser at line 68 is still there. */
  lemma {:induction false} SaturationIsPermanent(c: Config, s: State, trace: seq<Action>)
    requires Inv(c, s) && Dead(c, s) && Exec(c, s, trace).Some?
    ensures var t := Exec(c, s, trace).value;
      && |t.threads| == |s.threads| && Dead(c, t) && Count(t.threads, Live) == 0
      && forall i :: 0 <= i < |s.threads| && s.threads[i].pc.Delivering? ==> t.threads[i].pc == s.threads[i].pc
  {
    if trace != [] {
      var prefix := trace[..|trace| - 1];
      SaturationIsPermanent(c, s, prefix);
      RunInv(c, s, prefix);
      StepKeepsDead(c, Exec(c, s, prefix).value, trace[|trace| - 1]);
    }
    DeadHasNoneLive(Exec(c, s, trace).value);
  }

  // ---- Any other owner can free its slot -------------------------------------------------

  /** Some schedule lets the releaser at line 68 take its slot. */
  ghost predicate Escapes(c: Config, s: State, i: nat, r: nat) {
    exists trace :: Exec(c, s, trace).Some? &&
      var t := Exec(c, s, trace).value;
      i < |t.threads| && t.threads[i].pc == Delivering(r) && t.semaphore < c.maxConcurrent
  }

  lemma EscapesNow(c: Config, s: State, i: nat, r: nat)
    requires i < |s.threads| && s.threads[i].pc == Delivering(r) && s.semaphore < c.maxConcurrent
    ensures Escapes(c, s, i, r)
  {
    assert Exec(c, s, []) == Some(s);
  }

  lemma EscapesAfter(c: Config, s: State, a: Action, i: nat, r: nat)
    requires Enabled(c, s, a) && Escapes(c, Apply(c, s, a), i, r)
    ensures Escapes(c, s, i, r)
  {
    var trace :| Exec(c, Apply(c, s, a), trace).Some? &&
      var t := Exec(c, Apply(c, s, a), trace).value;
      i < |t.threads| && t.threads[i].pc == Delivering(r) && t.semaphore < c.maxConcurrent;
    ExecCons(c, s, a, trace);
  }

  /** Releaser `i` wants a slot for request `r`, and thread `j` is someone else. */
  ghost predicate Blocked(c: Config, s: State, i: nat, r: nat, j: nat) {
    && i < |s.threads| && j < |s.threads| && i != j
    && s.threads[i].pc == Delivering(r)
    && 0 < s.semaphore <= c.maxConcurrent
  }

  lemma HolderFrees(c: Config, s: State, i: nat, r: nat, j: nat)
    requires Blocked(c, s, i, r, j) && s.threads[j].pc.Holding?
    ensures Escapes(c, s, i, r)
  {
    EscapesNow(c, Apply(c, s, Step(j)), i, r);
    EscapesAfter(c, s, Step(j), i, r);
  }

  lemma GrantedFrees(c: Config, s: State, i: nat, r: nat, j: nat)
    requires Blocked(c, s, i, r, j)
    requires s.threads[j].pc.Admitted? ||
      ((s.threads[j].pc.Enqueued? || s.threads[j].pc.Waiting?) && s.threads[j].inbox > 0)
    ensures Escapes(c, s, i, r)
    decreases if s.threads[j].pc.Enqueued? then 1 else 0
  {
    var t := Apply(c, s, Step(j));
    if s.threads[j].pc.Enqueued? { GrantedFrees(c, t, i, r, j); } else { HolderFrees(c, t, i, r, j); }
    EscapesAfter(c, s, Step(j), i, r);
  }

  lemma GranterFrees(c: Config, s: State, i: nat, r: nat, j: nat, q: nat)
    requires Blocked(c, s, i, r, j)
    requires s.threads[j].pc == Resent(q) || s.threads[j].pc == Replying(q)
    requires q < |s.threads| && (s.threads[q].pc.Enqueued? || s.threads[q].pc.Waiting?) && s.threads[q].inbox == 0
    ensures Escapes(c, s, i, r)
    decreases if s.threads[j].pc.Resent? then 1 else 0
  {
    var t := Apply(c, s, Step(j));
    if s.threads[j].pc.Resent? { GranterFrees(c, t, i, r, j, q); } else { GrantedFrees(c, t, i, r, q); }
    EscapesAfter(c, s, Step(j), i, r);
  }

  /** A request that a releaser has taken from the queue has not been told yet. */
  lemma CarriedIsUntold(c: Config, s: State, j: nat)
    requires Inv(c, s) && j < |s.threads| && Has(s.threads[j], Carrying)
    ensures var q := s.threads[j].pc.req;
      && q < |s.threads| && s.threads[q].inbox == 0 && s.threads[q].grants == 0
      && (s.threads[q].pc.Enqueued? || s.threads[q].pc.Waiting? || s.threads[q].pc.GaveUp?)
  {
    var q := s.threads[j].pc.req;
    assert ThreadOk(s.threads[j], |s.threads|);
    CountWitness(s.threads, Carrier(q));
    assert Has(s.threads[j], Carrier(q));
    assert OnePlace(s, q) && ThreadOk(s.threads[q], |s.threads|);
  }

  lemma OwnerFrees(c: Config, s: State, i: nat, r: nat, j: nat)
    requires Inv(c, s) && Blocked(c, s, i, r, j)
    requires Has(s.threads[j], Owner) && !Doomed(s, j)
    ensures Escapes(c, s, i, r)
  {
    hide Count, Inv;
    match s.threads[j].pc
    case Holding => HolderFrees(c, s, i, r, j);
    case Resent(q) =>
      CarriedIsUntold(c, s, j);
      GranterFrees(c, s, i, r, j, q);
    case Replying(q) =>
      CarriedIsUntold(c, s, j);
      GranterFrees(c, s, i, r, j, q);
    case _ => GrantedFrees(c, s, i, r, j);
  }

  lemma EscapeIsAMove(c: Config, s: State, i: nat, r: nat)
    requires i < |s.threads| && s.threads[i].pc == Delivering(r) && Escapes(c, s, i, r)
    ensures !HangsForever(c, s, i)
  {
    var trace :| Exec(c, s, trace).Some? &&
      var t := Exec(c, s, trace).value;
      i < |t.threads| && t.threads[i].pc == Delivering(r) && t.semaphore < c.maxConcurrent;
    ExecSnoc(c, s, trace, Step(i));
    assert Exec(c, s, trace + [Step(i)]).Some?;
  }

  /** A releaser blocked at line 68 is there for ever, however blocked releasers are served,
      exactly when every slot is lost or is about to be told to a request that has left. */
  lemma BlockedReleaserHangsIff(c: Config, s: State, i: nat)
    requires Reachable(c, s) && i < |s.threads|
    requires s.threads[i].pc.Delivering? && !Enabled(c, s, Step(i))
    ensures HangsForever(c, s, i) <==> AllDoomed(s)
  {
    hide Apply, Has, Doomed;
    var r := s.threads[i].pc.req;
    ReachableInv(c, s);
    if AllDoomed(s) {
      forall trace | Exec(c, s, trace).Some?
        ensures var t := Exec(c, s, trace).value; i < |t.threads| && t.threads[i].pc == s.threads[i].pc
      {
        SaturationIsPermanent(c, s, trace);
      }
    } else {
      var j: nat :| j < |s.threads| && Has(s.threads[j], Owner) && !Doomed(s, j);
      SlotOfOwner(c, s, i, j);
      OwnerFrees(c, s, i, r, j);
      EscapeIsAMove(c, s, i, r);
    }
  }

  lemma SlotOfOwner(c: Config, s: State, i: nat, j: nat)
    requires Inv(c, s) && i < |s.threads| && j < |s.threads| && s.threads[i].pc.Delivering? && Has(s.threads[j], Owner)
    ensures Blocked(c, s, i, s.threads[i].pc.req, j)
  {
    CountWitness(s.threads, Owner);
  }

  // ---- How many requests it takes --------------------------------------------------------

  /** `n` requests can reach this state. */
  ghost predicate ReachableBy(c: Config, n: nat, s: State) {
    exists trace: seq<Action> :: Exec(c, Init(n), trace) == Some(s)
  }

  /** Some schedule of `n` requests leads to a Release call that never returns. */
  ghost predicate ReleaseCanHang(c: Config, n: nat) {
    exists s, i: nat :: ReachableBy(c, n, s) && i < |s.threads| && s.threads[i].pc.Delivering? && HangsForever(c, s, i)
  }

  /** Every request taken from the queue is still carried or was told, and whoever told it has
      returned from Release. */
  ghost predicate Handovers(s: State) {
    && |s.arrivals| == Count(s.threads, Entered)
    && |s.served| == Count(s.threads, Carrying) + Count(s.threads, Told)
    && Count(s.threads, Told) <= Count(s.threads, At(Done))
  }

  ghost predicate HandoverShift(s: State, s': State, i: nat, r: nat)
    requires OnlyMoved(s, s', i, r)
  {
    && |s'.arrivals| - |s.arrivals| == Shift(s, s', i, r, Entered)
    && |s'.served| - |s.served| == Shift(s, s', i, r, Carrying) + Shift(s, s', i, r, Told)
    && Shift(s, s', i, r, Told) <= Shift(s, s', i, r, At(Done))
  }

  lemma StepEntered(c: Config, s: State, a: Action)
    requires Ready(c, s, a)
    ensures var s' := Apply(c, s, a);
      && OnlyMoved(s, s', a.tid, Target(s, a))
      && |s'.arrivals| - |s.arrivals| == Shift(s, s', a.tid, Target(s, a), Entered)
  {
    StepMoves(c, s, a);
  }

  lemma StepHandoverShift(c: Config, s: State, a: Action)
    requires Ready(c, s, a)
    ensures OnlyMoved(s, Apply(c, s, a), a.tid, Target(s, a)) && HandoverShift(s, Apply(c, s, a), a.tid, Target(s, a))
  {
    StepMoves(c, s, a);
    StepEntered(c, s, a);
  }

  lemma {:induction false} RunHandovers(c: Config, n: nat, trace: seq<Action>)
    requires Exec(c, Init(n), trace).Some?
    ensures var s := Exec(c, Init(n), trace).value; |s.threads| == n && Inv(c, s) && Handovers(s)
  {
    hide Apply, Has, Inv, Ready;
    InitInv(c, n);
    RunInv(c, Init(n), trace);
    if trace == [] {
      assert |Init(n).threads| == n;
      CountFresh(Init(n).threads, Entered);
      CountFresh(Init(n).threads, Carrying);
      CountFresh(Init(n).threads, Told);
    } else {
      var prefix, a := trace[..|trace| - 1], trace[|trace| - 1];
      var s, s' := Exec(c, Init(n), prefix).value, Exec(c, Init(n), trace).value;
      RunHandovers(c, n, prefix);
      StepReady(c, s, a);
      StepHandoverShift(c, s, a);
      CountShift(s, s', a.tid, Target(s, a), Entered);
      CountShift(s, s', a.tid, Target(s, a), Carrying);
      CountShift(s, s', a.tid, Target(s, a), Told);
      CountShift(s, s', a.tid, Target(s, a), At(Done));
    }
  }

  /** A thread cannot be both a request that never came back and a releaser. */
  lemma OneRole(t: Thread, n: nat)
    requires ThreadOk(t, n)
    ensures Bit(Has(t, Entered)) + Bit(Has(t, Abandoned)) + Bit(Has(t, At(Done))) + Bit(Has(t, Carrying))
            <= 1 + Bit(Has(t, Told))
    ensures Has(t, Abandoned) ==> Has(t, Told)
  {}

  lemma {:induction false} RolesExclude(ts: seq<Thread>, n: nat)
    requires forall i :: 0 <= i < |ts| ==> ThreadOk(ts[i], n)
    ensures Count(ts, Entered) + Count(ts, Abandoned) + Count(ts, At(Done)) + Count(ts, Carrying)
            <= |ts| + Count(ts, Told)
    ensures Count(ts, Abandoned) <= Count(ts, Told)
  {
    hide Has, ThreadOk;
    if ts != [] {
      RolesExclude(ts[..|ts| - 1], n);
      OneRole(ts[|ts| - 1], n);
    }
  }

  lemma {:induction false} DelivererCounts(ts: seq<Thread>, i: nat)
    requires i < |ts| && ts[i].pc.Delivering?
    ensures Count(ts, Granting) < Count(ts, Carrying)
  {
    if i < |ts| - 1 { DelivererCounts(ts[..|ts| - 1], i); } else { GrantersCarry(ts[..|ts| - 1]); }
  }

  lemma {:induction false} GrantersCarry(ts: seq<Thread>)
    ensures Count(ts, Granting) <= Count(ts, Carrying)
  {
    if ts != [] { GrantersCarry(ts[..|ts| - 1]); }
  }

  lemma DoomedOwners(s: State)
    requires AllDoomed(s)
    ensures Count(s.threads, Owner) == Count(s.threads, Abandoned) + Count(s.threads, Granting)
  {
    OwnersSplit(s.threads);
    DeadHasNoneLive(s);
    CountWitness(s.threads, Granted);
    forall j: nat | j < |s.threads| ensures !Has(s.threads[j], Granted) {
      assert Has(s.threads[j], Owner) ==> Doomed(s, j);
    }
  }

  /** A hang takes two requests for each slot, one that left and one that released to it, and
      two more for the releaser that finds no slot. */
  lemma HangTakesThreads(c: Config, n: nat, s: State, i: nat)
    requires ReachableBy(c, n, s) && i < |s.threads| && s.threads[i].pc.Delivering?
    requires s.semaphore == c.maxConcurrent && AllDoomed(s)
    ensures n >= 2 * c.maxConcurrent + 2
  {
    hide AllDoomed, Has;
    var trace :| Exec(c, Init(n), trace) == Some(s);
    RunHandovers(c, n, trace);
    RolesExclude(s.threads, n);
    DelivererCounts(s.threads, i);
    DoomedOwners(s);
  }

  ghost predicate NeverReleases(t: Thread) {
    t.pc.Idle? || t.pc.Overflow? || t.pc.Enqueued? || t.pc.Waiting? || t.pc.GaveUp? || t.pc.Rejected?
  }

  lemma {:induction false} NoSlotsNoRelease(c: Config, n: nat, trace: seq<Action>)
    requires c.maxConcurrent == 0 && Exec(c, Init(n), trace).Some?
    ensures var s := Exec(c, Init(n), trace).value; forall i :: 0 <= i < |s.threads| ==> NeverReleases(s.threads[i])
  {
    if trace != [] {
      var prefix, a := trace[..|trace| - 1], trace[|trace| - 1];
      var s := Exec(c, Init(n), prefix).value;
      NoSlotsNoRelease(c, n, prefix);
      InitInv(c, n);
      RunInv(c, Init(n), prefix);
      StepReady(c, s, a);
      StepMoves(c, s, a);
      CountWitness(s.threads, Owner);
      assert NeverReleases(s.threads[a.tid]) && !Has(s.threads[a.tid], Owner);
    }
  }

  lemma NoQueueNoCarrying(c: Config, n: nat, trace: seq<Action>)
    requires c.queueSize == 0 && Exec(c, Init(n), trace).Some?
    ensures Count(Exec(c, Init(n), trace).value.threads, Carrying) == 0
  {
    hide Exec, ThreadOk, OnePlace, Ledgers;
    var s := Exec(c, Init(n), trace).value;
    RunUnqueued(c, n, trace);
    RunHandovers(c, n, trace);
    CountWitness(s.threads, Entered);
    forall i | 0 <= i < |s.threads| ensures !Has(s.threads[i], Entered) {
      assert Unqueued(c, s.threads[i], n);
    }
  }

  lemma NothingToDeliver(c: Config, n: nat, s: State, i: nat)
    requires ReachableBy(c, n, s) && i < |s.threads|
    requires c.maxConcurrent == 0 || c.queueSize == 0
    ensures !s.threads[i].pc.Delivering?
  {
    hide Exec;
    var trace :| Exec(c, Init(n), trace) == Some(s);
    if c.maxConcurrent == 0 {
      NoSlotsNoRelease(c, n, trace);
      assert NeverReleases(s.threads[i]);
    } else {
      NoQueueNoCarrying(c, n, trace);
      CountWitness(s.threads, Carrying);
      assert !Has(s.threads[i], Carrying);
    }
  }

  // ---- A schedule that hangs -------------------------------------------------------------

  lemma RunOn(c: Config, n: nat, s: State, a: Action) returns (t: State)
    requires ReachableBy(c, n, s) && Enabled(c, s, a)
    ensures t == Apply(c, s, a) && ReachableBy(c, n, t)
  {
    t := Apply(c, s, a);
    var trace: seq<Action> :| Exec(c, Init(n), trace) == Some(s);
    ExecSnoc(c, Init(n), trace, a);
  }

  /** Request `b`, refused a slot, queues and leaves. */
  lemma QueueAndLeave(c: Config, n: nat, s: State, b: nat) returns (t: State)
    requires ReachableBy(c, n, s) && b < |s.threads| && s.threads[b].pc.Overflow? && |s.queue| < c.queueSize
    ensures ReachableBy(c, n, t) && t.semaphore == s.semaphore && t.queue == s.queue + [b]
    ensures t.threads == s.threads[b := s.threads[b].(pc := GaveUp, entered := true)]
  {
    t := RunOn(c, n, s, Step(b));
    t := RunOn(c, n, t, Step(b));
    t := RunOn(c, n, t, Abandon(b));
  }

  /** Holder `a` gives its slot back and takes the only request from the queue. */
  lemma TakeOver(c: Config, n: nat, s: State, a: nat, b: nat) returns (t: State)
    requires ReachableBy(c, n, s) && a < |s.threads| && s.threads[a].pc.Holding? && s.semaphore > 0 && s.queue == [b]
    ensures ReachableBy(c, n, t) && t.semaphore == s.semaphore - 1 && t.queue == []
    ensures t.threads == s.threads[a := s.threads[a].(pc := Delivering(b))]
  {
    t := RunOn(c, n, s, Step(a));
    t := RunOn(c, n, t, Step(a));
    t := RunOn(c, n, t, Step(a));
  }

  /** Of the first `m` threads, the first `k` carry the thread `m` places on. */
  ghost predicate Carry(s: State, k: nat, m: nat, resent: bool) {
    k <= |s.threads| && forall i: nat :: i < k ==>
      s.threads[i].pc == if resent then Resent(m + i) else Delivering(m + i)
  }

  /** The first `k` holders have each taken over a request that had left. */
  ghost predicate HandedOver(c: Config, n: nat, s: State, k: nat) {
    var m := c.maxConcurrent;
    && |s.threads| == n && s.semaphore == m - k && s.queue == []
    && Carry(s, k, m, false) && Stand(s, k, m, Holding) && Stand(s, m, m + k, GaveUp)
    && Stand(s, m + k, 2 * m + 1, Overflow) && Stand(s, 2 * m + 1, n, Idle)
  }

  lemma OneMoreHandedOver(c: Config, n: nat, s: State, k: nat, t: State)
    requires HandedOver(c, n, s, k) && k < c.maxConcurrent && n >= 2 * c.maxConcurrent + 2
    requires t.semaphore == s.semaphore - 1 && t.queue == [] && |t.threads| == n
    requires t.threads[k].pc == Delivering(c.maxConcurrent + k) && t.threads[c.maxConcurrent + k].pc == GaveUp
    requires t.threads[c.maxConcurrent + k].inbox == 0
    requires forall i :: 0 <= i < n && i != k && i != c.maxConcurrent + k ==> t.threads[i] == s.threads[i]
    ensures HandedOver(c, n, t, k + 1)
  {}

  lemma {:induction false} TakenOver(c: Config, n: nat, k: nat) returns (s: State)
    requires c.queueSize >= 1 && k <= c.maxConcurrent && n >= 2 * c.maxConcurrent + 2
    ensures ReachableBy(c, n, s) && HandedOver(c, n, s, k)
    decreases k
  {
    hide Exec, Apply, ReachableBy;
    if k == 0 {
      s := Crowded(c, n, c.maxConcurrent + 1);
      PatientIsReachable(c, n, s);
    } else {
      var b := c.maxConcurrent + k - 1;
      var t := TakenOver(c, n, k - 1);
      s := QueueAndLeave(c, n, t, b);
      s := TakeOver(c, n, s, k - 1, b);
      OneMoreHandedOver(c, n, t, k - 1, s);
    }
  }

  lemma PatientIsReachable(c: Config, n: nat, s: State)
    requires Patient(c, n, s)
    ensures ReachableBy(c, n, s)
  {}

  /** One more request is admitted. */
  lemma SlippedIn(c: Config, n: nat) returns (s: State)
    requires c.maxConcurrent >= 1 && c.queueSize >= 1 && n >= 2 * c.maxConcurrent + 2
    ensures var m := c.maxConcurrent;
      && ReachableBy(c, n, s) && |s.threads| == n && s.semaphore == 1 && s.queue == []
      && Carry(s, m, m, false) && Stand(s, m, 2 * m, GaveUp) && Stand(s, 2 * m, 2 * m + 1, Overflow)
      && Stand(s, 2 * m + 1, 2 * m + 2, Holding) && Stand(s, 2 * m + 2, n, Idle)
  {
    var m := c.maxConcurrent;
    s := TakenOver(c, n, m);
    s := RunOn(c, n, s, Step(2 * m + 1));
    s := RunOn(c, n, s, Step(2 * m + 1));
  }

  /** It takes over the last of those that leave. */
  lemma AllTakenOver(c: Config, n: nat) returns (s: State)
    requires c.maxConcurrent >= 1 && c.queueSize >= 1 && n >= 2 * c.maxConcurrent + 2
    ensures var m := c.maxConcurrent;
      && ReachableBy(c, n, s) && |s.threads| == n && s.semaphore == 0
      && Carry(s, m, m, false) && Stand(s, m, 2 * m + 1, GaveUp)
      && s.threads[2 * m + 1].pc == Delivering(2 * m) && Stand(s, 2 * m + 2, n, Idle)
  {
    var m := c.maxConcurrent;
    s := SlippedIn(c, n);
    s := QueueAndLeave(c, n, s, 2 * m);
    s := TakeOver(c, n, s, 2 * m + 1, 2 * m);
  }

  /** The first `k` releasers have taken a slot for the request they carry. */
  lemma {:induction false} SlotsPromised(c: Config, n: nat, k: nat) returns (s: State)
    requires c.maxConcurrent >= 1 && c.queueSize >= 1 && n >= 2 * c.maxConcurrent + 2 && k <= c.maxConcurrent
    ensures var m := c.maxConcurrent;
      && ReachableBy(c, n, s) && |s.threads| == n && s.semaphore == k
      && Carry(s, k, m, true) && (forall i: nat :: k <= i < m ==> s.threads[i].pc == Delivering(m + i))
      && Stand(s, m, 2 * m + 1, GaveUp)
      && s.threads[2 * m + 1].pc == Delivering(2 * m) && Stand(s, 2 * m + 2, n, Idle)
    decreases k
  {
    hide Exec, ReachableBy;
    if k == 0 {
      s := AllTakenOver(c, n);
    } else {
      s := SlotsPromised(c, n, k - 1);
      s := RunOn(c, n, s, Step(k - 1));
    }
  }

  lemma EnoughToHang(c: Config, n: nat)
    requires c.maxConcurrent >= 1 && c.queueSize >= 1 && n >= 2 * c.maxConcurrent + 2
    ensures ReleaseCanHang(c, n)
  {
    hide Exec, HangsForever;
    var m := c.maxConcurrent;
    var s := SlotsPromised(c, n, m);
    forall j: nat | j < |s.threads| && Has(s.threads[j], Owner) ensures Doomed(s, j) {
      if j < m { assert s.threads[j].pc == Resent(m + j) && s.threads[m + j].pc.GaveUp?; }
    }
    var trace: seq<Action> :| Exec(c, Init(n), trace) == Some(s);
    BlockedReleaserHangsIff(c, s, 2 * m + 1);
  }

  /** A Release call can hang for ever under some schedule of `n` requests exactly when there
      are slots, a queue, and two requests for each slot and two more. */
  lemma ReleaseCanHangIff(c: Config, n: nat)
    ensures ReleaseCanHang(c, n) <==> c.maxConcurrent >= 1 && c.queueSize >= 1 && n >= 2 * c.maxConcurrent + 2
  {
    if s, i: nat :| ReachableBy(c, n, s) && i < |s.threads| && s.threads[i].pc.Delivering? && HangsForever(c, s, i) {
      if c.maxConcurrent == 0 || c.queueSize == 0 { NothingToDeliver(c, n, s, i); }
      HangerIsBlocked(c, n, s, i);
      BlockedReleaserHangsIff(c, s, i);
      HangTakesThreads(c, n, s, i);
    }
    if c.maxConcurrent >= 1 && c.queueSize >= 1 && n >= 2 * c.maxConcurrent + 2 { EnoughToHang(c, n); }
  }

  lemma HangerIsBlocked(c: Config, n: nat, s: State, i: nat)
    requires ReachableBy(c, n, s) && i < |s.threads| && s.threads[i].pc.Delivering? && HangsForever(c, s, i)
    ensures Reachable(c, s) && !Enabled(c, s, Step(i)) && s.semaphore == c.maxConcurrent
  {
    hide Exec, Apply;
    var trace: seq<Action> :| Exec(c, Init(n), trace) == Some(s);
    ReachableInv(c, s);
    if Enabled(c, s, Step(i)) {
      EscapesNow(c, s, i, s.threads[i].pc.req);
      EscapeIsAMove(c, s, i, s.threads[i].pc.req);
    }
  }
}
