/** Patient runs of the bulkhead, in which no wait times out or is cancelled, and exactly when
    none of them can strand a request in the queue. */
module BulkheadWakeups {
  import opened Arithmetic
  import opened Wrappers
  import opened BulkheadProtocol
  import opened BulkheadSafety
  import opened BulkheadTheorems

  /** `n` requests can reach this state without anybody leaving a wait. */
  ghost predicate Patient(c: Config, n: nat, s: State) {
    exists trace: seq<Action> :: (forall k :: 0 <= k < |trace| ==> trace[k].Step?) && Exec(c, Init(n), trace) == Some(s)
  }

  ghost predicate Stuck(c: Config, s: State) {
    forall j: nat :: j < |s.threads| ==> !Enabled(c, s, Step(j))
  }

  /** Whatever the schedule, no request is left waiting once nothing can move any more. */
  ghost predicate NobodyStranded(c: Config, n: nat) {
    forall s :: Patient(c, n, s) && Stuck(c, s) ==> forall i :: 0 <= i < |s.threads| ==> !s.threads[i].pc.Waiting?
  }

  // ---- Nobody queues ---------------------------------------------------------------------

  lemma {:induction false} SomeoneLacks(ts: seq<Thread>, i: nat, m: Mark)
    requires i < |ts| && !Has(ts[i], m)
    ensures Count(ts, m) < |ts|
  {
    if i < |ts| - 1 { SomeoneLacks(ts[..|ts| - 1], i, m); } else { CountBound(ts[..|ts| - 1], m); }
  }

  lemma {:induction false} CountBound(ts: seq<Thread>, m: Mark)
    ensures Count(ts, m) <= |ts|
  {
    if ts != [] { CountBound(ts[..|ts| - 1], m); }
  }

  ghost predicate Unqueued(c: Config, t: Thread, n: nat) {
    !t.entered && (t.pc.Overflow? ==> n > c.maxConcurrent)
  }

  ghost predicate AllUnqueued(c: Config, s: State) {
    forall i :: 0 <= i < |s.threads| ==> Unqueued(c, s.threads[i], |s.threads|)
  }

  lemma StepUnqueued(c: Config, s: State, a: Action)
    requires Inv(c, s) && Enabled(c, s, a) && AllUnqueued(c, s)
    requires |s.threads| <= c.maxConcurrent || c.queueSize == 0
    ensures |Apply(c, s, a).threads| == |s.threads| && AllUnqueued(c, Apply(c, s, a))
  {
    var i := a.tid;
    StepReady(c, s, a);
    StepMoves(c, s, a);
    assert Unqueued(c, s.threads[i], |s.threads|);
    if s.threads[i].pc.Idle? { SomeoneLacks(s.threads, i, Owner); }
  }

  /** While the slots go round or the queue has no room, nobody ever queues, whatever the run. */
  lemma {:induction false} RunUnqueued(c: Config, n: nat, trace: seq<Action>)
    requires n <= c.maxConcurrent || c.queueSize == 0
    requires Exec(c, Init(n), trace).Some?
    ensures var s := Exec(c, Init(n), trace).value; |s.threads| == n && AllUnqueued(c, s)
  {
    if trace != [] {
      var prefix := trace[..|trace| - 1];
      RunUnqueued(c, n, prefix);
      InitInv(c, n);
      RunInv(c, Init(n), prefix);
      StepUnqueued(c, Exec(c, Init(n), prefix).value, trace[|trace| - 1]);
    }
  }

  lemma RoomForAll(c: Config, n: nat)
    requires n <= c.maxConcurrent || c.queueSize == 0
    ensures NobodyStranded(c, n)
  {
    forall s, i | Patient(c, n, s) && 0 <= i < |s.threads| ensures !s.threads[i].pc.Waiting? {
      var trace: seq<Action> :| Exec(c, Init(n), trace) == Some(s);
      RunUnqueued(c, n, trace);
      InitInv(c, n);
      RunInv(c, Init(n), trace);
      assert ThreadOk(s.threads[i], n) && Unqueued(c, s.threads[i], n);
    }
  }

  // ---- Someone is stranded ---------------------------------------------------------------

  lemma PatientStart(c: Config, n: nat) returns (s: State)
    ensures s == Init(n) && Patient(c, n, s)
  {
    s := Init(n);
    assert Exec(c, Init(n), []) == Some(s);
  }

  lemma PatientNext(c: Config, n: nat, s: State, i: nat) returns (t: State)
    requires Patient(c, n, s) && Enabled(c, s, Step(i))
    ensures t == Apply(c, s, Step(i)) && Patient(c, n, t)
  {
    t := Apply(c, s, Step(i));
    var trace: seq<Action> :| (forall k :: 0 <= k < |trace| ==> trace[k].Step?) && Exec(c, Init(n), trace) == Some(s);
    ExecSnoc(c, Init(n), trace, Step(i));
    assert forall k :: 0 <= k < |trace + [Step(i)]| ==> (trace + [Step(i)])[k].Step?;
  }

  /** The threads from `from` up to `to` are all at `pc`, with nothing in their channels. */
  ghost predicate Stand(s: State, from: nat, to: nat, pc: Pc) {
    to <= |s.threads| && forall i :: from <= i < to ==> s.threads[i].pc == pc && s.threads[i].inbox == 0
  }

  lemma {:induction false} Filled(c: Config, n: nat, k: nat) returns (s: State)
    requires k <= c.maxConcurrent && k <= n
    ensures Patient(c, n, s) && |s.threads| == n && s.semaphore == k && s.queue == []
    ensures Stand(s, 0, k, Holding) && Stand(s, k, n, Idle)
  {
    hide Exec, Patient;
    if k == 0 {
      s := PatientStart(c, n);
    } else {
      s := Filled(c, n, k - 1);
      s := PatientNext(c, n, s, k - 1);
      s := PatientNext(c, n, s, k - 1);
    }
  }

  /** The first threads hold all slots and the next `m` have found the semaphore full. */
  lemma {:induction false} Crowded(c: Config, n: nat, m: nat) returns (s: State)
    requires c.maxConcurrent + m <= n
    ensures Patient(c, n, s) && |s.threads| == n && s.semaphore == c.maxConcurrent && s.queue == []
    ensures Stand(s, 0, c.maxConcurrent, Holding) && Stand(s, c.maxConcurrent, c.maxConcurrent + m, Overflow)
    ensures Stand(s, c.maxConcurrent + m, n, Idle)
    decreases m
  {
    hide Exec, Patient;
    if m == 0 {
      s := Filled(c, n, c.maxConcurrent);
    } else {
      s := Crowded(c, n, m - 1);
      s := PatientNext(c, n, s, c.maxConcurrent + m - 1);
    }
  }

  /** Then the first `k` of them release without finding anybody in the queue. */
  lemma {:induction false} Vacated(c: Config, n: nat, k: nat) returns (s: State)
    requires k <= c.maxConcurrent <= n
    ensures Patient(c, n, s) && |s.threads| == n && s.semaphore == c.maxConcurrent - k && s.queue == []
    ensures Stand(s, 0, k, Done) && Stand(s, k, c.maxConcurrent, Holding) && Stand(s, c.maxConcurrent, n, Overflow)
    decreases k
  {
    hide Exec, Patient;
    if k == 0 {
      s := Crowded(c, n, n - c.maxConcurrent);
    } else {
      s := Vacated(c, n, k - 1);
      s := PatientNext(c, n, s, k - 1);
      s := PatientNext(c, n, s, k - 1);
      s := PatientNext(c, n, s, k - 1);
    }
  }

  /** Only now do the others try the queue: `m` of them have, and the first of them waits. */
  lemma {:induction false} Stranded(c: Config, n: nat, m: nat) returns (s: State)
    requires c.queueSize > 0 && 1 <= m && c.maxConcurrent + m <= n
    ensures Patient(c, n, s) && |s.threads| == n
    ensures Stand(s, 0, c.maxConcurrent, Done) && Stand(s, c.maxConcurrent, c.maxConcurrent + 1, Waiting)
    ensures forall i :: c.maxConcurrent < i < c.maxConcurrent + m ==>
      s.threads[i].inbox == 0 && (s.threads[i].pc.Waiting? || s.threads[i].pc.Rejected?)
    ensures Stand(s, c.maxConcurrent + m, n, Overflow)
    decreases m
  {
    hide Exec, Patient;
    var i := c.maxConcurrent + m - 1;
    if m == 1 { s := Vacated(c, n, c.maxConcurrent); } else { s := Stranded(c, n, m - 1); }
    s := PatientNext(c, n, s, i);
    if s.threads[i].pc.Enqueued? { s := PatientNext(c, n, s, i); }
  }

  lemma CrowdCanStrand(c: Config, n: nat)
    requires n > c.maxConcurrent && c.queueSize > 0
    ensures !NobodyStranded(c, n)
  {
    var s := Stranded(c, n, n - c.maxConcurrent);
    assert Stuck(c, s);
    assert s.threads[c.maxConcurrent].pc.Waiting?;
  }

  /** Work conservation holds for every schedule of `n` requests exactly when they all fit
      into the slots or there is no queue to wait in. */
  lemma NobodyStrandedIff(c: Config, n: nat)
    ensures NobodyStranded(c, n) <==> n <= c.maxConcurrent || c.queueSize == 0
  {
    if n <= c.maxConcurrent || c.queueSize == 0 { RoomForAll(c, n); } else { CrowdCanStrand(c, n); }
  }

  // ---- Calls in progress -----------------------------------------------------------------

  /** At no moment of this run were more than `k` calls in progress. */
  ghost predicate Within(c: Config, n: nat, k: nat, trace: seq<Action>) {
    && Exec(c, Init(n), trace).Some?
    && Count(Exec(c, Init(n), trace).value.threads, InCall) <= k
    && (trace != [] ==> Within(c, n, k, trace[..|trace| - 1]))
  }

  /** However many requests come, with never more than `k` of them at a time, none is left
      waiting once nothing can move any more. */
  ghost predicate NobodyStrandedWithin(c: Config, k: nat) {
    forall n: nat, trace: seq<Action> ::
      && Within(c, n, k, trace) && (forall j :: 0 <= j < |trace| ==> trace[j].Step?)
      && Stuck(c, Exec(c, Init(n), trace).value)
      ==> forall i :: 0 <= i < n ==> !NowWaiting(c, n, trace, i)
  }

  ghost predicate NowWaiting(c: Config, n: nat, trace: seq<Action>, i: nat) {
    Exec(c, Init(n), trace).Some? &&
    var s := Exec(c, Init(n), trace).value;
    i < |s.threads| && s.threads[i].pc.Waiting?
  }

  ghost predicate NoneQueued(c: Config, s: State, k: nat) {
    forall i :: 0 <= i < |s.threads| ==> Unqueued(c, s.threads[i], k)
  }

  lemma {:induction false} OwnersAreInCalls(ts: seq<Thread>, n: nat)
    requires forall i :: 0 <= i < |ts| ==> ThreadOk(ts[i], n) && !ts[i].entered
    ensures Count(ts, Owner) <= Count(ts, InCall)
  {
    if ts != [] { OwnersAreInCalls(ts[..|ts| - 1], n); }
  }

  lemma StepWithin(c: Config, s: State, a: Action, k: nat)
    requires Inv(c, s) && Enabled(c, s, a) && NoneQueued(c, s, k)
    requires k <= c.maxConcurrent || c.queueSize == 0
    requires Count(Apply(c, s, a).threads, InCall) <= k
    ensures NoneQueued(c, Apply(c, s, a), k)
  {
    hide Inv, Count;
    var i := a.tid;
    StepReady(c, s, a);
    StepMoves(c, s, a);
    assert Unqueued(c, s.threads[i], k);
    if s.threads[i].pc.Idle? {
      CountUpdate(s.threads, i, Apply(c, s, a).threads[i], InCall);
      SlotsAreInCalls(c, s, k);
    }
  }

  lemma SlotsAreInCalls(c: Config, s: State, k: nat)
    requires Inv(c, s) && NoneQueued(c, s, k)
    ensures s.semaphore <= Count(s.threads, InCall)
  {
    hide OnePlace, Count;
    assert forall j :: 0 <= j < |s.threads| ==> Unqueued(c, s.threads[j], k);
    OwnersAreInCalls(s.threads, |s.threads|);
  }

  lemma {:induction false} RunWithin(c: Config, n: nat, k: nat, trace: seq<Action>)
    requires k <= c.maxConcurrent || c.queueSize == 0
    requires Within(c, n, k, trace)
    ensures NoneQueued(c, Exec(c, Init(n), trace).value, k)
  {
    if trace != [] {
      var prefix := trace[..|trace| - 1];
      RunWithin(c, n, k, prefix);
      InitInv(c, n);
      RunInv(c, Init(n), prefix);
      StepWithin(c, Exec(c, Init(n), prefix).value, trace[|trace| - 1], k);
    }
  }

  lemma {:induction false} FewAreWithin(c: Config, n: nat, k: nat, trace: seq<Action>)
    requires n <= k && Exec(c, Init(n), trace).Some? && forall j :: 0 <= j < |trace| ==> trace[j].Step?
    ensures Within(c, n, k, trace)
  {
    PatientRun(c, n, trace);
    CountBound(Exec(c, Init(n), trace).value.threads, InCall);
    if trace != [] { FewAreWithin(c, n, k, trace[..|trace| - 1]); }
  }

  lemma NobodyWaitsWithin(c: Config, n: nat, k: nat, trace: seq<Action>, i: nat)
    requires k <= c.maxConcurrent || c.queueSize == 0
    requires Within(c, n, k, trace)
    ensures !NowWaiting(c, n, trace, i)
  {
    hide Exec, Count, OnePlace;
    RunWithin(c, n, k, trace);
    InitInv(c, n);
    RunInv(c, Init(n), trace);
    var s := Exec(c, Init(n), trace).value;
    if i < |s.threads| { assert ThreadOk(s.threads[i], |s.threads|) && Unqueued(c, s.threads[i], k); }
  }

  lemma OneTooMany(c: Config, k: nat)
    requires k > c.maxConcurrent && c.queueSize > 0
    ensures !NobodyStrandedWithin(c, k)
  {
    hide Exec, Count, Within;
    var n := c.maxConcurrent + 1;
    var s := Stranded(c, n, 1);
    var trace: seq<Action> :|
      (forall j :: 0 <= j < |trace| ==> trace[j].Step?) && Exec(c, Init(n), trace) == Some(s);
    FewAreWithin(c, n, k, trace);
    assert Stuck(c, s) && NowWaiting(c, n, trace, c.maxConcurrent);
  }

  /** Work conservation holds for every schedule of any number of requests, at most `k` at a
      time, exactly when `k` is at most the number of slots or there is no queue. */
  lemma NobodyStrandedWithinIff(c: Config, k: nat)
    ensures NobodyStrandedWithin(c, k) <==> k <= c.maxConcurrent || c.queueSize == 0
  {
    hide Within, NowWaiting, Stuck, Exec;
    if k <= c.maxConcurrent || c.queueSize == 0 {
      forall n: nat, trace: seq<Action>, i: nat | Within(c, n, k, trace) ensures !NowWaiting(c, n, trace, i) {
        NobodyWaitsWithin(c, n, k, trace, i);
      }
    } else {
      OneTooMany(c, k);
    }
  }

  // ---- How patient runs end --------------------------------------------------------------

  lemma PatientStep(c: Config, s: State, a: Action)
    requires Inv(c, s) && Enabled(c, s, a) && a.Step?
    ensures var s' := Apply(c, s, a);
      && |s'.threads| == |s.threads|
      && forall i :: 0 <= i < |s.threads| && s'.threads[i].pc.GaveUp? ==> s.threads[i].pc.GaveUp?
  {
    StepReady(c, s, a);
    StepMoves(c, s, a);
  }

  lemma {:induction false} PatientRun(c: Config, n: nat, trace: seq<Action>)
    requires Exec(c, Init(n), trace).Some? && forall k :: 0 <= k < |trace| ==> trace[k].Step?
    ensures var s := Exec(c, Init(n), trace).value;
      |s.threads| == n && forall i :: 0 <= i < |s.threads| ==> !s.threads[i].pc.GaveUp?
  {
    if trace != [] {
      var prefix := trace[..|trace| - 1];
      PatientRun(c, n, prefix);
      InitInv(c, n);
      RunInv(c, Init(n), prefix);
      PatientStep(c, Exec(c, Init(n), prefix).value, trace[|trace| - 1]);
    }
  }

  lemma PatientLoses(c: Config, n: nat, s: State)
    requires Patient(c, n, s)
    ensures Reachable(c, s) && Inv(c, s) && |s.threads| == n && Count(s.threads, Abandoned) == 0
    ensures forall i :: 0 <= i < n ==> !s.threads[i].pc.GaveUp?
  {
    var trace: seq<Action> :|
      (forall k :: 0 <= k < |trace| ==> trace[k].Step?) && Exec(c, Init(n), trace) == Some(s);
    ReachableInv(c, s);
    PatientRun(c, n, trace);
    CountWitness(s.threads, Abandoned);
  }

  /** How the call of one request ended. */
  ghost predicate EndsWell(c: Config, s: State, r: nat)
    requires r < |s.threads|
  {
    var t := s.threads[r];
    || t.pc.Rejected?
    || (t.pc.Done? && t.grants == Bit(t.entered))
    || (t.pc.Waiting? && r in s.queue && |s.threads| > c.maxConcurrent && c.queueSize > 0)
  }

  lemma CallEndsWell(c: Config, n: nat, s: State, r: nat)
    requires Patient(c, n, s) && Stuck(c, s) && r < |s.threads|
    requires Inv(c, s) && Settled(s) && |s.threads| == n && !s.threads[r].pc.GaveUp?
    requires s.threads[r].pc.Waiting? ==> r in s.queue
    ensures EndsWell(c, s, r)
  {
    hide Stuck, Patient, Shape, Ledgers, OnePlace, Count;
    NobodyStrandedIff(c, n);
    ThreadOf(c, s, r);
  }

  lemma ThreadOf(c: Config, s: State, r: nat)
    requires Inv(c, s) && r < |s.threads|
    ensures ThreadOk(s.threads[r], |s.threads|)
  {}

  /** A patient run, driven until no thread can move, ends with every slot free and both
      counters exact; each request was refused, or finished with exactly one grant if it had
      queued, or was stranded in the queue, which takes more requests than slots and a queue. */
  lemma PatientRunsEndClean(c: Config, n: nat, s: State)
    requires c.maxConcurrent >= 1 && Patient(c, n, s) && Stuck(c, s)
    ensures |s.threads| == n && s.semaphore == 0 && s.activeCount == 0 && s.queuedCount == |s.queue|
    ensures forall r: nat :: r < n ==> EndsWell(c, s, r)
  {
    hide Patient, Exec, ThreadOk, OnePlace, Count, EndsWell;
    PatientLoses(c, n, s);
    StuckIsLostWakeup(c, s);
    SettledAccount(c, s);
    forall r: nat | r < n ensures EndsWell(c, s, r) { CallEndsWell(c, n, s, r); }
  }
}
