/** The slot and queue protocol of `ServiceBulkhead` (internal/gateway/bulkhead.go) as an
    interleaving machine. Every shared-memory access of the source is one step; any number of
    request threads run at once, each making one TryAcquire call and, when it succeeds, one
    Release call. */
module BulkheadProtocol {
  import opened Arithmetic
  import opened Wrappers

  datatype Config = Config(maxConcurrent: nat, queueSize: nat)

  /** Where a request thread stands; the line is the next source line it will execute. */
  datatype Pc =
    | Idle                  // 48: try the semaphore
    | Admitted              // 51: slot taken, activeCount not yet raised
    | Overflow              // 86: semaphore was full, try the queue
    | Enqueued              // 88: in the queue, queuedCount not yet raised
    | Waiting               // 92: response, timeout or cancellation
    | Holding               // TryAcquire returned nil; 59: about to release
    | Draining              // 62: slot given back, activeCount not yet lowered
    | Polling               // 66: look for a queued request
    | Delivering(req: nat)  // 68: request dequeued, its slot not yet taken
    | Resent(req: nat)      // 70: slot taken for the request, counters not yet moved
    | Replying(req: nat)    // 73: tell the request
    | Done                  // Release returned
    | Rejected              // TryAcquire returned "queue is full"
    | GaveUp                // TryAcquire returned on timeout or cancellation

  /** `inbox` is the number of messages in the response channel of capacity 1. `entered` and
      `grants` are history: did the thread pass line 86, and how many messages was it sent. */
  datatype Thread = Thread(pc: Pc, inbox: nat, entered: bool, grants: nat)

  /** A thread is named by its index. The semaphore carries no data, so its length is its
      whole state. `arrivals` and `served` record the requests in the order of lines 86 and 67. */
  datatype State = State(
    semaphore: nat, queue: seq<nat>, activeCount: int, queuedCount: int,
    threads: seq<Thread>, arrivals: seq<nat>, served: seq<nat>)

  datatype Action =
    | Step(tid: nat)     // the thread executes its next line
    | Abandon(tid: nat)  // a waiting thread times out or is cancelled (lines 95 and 97)

  const FRESH := Thread(Idle, 0, false, 0)

  function Init(n: nat): State {
    State(0, [], 0, 0, seq(n, _ => FRESH), [], [])
  }

  /** A channel operation without a default branch is disabled while it would block. */
  predicate Enabled(c: Config, s: State, a: Action) {
    a.tid < |s.threads| &&
    var t := s.threads[a.tid];
    match a
    case Abandon(_) => t.pc.Waiting?
    case Step(_) =>
      match t.pc
      case Waiting => t.inbox > 0
      case Holding => s.semaphore > 0
      case Delivering(_) => s.semaphore < c.maxConcurrent
      case Replying(r) => r < |s.threads| && s.threads[r].inbox < 1
      case Done => false
      case Rejected => false
      case GaveUp => false
      case _ => true
  }

  function Goto(s: State, i: nat, pc: Pc): State
    requires i < |s.threads|
  {
    s.(threads := s.threads[i := s.threads[i].(pc := pc)])
  }

  function Apply(c: Config, s: State, a: Action): State
    requires Enabled(c, s, a)
  {
    var i := a.tid;
    var t := s.threads[i];
    match a
    case Abandon(_) => Goto(s, i, GaveUp)
    case Step(_) =>
      match t.pc
      case Idle =>
        if s.semaphore < c.maxConcurrent
        then Goto(s, i, Admitted).(semaphore := s.semaphore + 1)
        else Goto(s, i, Overflow)
      case Admitted => Goto(s, i, Holding).(activeCount := s.activeCount + 1)
      case Overflow =>
        if |s.queue| < c.queueSize
        then s.(threads := s.threads[i := t.(pc := Enqueued, entered := true)],
                queue := s.queue + [i], arrivals := s.arrivals + [i])
        else Goto(s, i, Rejected)
      case Enqueued => Goto(s, i, Waiting).(queuedCount := s.queuedCount + 1)
      case Waiting => s.(threads := s.threads[i := t.(pc := Holding, inbox := t.inbox - 1)])
      case Holding => Goto(s, i, Draining).(semaphore := s.semaphore - 1)
      case Draining => Goto(s, i, Polling).(activeCount := s.activeCount - 1)
      case Polling =>
        if |s.queue| > 0
        then Goto(s, i, Delivering(s.queue[0])).(queue := s.queue[1..], served := s.served + [s.queue[0]])
        else Goto(s, i, Done)
      case Delivering(r) => Goto(s, i, Resent(r)).(semaphore := s.semaphore + 1)
      case Resent(r) => Goto(s, i, Replying(r)).(activeCount := s.activeCount + 1, queuedCount := s.queuedCount - 1)
      case Replying(r) =>
        var u := s.threads[r];
        Goto(s.(threads := s.threads[r := u.(inbox := u.inbox + 1, grants := u.grants + 1)]), i, Done)
      case _ => s
  }

  /** The state a schedule leads to, or None when it asks for a disabled step. */
  function Exec(c: Config, s: State, trace: seq<Action>): Option<State> {
    if trace == [] then Some(s) else
    match Exec(c, s, trace[..|trace| - 1])
    case Some(t) => if Enabled(c, t, trace[|trace| - 1]) then Some(Apply(c, t, trace[|trace| - 1])) else None
    case None => None
  }

  ghost predicate Reachable(c: Config, s: State) {
    exists n: nat, trace: seq<Action> :: Exec(c, Init(n), trace) == Some(s)
  }

  lemma ExecSnoc(c: Config, s: State, trace: seq<Action>, a: Action)
    requires Exec(c, s, trace).Some? && Enabled(c, Exec(c, s, trace).value, a)
    ensures Exec(c, s, trace + [a]) == Some(Apply(c, Exec(c, s, trace).value, a))
  {
    var whole := trace + [a];
    assert whole[..|whole| - 1] == trace;
  }

  lemma {:induction false} ExecCons(c: Config, s: State, a: Action, trace: seq<Action>)
    requires Enabled(c, s, a)
    ensures Exec(c, s, [a] + trace) == Exec(c, Apply(c, s, a), trace)
  {
    var whole, n := [a] + trace, |trace| - 1;
    if trace == [] {
      assert whole == [a] && whole[..0] == [];
      assert Exec(c, s, whole[..0]) == Some(s);
    } else {
      assert whole[..|whole| - 1] == [a] + trace[..n];
      ExecCons(c, s, a, trace[..n]);
    }
  }

  lemma Extend(c: Config, s: State, a: Action)
    requires Reachable(c, s) && Enabled(c, s, a)
    ensures Reachable(c, Apply(c, s, a))
  {
    var n: nat, trace: seq<Action> :| Exec(c, Init(n), trace) == Some(s);
    ExecSnoc(c, Init(n), trace, a);
  }

  // ---- Counting threads ------------------------------------------------------------------

  /** The roles the conservation laws count. */
  datatype Mark =
    | Live             // acquired and not yet given back: Admitted or Holding
    | Granting         // a releaser that took a slot for its request and has not told it
    | Granted          // a queued request with the grant in its response channel, still there
    | Abandoned        // the same, but the request has left
    | Owner            // any of the four above
    | At(pc: Pc)       // exactly at this program point
    | Resending        // at Resent, for whatever request
    | Dequeued         // at Delivering or Resent: between lines 67 and 71
    | Carrier(r: nat)  // a releaser on its way to request r: between lines 67 and 73
    | Carrying         // the same, for whatever request
    | Entered          // passed line 86
    | Told             // was sent a message
    | InCall           // inside TryAcquire, holding a slot, or inside Release

  predicate Has(t: Thread, m: Mark) {
    match m
    case Live => t.pc.Admitted? || t.pc.Holding?
    case Granting => t.pc.Resent? || t.pc.Replying?
    case Granted => (t.pc.Enqueued? || t.pc.Waiting?) && t.inbox > 0
    case Abandoned => t.pc.GaveUp? && t.inbox > 0
    case Owner =>
      || t.pc.Admitted? || t.pc.Holding? || t.pc.Resent? || t.pc.Replying?
      || ((t.pc.Enqueued? || t.pc.Waiting? || t.pc.GaveUp?) && t.inbox > 0)
    case At(pc) => t.pc == pc
    case Resending => t.pc.Resent?
    case Dequeued => t.pc.Delivering? || t.pc.Resent?
    case Carrier(r) => (t.pc.Delivering? || t.pc.Resent? || t.pc.Replying?) && t.pc.req == r
    case Carrying => t.pc.Delivering? || t.pc.Resent? || t.pc.Replying?
    case Entered => t.entered
    case Told => t.grants > 0
    case InCall => !(t.pc.Idle? || t.pc.Done? || t.pc.Rejected? || t.pc.GaveUp?)
  }

  function Count(ts: seq<Thread>, m: Mark): nat {
    if ts == [] then 0 else Count(ts[..|ts| - 1], m) + Bit(Has(ts[|ts| - 1], m))
  }

  lemma {:induction false} CountUpdate(ts: seq<Thread>, i: nat, t: Thread, m: Mark)
    requires i < |ts|
    ensures Count(ts[i := t], m) == Count(ts, m) - Bit(Has(ts[i], m)) + Bit(Has(t, m))
  {
    var n := |ts| - 1;
    if i == n {
      assert ts[i := t][..n] == ts[..n];
    } else {
      assert ts[i := t][..n] == ts[..n][i := t];
      CountUpdate(ts[..n], i, t, m);
    }
  }

  lemma {:induction false} CountWitness(ts: seq<Thread>, m: Mark)
    ensures Count(ts, m) > 0 <==> exists i :: 0 <= i < |ts| && Has(ts[i], m)
  {
    if ts != [] {
      var n := |ts| - 1;
      CountWitness(ts[..n], m);
      if Has(ts[n], m) {
      } else if Count(ts, m) > 0 {
        var i :| 0 <= i < |ts[..n]| && Has(ts[..n][i], m);
        assert Has(ts[i], m);
      } else {
        forall i | 0 <= i < |ts| ensures !Has(ts[i], m) {
          if i < n { assert ts[i] == ts[..n][i]; }
        }
      }
    }
  }

  /** The four kinds of slot owner exclude each other. */
  lemma {:induction false} OwnersSplit(ts: seq<Thread>)
    ensures Count(ts, Owner) == Count(ts, Live) + Count(ts, Granting) + Count(ts, Granted) + Count(ts, Abandoned)
  {
    if ts != [] { OwnersSplit(ts[..|ts| - 1]); }
  }
}
