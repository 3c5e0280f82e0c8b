/** When a Release call never returns, if the runtime serves blocked senders first come, first
    served: the protocol with the line of releasers blocked at line 68. */
module BulkheadFifo {
  import opened Wrappers
  import opened BulkheadProtocol
  import opened BulkheadSafety
  import opened BulkheadTheorems
  import opened BulkheadHangs

  /** `line` holds the releasers blocked in their send at line 68, in the order they came. */
  datatype Lined = Lined(s: State, line: seq<nat>)

  datatype Event =
    | Park(tid: nat)        // a releaser finds the semaphore full and joins the line
    | Move(action: Action)  // any other step; a receive lets the first in line send at once

  ghost predicate LineOk(c: Config, x: Lined) {
    && (forall k :: 0 <= k < |x.line| ==> x.line[k] < |x.s.threads| && x.s.threads[x.line[k]].pc.Delivering?)
    && (forall k, l :: 0 <= k < l < |x.line| ==> x.line[k] != x.line[l])
    && (x.line != [] ==> x.s.semaphore == c.maxConcurrent)
  }

  ghost predicate Allowed(c: Config, x: Lined, e: Event) {
    match e
    case Park(i) =>
      && i < |x.s.threads| && x.s.threads[i].pc.Delivering? && i !in x.line
      && x.s.semaphore == c.maxConcurrent
    case Move(a) => Enabled(c, x.s, a) && a.tid !in x.line
  }

  /** This step takes a token from the semaphore while somebody is in line. */
  ghost predicate HandsOver(x: Lined, e: Event) {
    && e.Move? && e.action.Step? && e.action.tid < |x.s.threads|
    && x.s.threads[e.action.tid].pc.Holding? && x.line != []
  }

  ghost function After(c: Config, x: Lined, e: Event): Lined
    requires LineOk(c, x) && Allowed(c, x, e)
  {
    match e
    case Park(i) => x.(line := x.line + [i])
    case Move(a) =>
      var s := Apply(c, x.s, a);
      if HandsOver(x, e) then Lined(Apply(c, s, Step(x.line[0])), x.line[1..]) else Lined(s, x.line)
  }

  /** The state after these events, or None when one of them was not possible. */
  ghost function Run(c: Config, x: Lined, events: seq<Event>): Option<Lined> {
    if events == [] then Some(x) else
    match Run(c, x, events[..|events| - 1])
    case Some(y) =>
      if LineOk(c, y) && Allowed(c, y, events[|events| - 1]) then Some(After(c, y, events[|events| - 1])) else None
    case None => None
  }

  ghost predicate InOrder(c: Config, x: Lined) {
    exists n: nat, events: seq<Event> :: Run(c, Lined(Init(n), []), events) == Some(x)
  }

  /** Releaser `i` is at line 68 for good, however things go on in order. */
  ghost predicate HangsInOrder(c: Config, x: Lined, i: nat)
    requires i < |x.s.threads|
  {
    forall events :: Run(c, x, events).Some? ==>
      var y := Run(c, x, events).value;
      i < |y.s.threads| && y.s.threads[i].pc == x.s.threads[i].pc
  }

  // ---- Runs in order are runs ------------------------------------------------------------

  lemma AfterOk(c: Config, x: Lined, e: Event)
    requires Inv(c, x.s) && LineOk(c, x) && Allowed(c, x, e)
    ensures Inv(c, After(c, x, e).s) && LineOk(c, After(c, x, e))
    ensures |After(c, x, e).s.threads| == |x.s.threads|
  {
    hide Inv;
    if e.Move? {
      var s := Apply(c, x.s, e.action);
      StepInv(c, x.s, e.action);
      OthersStay(c, x.s, e.action);
      if HandsOver(x, e) {
        StepInv(c, s, Step(x.line[0]));
        OthersStay(c, s, Step(x.line[0]));
      } else {
        SemaphoreStays(c, x, e);
      }
    }
  }

  /** A step changes the program counter of its own thread only. */
  lemma OthersStay(c: Config, s: State, a: Action)
    requires Inv(c, s) && Enabled(c, s, a)
    ensures |Apply(c, s, a).threads| == |s.threads|
    ensures forall k :: 0 <= k < |s.threads| && k != a.tid ==> Apply(c, s, a).threads[k].pc == s.threads[k].pc
  {
    StepReady(c, s, a);
    StepMoves(c, s, a);
    StepRank(c, s, a);
  }

  lemma SemaphoreStays(c: Config, x: Lined, e: Event)
    requires LineOk(c, x) && Allowed(c, x, e) && e.Move? && !HandsOver(x, e)
    ensures x.line != [] ==> Apply(c, x.s, e.action).semaphore == c.maxConcurrent
  {}

  lemma {:induction false} RunOk(c: Config, x: Lined, events: seq<Event>)
    requires Inv(c, x.s) && LineOk(c, x) && Run(c, x, events).Some?
    ensures var y := Run(c, x, events).value; Inv(c, y.s) && LineOk(c, y) && |y.s.threads| == |x.s.threads|
  {
    if events != [] {
      var front := events[..|events| - 1];
      RunOk(c, x, front);
      AfterOk(c, Run(c, x, front).value, events[|events| - 1]);
    }
  }

  lemma InOrderOk(c: Config, x: Lined)
    requires InOrder(c, x)
    ensures Inv(c, x.s) && LineOk(c, x)
  {
    var n: nat, events: seq<Event> :| Run(c, Lined(Init(n), []), events) == Some(x);
    InitInv(c, n);
    RunOk(c, Lined(Init(n), []), events);
  }

  lemma Onward(c: Config, x: Lined, e: Event)
    requires InOrder(c, x) && LineOk(c, x) && Allowed(c, x, e)
    ensures InOrder(c, After(c, x, e))
  {
    var n: nat, events: seq<Event> :| Run(c, Lined(Init(n), []), events) == Some(x);
    assert (events + [e])[..|events|] == events;
    assert Run(c, Lined(Init(n), []), events + [e]) == Some(After(c, x, e));
  }

  /** A run in order is a run of the protocol in which a receive and the send it lets through
      follow each other. */
  lemma {:induction false} RunIsReachable(c: Config, n: nat, events: seq<Event>)
    requires Run(c, Lined(Init(n), []), events).Some?
    ensures Reachable(c, Run(c, Lined(Init(n), []), events).value.s)
  {
    if events == [] {
      assert Exec(c, Init(n), []) == Some(Init(n));
    } else {
      var front, e := events[..|events| - 1], events[|events| - 1];
      RunIsReachable(c, n, front);
      var x := Run(c, Lined(Init(n), []), front).value;
      if e.Move? {
        Extend(c, x.s, e.action);
        if HandsOver(x, e) { Extend(c, Apply(c, x.s, e.action), Step(x.line[0])); }
      }
    }
  }

  lemma InOrderIsReachable(c: Config, x: Lined)
    requires InOrder(c, x)
    ensures Reachable(c, x.s)
  {
    var n: nat, events: seq<Event> :| Run(c, Lined(Init(n), []), events) == Some(x);
    RunIsReachable(c, n, events);
  }

  /** Every state of the protocol is reached in order while nobody has joined the line. */
  lemma {:induction false} NobodyInLine(c: Config, n: nat, trace: seq<Action>)
    requires Exec(c, Init(n), trace).Some?
    ensures InOrder(c, Lined(Exec(c, Init(n), trace).value, []))
  {
    if trace == [] {
      assert Run(c, Lined(Init(n), []), []) == Some(Lined(Init(n), []));
    } else {
      var front, a := trace[..|trace| - 1], trace[|trace| - 1];
      NobodyInLine(c, n, front);
      Onward(c, Lined(Exec(c, Init(n), front).value, []), Move(a));
    }
  }

  // ---- Slots that can come back ----------------------------------------------------------

  /** The slots whose owners are not doomed. */
  ghost function LiveOwners(s: State): set<nat> {
    set j: nat | j < |s.threads| && Has(s.threads[j], Owner) && !Doomed(s, j)
  }

  /** The part of the line that is served before `i`. */
  ghost function Before(line: seq<nat>, i: nat): seq<nat> {
    if line == [] || line[0] == i then [] else [line[0]] + Before(line[1..], i)
  }

  ghost predicate RequestLeft(s: State, k: nat) {
    && k < |s.threads| && s.threads[k].pc.Delivering? && s.threads[k].pc.req < |s.threads|
    && s.threads[s.threads[k].pc.req].pc.GaveUp?
  }

  /** Releasers to be served before `i` that will pass their slot to a request that has left. */
  ghost function LostBefore(x: Lined, i: nat): set<nat> {
    set k | k in Before(x.line, i) && RequestLeft(x.s, k)
  }

  /** Nobody's request comes or goes in a step of a thread. */
  lemma StepKeepsLeft(c: Config, s: State, j: nat)
    requires Inv(c, s) && Enabled(c, s, Step(j))
    ensures forall k :: k != j ==> (RequestLeft(Apply(c, s, Step(j)), k) <==> RequestLeft(s, k))
  {
    hide Inv, Has;
    OthersStay(c, s, Step(j));
    NobodyGivesUp(c, s, j);
  }

  lemma NobodyGivesUp(c: Config, s: State, j: nat)
    requires Inv(c, s) && Enabled(c, s, Step(j))
    ensures |Apply(c, s, Step(j)).threads| == |s.threads|
    ensures forall k :: 0 <= k < |s.threads| ==>
      (Apply(c, s, Step(j)).threads[k].pc.GaveUp? <==> s.threads[k].pc.GaveUp?)
  {
    StepReady(c, s, Step(j));
    StepMoves(c, s, Step(j));
    StepRank(c, s, Step(j));
  }

  /** Away from lines 59 and 73 a step passes no slot on. */
  lemma PlainStepLive(c: Config, s: State, j: nat)
    requires Inv(c, s) && Enabled(c, s, Step(j)) && s.semaphore == c.maxConcurrent
    requires !s.threads[j].pc.Holding? && !s.threads[j].pc.Replying?
    ensures LiveOwners(Apply(c, s, Step(j))) == LiveOwners(s)
    ensures Apply(c, s, Step(j)).semaphore == c.maxConcurrent
  {
    var s' := Apply(c, s, Step(j));
    NobodyGivesUp(c, s, j);
    StepReady(c, s, Step(j));
    StepMoves(c, s, Step(j));
    forall k: nat | k < |s.threads|
      ensures (Has(s'.threads[k], Owner) && !Doomed(s', k)) <==> (Has(s.threads[k], Owner) && !Doomed(s, k))
    {
      if k != j { assert s'.threads[k] == s.threads[k]; }
    }
  }

  /** Telling a request that is still there passes the slot to it. */
  lemma ReplyLive(c: Config, s: State, j: nat)
    requires Inv(c, s) && Enabled(c, s, Step(j)) && s.threads[j].pc.Replying?
    ensures var r := s.threads[j].pc.req;
      r < |s.threads| && LiveOwners(Apply(c, s, Step(j))) ==
      if s.threads[r].pc.GaveUp? then LiveOwners(s) else LiveOwners(s) - {j} + {r}
    ensures var r := s.threads[j].pc.req;
      r < |s.threads| && !s.threads[r].pc.GaveUp? ==> j in LiveOwners(s) && r !in LiveOwners(s)
    ensures Apply(c, s, Step(j)).semaphore == s.semaphore
  {
    var s', r := Apply(c, s, Step(j)), s.threads[j].pc.req;
    CarriedIsUntold(c, s, j);
    NobodyGivesUp(c, s, j);
    StepReady(c, s, Step(j));
    StepMoves(c, s, Step(j));
    forall k: nat | k < |s.threads| && k != j && k != r
      ensures (Has(s'.threads[k], Owner) && !Doomed(s', k)) <==> (Has(s.threads[k], Owner) && !Doomed(s, k))
    {
      assert s'.threads[k] == s.threads[k];
    }
  }

  /** Nobody comes back by leaving. */
  lemma AbandonLive(c: Config, s: State, j: nat)
    requires Inv(c, s) && Enabled(c, s, Abandon(j))
    ensures LiveOwners(Apply(c, s, Abandon(j))) <= LiveOwners(s)
    ensures forall k :: RequestLeft(s, k) ==> RequestLeft(Apply(c, s, Abandon(j)), k)
  {}

  /** A live holder gives its slot to the first in line, for whose request it is lost or not. */
  lemma HandoverLive(c: Config, s: State, j: nat, h: nat)
    requires Inv(c, s) && j < |s.threads| && s.threads[j].pc.Holding? && h < |s.threads| && s.threads[h].pc.Delivering?
    requires s.semaphore == c.maxConcurrent && s.semaphore > 0
    ensures Enabled(c, s, Step(j)) && Enabled(c, Apply(c, s, Step(j)), Step(h))
    ensures var s' := Apply(c, Apply(c, s, Step(j)), Step(h));
      && LiveOwners(s') == (if RequestLeft(s, h) then LiveOwners(s) - {j} else LiveOwners(s) - {j} + {h})
      && j in LiveOwners(s) && h !in LiveOwners(s) && s'.semaphore == c.maxConcurrent
      && forall k :: k != h ==> (RequestLeft(s', k) <==> RequestLeft(s, k))
  {
    hide Inv, Count;
    CarriedIsUntold(c, s, h);
  }

  // ---- The line --------------------------------------------------------------------------

  lemma {:induction false} BeforeInLine(line: seq<nat>, i: nat)
    ensures forall k :: k in Before(line, i) ==> k in line && k != i
  {
    if line != [] && line[0] != i { BeforeInLine(line[1..], i); }
  }

  /** Whoever joins the line is served after those who are in it. */
  lemma {:induction false} BeforeParking(line: seq<nat>, k: nat, i: nat)
    requires k !in line
    ensures forall m :: m in Before(line, i) ==> m in Before(line + [k], i)
    ensures k == i ==> Before(line + [k], i) == Before(line, i)
  {
    if line == [] {
      assert line + [k] == [k];
    } else if line[0] != i {
      assert (line + [k])[1..] == line[1..] + [k];
      BeforeParking(line[1..], k, i);
    }
  }

  lemma SubsetCard<T>(a: set<T>, b: set<T>)
    requires a <= b
    ensures |a| <= |b|
  {
    assert b == a + (b - a);
  }

  /** The first in line is served, not `i`: of those before `i`, only it is gone. */
  lemma FirstServed(c: Config, x: Lined, y: Lined, i: nat)
    requires LineOk(c, x) && x.line != [] && x.line[0] != i && y.line == x.line[1..]
    requires forall k :: k != x.line[0] ==> (RequestLeft(y.s, k) <==> RequestLeft(x.s, k))
    ensures Before(x.line, i) == [x.line[0]] + Before(y.line, i)
    ensures |LostBefore(y, i)| == |LostBefore(x, i)| - if RequestLeft(x.s, x.line[0]) then 1 else 0
  {
    hide RequestLeft;
    var h := x.line[0];
    BeforeInLine(y.line, i);
    assert h !in y.line;
    if RequestLeft(x.s, h) {
      assert h in Before(x.line, i);
      assert LostBefore(y, i) == LostBefore(x, i) - {h};
    } else {
      assert LostBefore(y, i) == LostBefore(x, i);
    }
  }

  // ---- Too few live owners stay too few --------------------------------------------------

  /** Releaser `i` is at line 68, the semaphore is full, and the live owners are no more than
      the releasers served before `i` whose requests have left. */
  ghost predicate Short(c: Config, x: Lined, i: nat) {
    && Inv(c, x.s) && LineOk(c, x) && i < |x.s.threads| && x.s.threads[i].pc.Delivering?
    && x.s.semaphore == c.maxConcurrent && |LiveOwners(x.s)| <= |LostBefore(x, i)|
  }

  lemma ParkingStaysShort(c: Config, x: Lined, k: nat, i: nat)
    requires Short(c, x, i) && Allowed(c, x, Park(k))
    ensures Short(c, After(c, x, Park(k)), i)
  {
    hide Inv, LiveOwners;
    var y := After(c, x, Park(k));
    AfterOk(c, x, Park(k));
    BeforeParking(x.line, k, i);
    SubsetCard(LostBefore(x, i), LostBefore(y, i));
  }

  lemma LeavingStaysShort(c: Config, x: Lined, k: nat, i: nat)
    requires Short(c, x, i) && Allowed(c, x, Move(Abandon(k)))
    ensures var y := After(c, x, Move(Abandon(k)));
      Short(c, y, i) && i < |x.s.threads| && y.s.threads[i].pc == x.s.threads[i].pc
  {
    hide Inv, LiveOwners, RequestLeft;
    var y := After(c, x, Move(Abandon(k)));
    AfterOk(c, x, Move(Abandon(k)));
    AbandonLive(c, x.s, k);
    SubsetCard(LiveOwners(y.s), LiveOwners(x.s));
    SubsetCard(LostBefore(x, i), LostBefore(y, i));
  }

  /** What a step of a thread that is not in line leaves of the line. */
  lemma LineSeesStep(c: Config, x: Lined, j: nat, i: nat)
    requires Inv(c, x.s) && LineOk(c, x) && Enabled(c, x.s, Step(j)) && j !in x.line
    ensures LostBefore(Lined(Apply(c, x.s, Step(j)), x.line), i) == LostBefore(x, i)
  {
    hide Inv, RequestLeft;
    StepKeepsLeft(c, x.s, j);
    BeforeInLine(x.line, i);
  }

  lemma HolderIsLive(c: Config, s: State, j: nat)
    requires j < |s.threads| && s.threads[j].pc.Holding?
    ensures j in LiveOwners(s)
  {}

  lemma SomeLive<T>(live: set<T>, j: T)
    requires j in live
    ensures |live| > 0
  {}

  lemma NoneBeforeFirst(x: Lined, i: nat)
    ensures x.line == [] || x.line[0] == i ==> LostBefore(x, i) == {}
  {}

  lemma SteppingStaysShort(c: Config, x: Lined, j: nat, i: nat)
    requires Short(c, x, i) && Allowed(c, x, Move(Step(j))) && !x.s.threads[j].pc.Holding?
    ensures var y := After(c, x, Move(Step(j)));
      Short(c, y, i) && i < |x.s.threads| && y.s.threads[i].pc == x.s.threads[i].pc
  {
    hide Inv, LiveOwners, LostBefore, RequestLeft;
    AfterOk(c, x, Move(Step(j)));
    LineSeesStep(c, x, j, i);
    OthersStay(c, x.s, Step(j));
    if x.s.threads[j].pc.Replying? {
      ReplyLive(c, x.s, j);
    } else {
      PlainStepLive(c, x.s, j);
    }
  }

  lemma HandingStaysShort(c: Config, x: Lined, j: nat, i: nat)
    requires Short(c, x, i) && Allowed(c, x, Move(Step(j))) && x.s.threads[j].pc.Holding?
    ensures var y := After(c, x, Move(Step(j)));
      Short(c, y, i) && i < |x.s.threads| && y.s.threads[i].pc == x.s.threads[i].pc
  {
    hide Inv, LiveOwners, RequestLeft;
    HolderIsLive(c, x.s, j);
    SomeLive(LiveOwners(x.s), j);
    NoneBeforeFirst(x, i);
    assert x.line != [] && x.line[0] != i;
    var h, y := x.line[0], After(c, x, Move(Step(j)));
    HandoverLive(c, x.s, j, h);
    AfterOk(c, x, Move(Step(j)));
    OthersStay(c, x.s, Step(j));
    StepInv(c, x.s, Step(j));
    OthersStay(c, Apply(c, x.s, Step(j)), Step(h));
    FirstServed(c, x, y, i);
  }

  lemma {:induction false} ShortHangs(c: Config, x: Lined, i: nat, events: seq<Event>)
    requires Short(c, x, i) && Run(c, x, events).Some?
    ensures var y := Run(c, x, events).value;
      Short(c, y, i) && i < |x.s.threads| && y.s.threads[i].pc == x.s.threads[i].pc
  {
    if events != [] {
      hide Short, LineOk, Allowed, After;
      var front, last := events[..|events| - 1], events[|events| - 1];
      ShortHangs(c, x, i, front);
      OneMoreShort(c, Run(c, x, front).value, last, i);
    }
  }

  lemma OneMoreShort(c: Config, x: Lined, e: Event, i: nat)
    requires Short(c, x, i) && LineOk(c, x) && Allowed(c, x, e)
    ensures var y := After(c, x, e); Short(c, y, i) && i < |x.s.threads| && y.s.threads[i].pc == x.s.threads[i].pc
  {
    hide Short, Inv;
    match e
    case Park(k) => ParkingStaysShort(c, x, k, i); StandsStill(c, x, k, i);
    case Move(Abandon(k)) => LeavingStaysShort(c, x, k, i);
    case Move(Step(j)) =>
      if x.s.threads[j].pc.Holding? { HandingStaysShort(c, x, j, i); } else { SteppingStaysShort(c, x, j, i); }
  }

  lemma StandsStill(c: Config, x: Lined, k: nat, i: nat)
    requires Short(c, x, i) && Allowed(c, x, Park(k))
    ensures i < |x.s.threads| && After(c, x, Park(k)).s == x.s
  {}

  // ---- Otherwise there is a way out ------------------------------------------------------

  lemma {:induction false} RunCons(c: Config, x: Lined, e: Event, events: seq<Event>)
    requires LineOk(c, x) && Allowed(c, x, e)
    ensures Run(c, x, [e] + events) == Run(c, After(c, x, e), events)
  {
    hide After, Allowed, LineOk;
    var whole, n := [e] + events, |events| - 1;
    if events == [] {
      assert whole == [e] && whole[..0] == [];
      assert Run(c, x, whole[..0]) == Some(x);
    } else {
      assert whole[..|whole| - 1] == [e] + events[..n];
      RunCons(c, x, e, events[..n]);
    }
  }

  /** How far an owner is from giving its slot back. */
  function Distance(pc: Pc): nat {
    match pc
    case Resent(_) => 4 case Replying(_) => 3 case Enqueued => 2 case Waiting => 1 case Admitted => 1
    case _ => 0
  }

  /** Releaser `i` is in line, and there are more live owners than slots to be lost before it. */
  ghost predicate Ample(c: Config, x: Lined, i: nat) {
    && Inv(c, x.s) && LineOk(c, x) && i < |x.s.threads| && x.s.threads[i].pc.Delivering? && i in x.line
    && |LiveOwners(x.s)| > |LostBefore(x, i)|
  }

  /** A live owner that does not hold its slot yet comes closer to it, or passes it on to a
      request that is closer. */
  lemma CloserToHolding(c: Config, x: Lined, i: nat, j: nat) returns (l: nat)
    requires Ample(c, x, i) && j in LiveOwners(x.s) && !x.s.threads[j].pc.Holding?
    ensures Allowed(c, x, Move(Step(j))) && !HandsOver(x, Move(Step(j)))
    ensures var y := After(c, x, Move(Step(j)));
      && Ample(c, y, i) && y.line == x.line && y.s.threads[i].pc == x.s.threads[i].pc
      && l in LiveOwners(y.s) && Distance(y.s.threads[l].pc) < Distance(x.s.threads[j].pc)
  {
    hide Inv, LostBefore, RequestLeft, LiveOwners, Distance;
    LiveMoves(c, x, j);
    AfterOk(c, x, Move(Step(j)));
    LineSeesStep(c, x, j, i);
    OthersStay(c, x.s, Step(j));
    l := if x.s.threads[j].pc.Replying? then x.s.threads[j].pc.req else j;
    if x.s.threads[j].pc.Replying? {
      ReplyLive(c, x.s, j);
      ReplyPasses(c, x.s, j);
    } else {
      PlainStepLive(c, x.s, j);
      StepCloser(c, x.s, j);
    }
  }

  lemma ReplyPasses(c: Config, s: State, j: nat)
    requires Inv(c, s) && j in LiveOwners(s) && s.threads[j].pc.Replying? && Enabled(c, s, Step(j))
    ensures var r, s' := s.threads[j].pc.req, Apply(c, s, Step(j));
      && r < |s.threads| == |s'.threads| && !s.threads[r].pc.GaveUp?
      && Distance(s'.threads[r].pc) < Distance(s.threads[j].pc)
  {
    hide Inv;
    CarriedIsUntold(c, s, j);
  }

  lemma StepCloser(c: Config, s: State, j: nat)
    requires j in LiveOwners(s) && Enabled(c, s, Step(j)) && !s.threads[j].pc.Holding? && !s.threads[j].pc.Replying?
    ensures |Apply(c, s, Step(j)).threads| == |s.threads|
    ensures Distance(Apply(c, s, Step(j)).threads[j].pc) < Distance(s.threads[j].pc)
  {}

  lemma LiveMoves(c: Config, x: Lined, j: nat)
    requires Inv(c, x.s) && LineOk(c, x) && j in LiveOwners(x.s)
    ensures Enabled(c, x.s, Step(j)) && j !in x.line
  {
    if x.s.threads[j].pc.Holding? {
      CountWitness(x.s.threads, Owner);
    } else if x.s.threads[j].pc.Replying? {
      CarriedIsUntold(c, x.s, j);
    }
  }

  /** A live holder serves the first in line, and if that is not `i` there are enough left. */
  lemma HolderServes(c: Config, x: Lined, i: nat, j: nat)
    requires Ample(c, x, i) && j in LiveOwners(x.s) && x.s.threads[j].pc.Holding?
    ensures Allowed(c, x, Move(Step(j)))
    ensures var y := After(c, x, Move(Step(j)));
      if x.line[0] == i then y.s.threads[i].pc != x.s.threads[i].pc
      else Ample(c, y, i) && |Before(y.line, i)| < |Before(x.line, i)| && y.s.threads[i].pc == x.s.threads[i].pc
  {
    hide Inv, LiveOwners, RequestLeft;
    LiveMoves(c, x, j);
    var h, y := x.line[0], After(c, x, Move(Step(j)));
    HandoverLive(c, x.s, j, h);
    AfterOk(c, x, Move(Step(j)));
    OthersStay(c, x.s, Step(j));
    StepInv(c, x.s, Step(j));
    OthersStay(c, Apply(c, x.s, Step(j)), Step(h));
    if h != i { FirstServed(c, x, y, i); }
  }

  lemma {:induction false} WayOut(c: Config, x: Lined, i: nat, j: nat) returns (events: seq<Event>)
    requires Ample(c, x, i) && j in LiveOwners(x.s)
    ensures Run(c, x, events).Some?
    ensures var y := Run(c, x, events).value;
      i < |x.s.threads| && (i < |y.s.threads| ==> y.s.threads[i].pc != x.s.threads[i].pc)
    decreases |Before(x.line, i)|, Distance(x.s.threads[j].pc)
  {
    hide Inv, LostBefore, After;
    var e := Move(Step(j));
    if !x.s.threads[j].pc.Holding? {
      var l := CloserToHolding(c, x, i, j);
      events := WayOut(c, After(c, x, e), i, l);
    } else {
      HolderServes(c, x, i, j);
      if x.line[0] == i {
        events := [];
      } else {
        var y := After(c, x, e);
        var l :| l in LiveOwners(y.s);
        events := WayOut(c, y, i, l);
      }
    }
    RunCons(c, x, e, events);
    events := [e] + events;
  }

  /** Served in order, a releaser that finds the semaphore full hangs for ever exactly when the
      live slot owners are no more than the releasers served before it whose requests have left:
      each of those loses one of their slots. */
  lemma HangsInOrderIff(c: Config, x: Lined, i: nat)
    requires InOrder(c, x) && i < |x.s.threads| && x.s.threads[i].pc.Delivering? && x.s.semaphore == c.maxConcurrent
    ensures HangsInOrder(c, x, i) <==> |LiveOwners(x.s)| <= |LostBefore(x, i)|
  {
    InOrderOk(c, x);
    if |LiveOwners(x.s)| <= |LostBefore(x, i)| {
      forall events | Run(c, x, events).Some?
        ensures var y := Run(c, x, events).value; i < |y.s.threads| && y.s.threads[i].pc == x.s.threads[i].pc
      {
        ShortHangs(c, x, i, events);
      }
    } else if i in x.line {
      var j :| j in LiveOwners(x.s);
      var events := WayOut(c, x, i, j);
      assert Run(c, x, events).Some?;
    } else {
      var y := After(c, x, Park(i));
      AfterOk(c, x, Park(i));
      BeforeParking(x.line, i, i);
      assert LostBefore(y, i) == LostBefore(x, i);
      var j :| j in LiveOwners(y.s);
      var events := WayOut(c, y, i, j);
      RunCons(c, x, Park(i), events);
      assert Run(c, x, [Park(i)] + events).Some?;
    }
  }

  /** One slot with a live holder, and two releasers whose requests have left. */
  ghost predicate TwoBehindAHolder(s: State) {
    && |s.threads| == 5 && s.semaphore == 1
    && s.threads[0].pc == Delivering(1) && s.threads[3].pc == Delivering(2) && s.threads[4].pc == Holding
    && forall k :: 1 <= k < 3 ==> s.threads[k].pc == GaveUp && s.threads[k].inbox == 0
  }

  lemma HolderComes() returns (s: State)
    ensures ReachableBy(Config(1, 2), 5, s) && TwoBehindAHolder(s)
  {
    hide Exec, ReachableBy;
    s := AllTakenOver(Config(1, 2), 5);
    assert s.threads[4].pc == Idle;
    s := RunOn(Config(1, 2), 5, s, Step(4));
    s := RunOn(Config(1, 2), 5, s, Step(4));
  }

  lemma TwoInLine() returns (x: Lined)
    ensures InOrder(Config(1, 2), x) && TwoBehindAHolder(x.s) && x.line == [0, 3]
  {
    hide Exec, InOrder;
    var c := Config(1, 2);
    var s := HolderComes();
    var trace: seq<Action> :| Exec(c, Init(5), trace) == Some(s);
    NobodyInLine(c, 5, trace);
    x := Lined(s, []);
    Onward(c, x, Park(0));
    x := After(c, x, Park(0));
    Onward(c, x, Park(3));
    x := After(c, x, Park(3));
  }

  lemma OneLiveOneLost(x: Lined)
    requires TwoBehindAHolder(x.s) && x.line == [0, 3]
    ensures LiveOwners(x.s) == {4} && LostBefore(x, 3) == {0}
  {
    assert Before(x.line, 3) == [0] by { assert x.line[1..] == [3]; }
    forall j: nat | j < 5 ensures (Has(x.s.threads[j], Owner) && !Doomed(x.s, j)) <==> j == 4 {}
  }

  /** A live slot owner does not help a releaser whose turn comes too late. */
  lemma HangsBehindALostSlot()
    ensures exists x :: InOrder(Config(1, 2), x) && |x.s.threads| == 5 && x.s.threads[3].pc.Delivering?
                        && !AllDoomed(x.s) && HangsInOrder(Config(1, 2), x, 3)
  {
    hide InOrder, HangsInOrder, LostBefore;
    var x := TwoInLine();
    OneLiveOneLost(x);
    HangsInOrderIff(Config(1, 2), x, 3);
    assert 4 in LiveOwners(x.s);
  }
}
