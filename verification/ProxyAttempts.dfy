/** The attempts of one request (internal/gateway/proxy.go:80-118): what each meets at the
    bulkhead of its backend, and what it returns to the retry loop. */
module ProxyAttempts {
  import opened Arithmetic
  import opened Wrappers
  import opened Retry
  import opened ResponseBuffer
  import LB = LoadBalancer
  import BP = BulkheadProtocol
  import SB = ServiceBulkhead
  import opened BulkheadPool
  import opened BackendSelection
  import opened BalancerCache

  /** What one attempt came to. */
  datatype Attempt =
    | NoBackend                                             // the balancer found no healthy backend
    | Refused(backend: LB.Backend)                          // the bulkhead returned an error
    | Unparsable(backend: LB.Backend)                       // the backend URL does not parse
    | Answered(backend: LB.Backend, response: seq<Call>)    // the reverse proxy made these calls

  predicate Good(a: Attempt) {
    a.Answered? && TrackedStatus(a.response) < 500
  }

  /** What the attempt returns to the retry loop. */
  function OutcomeOf(a: Attempt): (o: Outcome)
    ensures Coherent(o) && (IsSuccess(o) <==> Good(a))
  {
    match a
    case NoBackend => Outcome(503, Some(Error("no healthy backends available", false)))
    case Refused(_) => Outcome(503, Some(Error("bulkhead limit reached", false)))
    case Unparsable(_) => Outcome(500, Some(Error("server error", false)))
    case Answered(_, calls) =>
      var status := TrackedStatus(calls);
      Outcome(status, if status >= 500 then Some(Error("server error", false)) else None)
  }

  function Outcomes(script: seq<Attempt>): (os: seq<Outcome>)
    ensures |os| == |script| && forall i :: 0 <= i < |script| ==> os[i] == OutcomeOf(script[i])
  {
    seq(|script|, i requires 0 <= i < |script| => OutcomeOf(script[i]))
  }

  // ---- Attempts at the bulkheads ---------------------------------------------------------

  /** What one attempt meets; no response when the backend's URL does not parse. */
  datatype Meeting = Nobody | Meets(backend: LB.Backend, traffic: Traffic, response: Option<seq<Call>>)

  function Called(backend: LB.Backend, response: Option<seq<Call>>): Attempt {
    match response case None => Unparsable(backend) case Some(calls) => Answered(backend, calls)
  }

  /** What the meeting comes to at a bulkhead of these sizes. */
  function Attempted(c: BP.Config, z: SB.Sizes, m: Meeting): Attempt {
    match m
    case Nobody => NoBackend
    case Meets(b, t, response) => if Arrival(c, z, t).0.Nil? then Called(b, response) else Refused(b)
  }

  /** What an attempt may run into besides the state it finds: the clock as each backend's breaker
      is asked, the random draw, the traffic at the bulkhead, and the answer of a backend. */
  datatype Encounter = Encounter(times: seq<int>, roll: nat, traffic: Traffic, response: Option<seq<Call>>)

  function Met(selected: Option<LB.Backend>, e: Encounter): Meeting {
    match selected case None => Nobody case Some(b) => Meets(b, e.traffic, e.response)
  }

  /** The meetings of the attempts that selected so. */
  function Meetings(script: seq<Encounter>, selected: seq<Option<LB.Backend>>): (ms: seq<Meeting>)
    requires |selected| <= |script|
    ensures |ms| == |selected| && forall i :: 0 <= i < |ms| ==> ms[i] == Met(selected[i], script[i])
  {
    seq(|selected|, i requires 0 <= i < |selected| => Met(selected[i], script[i]))
  }

  function TimesOf(script: seq<Encounter>): (times: seq<seq<int>>)
    ensures |times| == |script| && forall i :: 0 <= i < |script| ==> times[i] == script[i].times
  {
    seq(|script|, i requires 0 <= i < |script| => script[i].times)
  }

  /** This attempt leaves the bulkhead of `url` exactly as it was. */
  predicate LeavesAlone(c: BP.Config, z: SB.Sizes, m: Meeting, url: string) {
    m.Nobody? || url != m.backend.url || Undisturbed(c, z, m.traffic)
  }

  function SizesAfterOne(c: BP.Config, z: AllSizes, m: Meeting): AllSizes {
    if m.Meets? && m.backend.url in z then z[m.backend.url := Visit(c, z[m.backend.url], m.traffic)] else z
  }

  function SizesAfter(c: BP.Config, z: AllSizes, script: seq<Meeting>): AllSizes {
    if script == [] then z else SizesAfterOne(c, SizesAfter(c, z, script[..|script| - 1]), script[|script| - 1])
  }

  function AttemptedIn(c: BP.Config, z: AllSizes, m: Meeting): Attempt {
    Attempted(c, if m.Meets? && m.backend.url in z then z[m.backend.url] else SB.Sizes(0, 0), m)
  }

  /** What the meetings of a script come to, one after the other. */
  function Made(c: BP.Config, z: AllSizes, script: seq<Meeting>): (made: seq<Attempt>)
    ensures |made| == |script|
  {
    if script == [] then [] else
    var n := |script| - 1;
    Made(c, z, script[..n]) + [AttemptedIn(c, SizesAfter(c, z, script[..n]), script[n])]
  }

  lemma OneMoreMeeting(c: BP.Config, z: AllSizes, script: seq<Meeting>, m: Meeting)
    ensures Made(c, z, script + [m]) == Made(c, z, script) + [AttemptedIn(c, SizesAfter(c, z, script), m)]
    ensures SizesAfter(c, z, script + [m]) == SizesAfterOne(c, SizesAfter(c, z, script), m)
  {
    assert (script + [m])[..|script|] == script;
  }

  /** A script for a route and a request that found `from`. */
  ghost predicate Follows(from: Origin, script: seq<Encounter>) {
    Covers(from) && Timed(from.backends, TimesOf(script))
  }

  /** The histories, the counter and the selections of the first attempts of a script. */
  ghost function PastAt(from: Origin, script: seq<Encounter>, n: nat): Past
    requires Follows(from, script) && n <= |script|
  {
    PastAfter(from, TimesOf(script)[..n])
  }

  ghost function CounterAt(from: Origin, script: seq<Encounter>, n: nat): nat
    requires Follows(from, script) && n <= |script|
  {
    CounterAfter(from, TimesOf(script)[..n])
  }

  ghost predicate Selected(from: Origin, script: seq<Encounter>, selected: seq<Option<LB.Backend>>)
    requires Follows(from, script) && |selected| <= |script|
  {
    Selections(from, TimesOf(script)[..|selected|], selected)
  }

  /** What the attempts that selected so come to. */
  function RunOf(c: BP.Config, z: AllSizes, script: seq<Encounter>,
    selected: seq<Option<LB.Backend>>): (made: seq<Attempt>)
    requires |selected| <= |script|
    ensures |made| == |selected|
  {
    Made(c, z, Meetings(script, selected))
  }

  function SizesBy(c: BP.Config, z: AllSizes, script: seq<Encounter>, selected: seq<Option<LB.Backend>>): AllSizes
    requires |selected| <= |script|
  {
    SizesAfter(c, z, Meetings(script, selected))
  }

  lemma RunGrows(c: BP.Config, z: AllSizes, script: seq<Encounter>, selected: seq<Option<LB.Backend>>,
    s: Option<LB.Backend>)
    requires |selected| < |script|
    ensures var next, sizes := Met(s, script[|selected|]), SizesBy(c, z, script, selected);
      && RunOf(c, z, script, selected + [s]) == RunOf(c, z, script, selected) + [AttemptedIn(c, sizes, next)]
      && SizesBy(c, z, script, selected + [s]) == SizesAfterOne(c, sizes, next)
  {
    hide AttemptedIn, Made, SizesAfter, SizesAfterOne;
    assert Meetings(script, selected + [s]) == Meetings(script, selected) + [Met(s, script[|selected|])];
    OneMoreMeeting(c, z, Meetings(script, selected), Met(s, script[|selected|]));
  }

  lemma OutcomesGrow(c: BP.Config, z: AllSizes, script: seq<Encounter>, selected: seq<Option<LB.Backend>>,
    s: Option<LB.Backend>)
    requires |selected| < |script|
    ensures var made := RunOf(c, z, script, selected + [s]);
      Outcomes(made) == Outcomes(RunOf(c, z, script, selected)) + [OutcomeOf(made[|selected|])]
  {
    hide RunOf, AttemptedIn, SizesBy, OutcomeOf;
    RunGrows(c, z, script, selected, s);
  }

  lemma NoAttempt(c: BP.Config, from: Origin, z: AllSizes, script: seq<Encounter>)
    requires Follows(from, script)
    ensures Selected(from, script, []) && PastAt(from, script, 0) == from.past &&
      CounterAt(from, script, 0) == from.counter
    ensures RunOf(c, z, script, []) == [] && SizesBy(c, z, script, []) == z
  {
    assert TimesOf(script)[..0] == [];
    assert forall b :: b in from.past ==> from.past[b] + [] == from.past[b];
  }

  /** What the proxy's state comes to between two attempts. */
  datatype Snapshot = Snapshot(past: Past, counter: nat, loads: map<string, int>, sizes: AllSizes)

  ghost predicate Asks(backends: seq<LB.Backend>, now: Snapshot, e: Encounter) {
    |e.times| == |backends| && forall b :: b in backends ==> b.breaker in now.past
  }

  ghost function FitIn(backends: seq<LB.Backend>, now: Snapshot, e: Encounter): seq<LB.Backend>
    requires Asks(backends, now, e)
  {
    LB.Passing(backends, e.times, now.past)
  }

  /** One attempt that selected so. */
  ghost function Next(
    c: BP.Config, kind: Kind, backends: seq<LB.Backend>, now: Snapshot, e: Encounter, s: Option<LB.Backend>): Snapshot
    requires Asks(backends, now, e)
  {
    Snapshot(AfterAsking(now.past, backends, e.times), Advanced(kind, now.counter, FitIn(backends, now, e)),
             now.loads, SizesAfterOne(c, now.sizes, Met(s, e)))
  }

  /** The state after the attempts of a script that selected so. */
  ghost function StateAt(
    c: BP.Config, from: Origin, z: AllSizes, script: seq<Encounter>, selected: seq<Option<LB.Backend>>): Snapshot
    requires Follows(from, script) && |selected| <= |script|
  {
    Snapshot(PastAt(from, script, |selected|), CounterAt(from, script, |selected|), from.loads,
             SizesBy(c, z, script, selected))
  }

  lemma AsksAt(c: BP.Config, from: Origin, z: AllSizes, script: seq<Encounter>, selected: seq<Option<LB.Backend>>)
    requires Follows(from, script) && |selected| < |script|
    ensures Asks(from.backends, StateAt(c, from, z, script, selected), script[|selected|])
  {
    CoversAfter(from, TimesOf(script)[..|selected|]);
    assert TimesOf(script)[|selected|] == script[|selected|].times;
  }

  lemma OneMoreAttempt(
    c: BP.Config, from: Origin, z: AllSizes, script: seq<Encounter>, selected: seq<Option<LB.Backend>>,
    s: Option<LB.Backend>)
    requires Follows(from, script) && |selected| < |script| && Selected(from, script, selected)
    requires var now := StateAt(c, from, z, script, selected);
      && Asks(from.backends, now, script[|selected|])
      && MaySelect(from.kind, now.counter, now.loads, FitIn(from.backends, now, script[|selected|]), s)
    ensures Selected(from, script, selected + [s])
    ensures StateAt(c, from, z, script, selected + [s]) ==
            Next(c, from.kind, from.backends, StateAt(c, from, z, script, selected), script[|selected|], s)
  {
    hide MaySelect, Selections, PastAfter, CounterAfter, AfterAsking, SizesBy, RunOf, SizesAfterOne, LB.Passing;
    var n, times := |selected|, TimesOf(script);
    assert FitNext(from, times[..n], times[n]) ==
      FitIn(from.backends, StateAt(c, from, z, script, selected), script[n]);
    OneMoreSelection(from, times, n, selected, s);
    OneMoreAsking(from, times, n);
    RunGrows(c, z, script, selected, s);
  }

  lemma {:induction false} NoBackendIffNobody(
    c: BP.Config, z: AllSizes, script: seq<Encounter>, selected: seq<Option<LB.Backend>>)
    requires |selected| <= |script|
    ensures forall k :: 0 <= k < |selected| ==> (RunOf(c, z, script, selected)[k].NoBackend? <==> selected[k].None?)
  {
    if selected != [] {
      hide RunOf, SizesBy;
      var n := |selected| - 1;
      assert selected == selected[..n] + [selected[n]];
      NoBackendIffNobody(c, z, script, selected[..n]);
      RunGrows(c, z, script, selected[..n], selected[n]);
    }
  }

  /** Behind closed breakers an attempt finds no backend exactly when none is marked healthy. */
  lemma NoBackendIffNoneHealthy(
    c: BP.Config, from: Origin, z: AllSizes, script: seq<Encounter>, selected: seq<Option<LB.Backend>>)
    requires Follows(from, script) && |selected| <= |script| && Selected(from, script, selected)
    requires LB.AllClosed(from.backends, from.past)
    ensures forall k :: 0 <= k < |selected| ==>
      (RunOf(c, z, script, selected)[k].NoBackend? <==> LB.MarkedHealthy(from.backends) == [])
  {
    NoBackendIffNobody(c, z, script, selected);
    NobodyIffNoneHealthy(from, TimesOf(script)[..|selected|], selected);
  }

  // ---- What a request leaves behind ------------------------------------------------------

  ghost predicate AllBusy(c: BP.Config, z: AllSizes) {
    forall u :: u in z ==> SB.Busy(c, z[u])
  }

  lemma VisitStaysBusy(c: BP.Config, z: SB.Sizes, t: Traffic)
    requires SB.Busy(c, z)
    ensures SB.Busy(c, Visit(c, z, t))
  {
    hide SB.AfterCalls, SB.Acquisition;
    SB.OthersKeep(c, z, t.before, 0);
    var arriving := SB.AfterCalls(c, z, t.before, 0);
    SB.AcquiresIff(c, arriving, t.waiting, t.winner);
    var (reply, taken) := Arrival(c, z, t);
    if reply.Nil? { SB.OthersKeep(c, taken, t.held, 1); }
  }

  lemma {:induction false} SizesStayBusy(c: BP.Config, z: AllSizes, script: seq<Meeting>)
    requires AllBusy(c, z)
    ensures SizesAfter(c, z, script).Keys == z.Keys && AllBusy(c, SizesAfter(c, z, script))
  {
    hide Visit, SB.Busy;
    if script != [] {
      var n := |script| - 1;
      SizesStayBusy(c, z, script[..n]);
      var before, m := SizesAfter(c, z, script[..n]), script[n];
      if m.Meets? && m.backend.url in z { VisitStaysBusy(c, before[m.backend.url], m.traffic); }
    }
  }

  /** What the meetings of a request make of the number inside at `url`: its visits there, one
      after the other, each as the count sees it. */
  function CountBy(c: BP.Config, n: nat, script: seq<Meeting>, url: string): int {
    if script == [] then n else
    var m, before := script[|script| - 1], CountBy(c, n, script[..|script| - 1], url);
    if m.Meets? && m.backend.url == url then VisitCount(c, Max(before, 0), m.traffic) else before
  }

  /** Through a whole request the number of requests inside a bulkhead is a running count: its own
      attempts take and give back what they took, and the rest is what others did. */
  lemma {:induction false} RequestIsACount(c: BP.Config, z: AllSizes, script: seq<Meeting>, url: string)
    requires AllBusy(c, z) && url in z
    ensures url in SizesAfter(c, z, script)
    ensures SizesAfter(c, z, script)[url] == SB.Spread(c, SB.Inside(SizesAfter(c, z, script)[url]))
    ensures SB.Inside(SizesAfter(c, z, script)[url]) == CountBy(c, SB.Inside(z[url]), script, url)
  {
    hide Visit, VisitCount;
    SizesStayBusy(c, z, script);
    SB.BusyIsSpread(c, SizesAfter(c, z, script)[url]);
    if script != [] {
      var n := |script| - 1;
      RequestIsACount(c, z, script[..n], url);
      SizesStayBusy(c, z, script[..n]);
      if script[n].Meets? { VisitCounts(c, SizesAfter(c, z, script[..n])[url], script[n].traffic); }
    }
  }

  /** Nobody else calls the bulkheads while the request is served. */
  ghost predicate Quiet(script: seq<Meeting>) {
    forall i :: 0 <= i < |script| && script[i].Meets? ==>
      script[i].traffic.before == [] && script[i].traffic.waiting == [] && script[i].traffic.held == []
  }

  function VisitsTo(script: seq<Meeting>, url: string): nat {
    if script == [] then 0 else
    var m := script[|script| - 1];
    VisitsTo(script[..|script| - 1], url) + if m.Meets? && m.backend.url == url then 1 else 0
  }

  lemma QuietVisit(c: BP.Config, z: SB.Sizes, t: Traffic)
    requires SB.Busy(c, z) && t.before == [] && t.waiting == [] && t.held == []
    ensures Visit(c, z, t) == z.(
      waiting := if z.semaphore < c.maxConcurrent then z.waiting else Min(c.queueSize, z.waiting + 1))
  {}

  /** Left alone, a request gives back every slot it takes, whatever its attempts come to. All
      that stays of it is one queue entry for each attempt that found the slots of its bulkhead
      taken, as long as there is room. */
  lemma {:induction false} QuietRequestReturnsAll(c: BP.Config, z: AllSizes, script: seq<Meeting>, url: string)
    requires AllBusy(c, z) && url in z && Quiet(script)
    ensures url in SizesAfter(c, z, script)
    ensures SizesAfter(c, z, script)[url] == z[url].(
      waiting := if z[url].semaphore < c.maxConcurrent then z[url].waiting
        else Min(c.queueSize, z[url].waiting + VisitsTo(script, url)))
  {
    hide Visit;
    if script != [] {
      var n := |script| - 1;
      assert Quiet(script[..n]) by { forall i | 0 <= i < n ensures script[..n][i] == script[i] {} }
      QuietRequestReturnsAll(c, z, script[..n], url);
      SizesStayBusy(c, z, script[..n]);
      if script[n].Meets? { QuietVisit(c, SizesAfter(c, z, script[..n])[url], script[n].traffic); }
    }
  }

  // ---- Scripts exclude no run of attempts ------------------------------------------------

  lemma {:induction false} OthersFill(c: BP.Config, z: SB.Sizes, k: nat)
    requires SB.Busy(c, z)
    ensures var z' := SB.AfterCalls(c, z, seq(k, _ => SB.TryAcquire), 0);
      z'.semaphore == Min(c.maxConcurrent, z.semaphore + k)
  {
    if k > 0 {
      OthersFill(c, z, k - 1);
      assert seq(k, _ => SB.TryAcquire)[..k - 1] == seq(k - 1, _ => SB.TryAcquire);
    }
  }

  lemma {:induction false} OthersDrain(c: BP.Config, z: SB.Sizes, k: nat)
    requires SB.Busy(c, z) && k <= z.waiting && c.maxConcurrent > 0
    ensures SB.AfterCalls(c, z, seq(k, _ => SB.Release), 0) == z.(waiting := z.waiting - k)
  {
    if k > 0 {
      OthersDrain(c, z, k - 1);
      assert seq(k, _ => SB.Release)[..k - 1] == seq(k - 1, _ => SB.Release);
    }
  }

  /** Others can make this attempt fail or succeed, whatever the bulkhead was like. */
  lemma EitherWay(c: BP.Config, z: SB.Sizes, admitted: bool) returns (t: Traffic)
    requires SB.Busy(c, z) && c.maxConcurrent > 0
    ensures Arrival(c, z, t).0.Nil? == admitted
  {
    if admitted {
      var k := z.waiting + 1;
      var before := seq(k, _ => SB.Release);
      OthersDrain(c, z, z.waiting);
      assert before[..k - 1] == seq(z.waiting, _ => SB.Release) && before[k - 1] == SB.Release;
      t := Traffic(before, [], [], SB.Timeout);
    } else {
      OthersFill(c, z, c.maxConcurrent);
      t := Traffic(seq(c.maxConcurrent, _ => SB.TryAcquire), [], [], SB.Timeout);
    }
  }

  /** The attempts go where the selections point. */
  ghost predicate Fitting(selected: seq<Option<LB.Backend>>, made: seq<Attempt>, z: AllSizes) {
    && |selected| == |made|
    && (forall i :: 0 <= i < |made| ==> (made[i].NoBackend? <==> selected[i].None?))
    && (forall i :: 0 <= i < |made| && selected[i].Some? ==>
          made[i].backend == selected[i].value && selected[i].value.url in z)
  }

  lemma FittingFront(selected: seq<Option<LB.Backend>>, made: seq<Attempt>, z: AllSizes, z': AllSizes)
    requires Fitting(selected, made, z) && made != [] && z'.Keys == z.Keys
    ensures var n := |made| - 1;
      |selected| == |made| && Fitting(selected[..n], made[..n], z) && Fitting([selected[n]], [made[n]], z')
  {}

  /** Traffic and an answer that make the next attempt come to `a`. */
  lemma EncounterFor(c: BP.Config, z: AllSizes, times: seq<int>, s: Option<LB.Backend>, a: Attempt)
    returns (e: Encounter)
    requires c.maxConcurrent > 0 && AllBusy(c, z) && Fitting([s], [a], z)
    ensures e.times == times && AttemptedIn(c, z, Met(s, e)) == a
  {
    assert [s][0] == s && [a][0] == a;
    e := Encounter(times, 0, Traffic([], [], [], SB.Timeout), None);
    if s.Some? {
      var t := EitherWay(c, z[s.value.url], !a.Refused?);
      e := Encounter(times, 0, t, if a.Answered? then Some(a.response) else None);
    }
  }

  lemma ScriptGrows(c: BP.Config, z: AllSizes, script: seq<Encounter>, e: Encounter, selected: seq<Option<LB.Backend>>)
    requires |selected| == |script|
    ensures RunOf(c, z, script + [e], selected) == RunOf(c, z, script, selected)
    ensures SizesBy(c, z, script + [e], selected) == SizesBy(c, z, script, selected)
    ensures TimesOf(script + [e]) == TimesOf(script) + [e.times]
  {
    assert Meetings(script + [e], selected) == Meetings(script, selected);
  }

  /** Whatever clock readings and selections there are, every sequence of attempts at the backends
      selected is what some script comes to: what ServeHTTP does on all scripts it does on all of
      them. */
  lemma {:induction false} EveryRunHasAScript(
    c: BP.Config, z: AllSizes, times: seq<seq<int>>, selected: seq<Option<LB.Backend>>, made: seq<Attempt>)
    returns (script: seq<Encounter>)
    requires c.maxConcurrent > 0 && AllBusy(c, z)
    requires Fitting(selected, made, z) && |times| == |made| == |selected|
    ensures |script| == |made| && TimesOf(script) == times && RunOf(c, z, script, selected) == made
  {
    hide RunOf, SizesBy, AttemptedIn, TimesOf, Met, Fitting, AllBusy;
    if made == [] {
      script := [];
      assert TimesOf(script) == times && RunOf(c, z, script, selected) == made;
    } else {
      var n := |made| - 1;
      var earlier, s := selected[..n], selected[n];
      FittingFront(selected, made, z, z);
      var front := EveryRunHasAScript(c, z, times[..n], earlier, made[..n]);
      BusyBy(c, z, front, earlier);
      FittingFront(selected, made, z, SizesBy(c, z, front, earlier));
      var e := EncounterFor(c, SizesBy(c, z, front, earlier), times[n], s, made[n]);
      script := front + [e];
      ScriptGrows(c, z, front, e, earlier);
      RunGrows(c, z, script, earlier, s);
      assert script[n] == e && earlier + [s] == selected;
      assert times[..n] + [times[n]] == times && made[..n] + [made[n]] == made;
    }
  }

  lemma BusyBy(c: BP.Config, z: AllSizes, script: seq<Encounter>, selected: seq<Option<LB.Backend>>)
    requires AllBusy(c, z) && |selected| <= |script|
    ensures SizesBy(c, z, script, selected).Keys == z.Keys && AllBusy(c, SizesBy(c, z, script, selected))
  {
    SizesStayBusy(c, z, Meetings(script, selected));
  }
}
