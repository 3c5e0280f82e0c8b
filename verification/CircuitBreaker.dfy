/** The circuit breaker (internal/gateway/circuitbreaker.go). The specification is the history
    of calls: the breaker keeps counters, the specification counts events. */
module CircuitBreaker {
  import opened Arithmetic

  datatype Config = Config(failureThreshold: int, successThreshold: int, timeout: int, maxRequests: int)

  /** A completed call: CanRequest and RecordFailure read the clock, RecordSuccess does not. */
  datatype Event = Ask(at: int) | Success | Failure(at: int)

  // ---- Counting events -------------------------------------------------------------------

  function Front(h: seq<Event>): seq<Event>
    requires h != []
  {
    h[..|h| - 1]
  }

  function Last(h: seq<Event>): Event
    requires h != []
  {
    h[|h| - 1]
  }

  /** Failures since the last success. */
  function FailureRun(h: seq<Event>): nat {
    if h == [] || Last(h).Success? then 0 else FailureRun(Front(h)) + (if Last(h).Failure? then 1 else 0)
  }

  /** Successes among the events from index `k` on. */
  function Successes(h: seq<Event>, k: nat): nat {
    if |h| <= k then 0 else Successes(Front(h), k) + (if Last(h).Success? then 1 else 0)
  }

  function Asks(h: seq<Event>, k: nat): nat {
    if |h| <= k then 0 else Asks(Front(h), k) + (if Last(h).Ask? then 1 else 0)
  }

  /** The time of the last failure; 0 stands for the zero time. */
  function LastFailure(h: seq<Event>): int {
    if h == [] then 0 else if Last(h).Failure? then Last(h).at else LastFailure(Front(h))
  }

  // ---- The specification -----------------------------------------------------------------

  /** `since` is the length of the history just after the request that half-opened the breaker. */
  datatype Mode = Closed | Open | HalfOpen(since: nat)

  function ModeAfter(c: Config, h: seq<Event>): (m: Mode)
    ensures m.HalfOpen? ==> 0 < m.since <= |h|
  {
    if h == [] then Closed else
    match ModeAfter(c, Front(h))
    case Closed => if Last(h).Failure? && FailureRun(h) >= c.failureThreshold then Open else Closed
    case Open => if Last(h).Ask? && Last(h).at - LastFailure(Front(h)) >= c.timeout then HalfOpen(|h|) else Open
    case HalfOpen(k) =>
      if Last(h).Failure? then Open
      else if Last(h).Success? && Successes(h, k) >= c.successThreshold then Closed
      else HalfOpen(k)
  }

  /** Is a request at time `now` let through after history `h`? */
  predicate Admits(c: Config, h: seq<Event>, now: int) {
    match ModeAfter(c, h)
    case Closed => true
    case Open => now - LastFailure(h) >= c.timeout
    case HalfOpen(k) => Asks(h, k) < c.maxRequests
  }

  /** Failures since the last success that left the breaker closed. */
  function Backlog(c: Config, h: seq<Event>): nat {
    if h == [] then 0
    else if Last(h).Success? && ModeAfter(c, h).Closed? then 0
    else Backlog(c, Front(h)) + (if Last(h).Failure? then 1 else 0)
  }

  /** While closed, the failures counted are those since the last success of any kind. */
  lemma {:induction false} ClosedBacklog(c: Config, h: seq<Event>)
    ensures ModeAfter(c, h).Closed? ==> Backlog(c, h) == FailureRun(h)
  {
    if h != [] { ClosedBacklog(c, Front(h)); }
  }

  // ---- The class -------------------------------------------------------------------------

  datatype CircuitState = StateClosed | StateOpen | StateHalfOpen

  class CircuitBreaker {
    const config: Config
    var state: CircuitState
    var failureCount: int
    var successCount: int
    var requestCount: int
    var lastFailureTime: int
    ghost var history: seq<Event>

    /** The fields say what the history says. */
    ghost predicate Valid()
      reads this
    {
      && lastFailureTime == LastFailure(history)
      && failureCount == Backlog(config, history)
      && match ModeAfter(config, history)
         case Closed => state == StateClosed && successCount == 0 && requestCount == 0
         case Open => state == StateOpen && successCount == 0 && requestCount == 0
         case HalfOpen(k) =>
           && state == StateHalfOpen && successCount == Successes(history, k)
           && requestCount == Min(Asks(history, k), Max(0, config.maxRequests))
    }

    constructor (config: Config)
      ensures Valid() && history == [] && this.config == config
    {
      this.config := config;
      state, failureCount, successCount, requestCount, lastFailureTime := StateClosed, 0, 0, 0, 0;
      history := [];
    }

    method CanRequest(now: int) returns (ok: bool)
      requires Valid()
      modifies this
      ensures Valid() && history == old(history) + [Ask(now)]
      ensures ok == Admits(config, old(history), now)
      ensures old(state) == StateOpen ==>
        && (ok <==> now - old(lastFailureTime) >= config.timeout)
        && state == if ok then StateHalfOpen else StateOpen
    {
      ghost var h := history + [Ask(now)];
      assert Front(h) == history;
      history := h;
      match state {
        case StateClosed =>
          ok := true;
        case StateOpen =>
          if now - lastFailureTime >= config.timeout {
            SetState(StateHalfOpen);
            ok := true;
          } else {
            ok := false;
          }
        case StateHalfOpen =>
          if requestCount < config.maxRequests {
            requestCount := requestCount + 1;
            ok := true;
          } else {
            ok := false;
          }
      }
    }

    method RecordSuccess()
      requires Valid()
      modifies this
      ensures Valid() && history == old(history) + [Success]
    {
      ghost var h := history + [Success];
      assert Front(h) == history;
      history := h;
      match state {
        case StateClosed =>
          failureCount := 0;
        case StateHalfOpen =>
          successCount := successCount + 1;
          if successCount >= config.successThreshold {
            SetState(StateClosed);
          }
        case StateOpen =>
      }
    }

    method RecordFailure(now: int)
      requires Valid()
      modifies this
      ensures Valid() && history == old(history) + [Failure(now)]
    {
      ghost var h := history + [Failure(now)];
      assert Front(h) == history;
      ClosedBacklog(config, history);
      history := h;
      failureCount := failureCount + 1;
      lastFailureTime := now;
      match state {
        case StateClosed =>
          if failureCount >= config.failureThreshold {
            SetState(StateOpen);
          }
        case StateHalfOpen =>
          SetState(StateOpen);
        case StateOpen =>
      }
    }

    method SetState(newState: CircuitState)
      modifies this`state, this`failureCount, this`successCount, this`requestCount
      ensures state == newState
      ensures if old(state) == newState then
                failureCount == old(failureCount) && successCount == old(successCount) &&
                  requestCount == old(requestCount)
              else
                failureCount == (if newState == StateClosed then 0 else old(failureCount)) && successCount == 0 &&
                  requestCount == 0
    {
      if state == newState {
        return;
      }
      state := newState;
      match newState {
        case StateClosed =>
          failureCount, successCount, requestCount := 0, 0, 0;
        case StateOpen =>
          requestCount, successCount := 0, 0;
        case StateHalfOpen =>
          requestCount, successCount := 0, 0;
      }
    }

    method GetState() returns (s: CircuitState)
      requires Valid()
      ensures s == match ModeAfter(config, history)
                   case Closed => StateClosed
                   case Open => StateOpen
                   case HalfOpen(_) => StateHalfOpen
    {
      s := state;
    }
  }
}
