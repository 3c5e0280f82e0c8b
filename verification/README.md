# The reliability layer of go-ai-gateway, verified

This project models the reliability layer of the gateway (`internal/gateway`) in Dafny and
proves what it promises: bulkheads, circuit breakers, load balancers, retries with backoff,
response buffering, the request path through `ServeHTTP`, the per-pattern balancer cache, the
service registry and the health checker. Check it with `dafny verify dfyconfig.toml`.

## How the model is laid out

| file | what it models |
|---|---|
| `BulkheadProtocol.dfy` | `ServiceBulkhead` as an interleaving machine: one program counter per request thread, one step per access to a channel or counter |
| `BulkheadSafety.dfy` | its inductive invariant: channel shapes, slot and counter ledgers, where each queued request is |
| `BulkheadTheorems.dfy` | slot conservation, counters, order, how runs end, lost slots |
| `BulkheadWakeups.dfy` | runs without timeouts, and exactly when none of them strands a request |
| `BulkheadHangs.dfy` | exactly when a `Release` call never returns, by state and by configuration, if any blocked releaser may be served next |
| `BulkheadFifo.dfy` | the same by state, if blocked releasers are served first come, first served |
| `BulkheadWitnesses.dfy` | concrete schedules for what the bulkhead does not promise |
| `ServiceBulkhead.dfy` | `ServiceBulkhead` as a class, with what others do while a request waits as an argument, and the proof that undisturbed calls are schedules of the machine |
| `CircuitBreaker.dfy`, `BreakerTheorems.dfy` | `CircuitBreaker` as a class whose counters are tied to the history of its calls, and what that history implies |
| `LoadBalancer.dfy`, `RoundRobinFairness.dfy`, `Arithmetic.dfy` | the health filter, the three balancers, and how evenly they spread requests |
| `Retry.dfy` | the retry loop and `calculateDelay` |
| `ResponseBuffer.dfy` | the buffering response writer |
| `BackendSelection.dfy` | how the attempts of a request select their backends, and what that comes to behind closed breakers |
| `BulkheadPool.dfy`, `ProxyAttempts.dfy`, `Proxy.dfy` | the proxy's bulkheads, what the attempts of a request come to, and one request through `ServeHTTP` |
| `Isolation.dfy` | all requests of all routes together, against the bulkheads and the connection counts |
| `GatewayConfig.dfy`, `BalancerCache.dfy`, `ProxyState.dfy` | route matching, the double-checked balancer lookup, `NewProxy` |
| `Registry.dfy`, `HealthChecker.dfy` | the nested service map and consecutive-failure counting |

**Bulkhead.** A thread makes one `TryAcquire` call and, when it succeeds, one `Release` call,
which is how the proxy uses the bulkhead. Critical sections of the counter mutex are single
steps. Timeouts and cancellation are a free choice of a waiting thread. Channels are bounded
sequences and a blocked operation is a disabled step; Go's direct hand-off between a blocked
sender and a receiver is one receive followed by one send, so every Go run is a run of the
model. The number of threads, the limit and the queue size are arbitrary; a limit of zero is
excluded only where it matters.

**Breaker.** The specification keeps no counters: `ModeAfter` reads the history of calls with
the counting functions `FailureRun`, `Successes`, `Asks` and `LastFailure`. The class keeps the
counters of the source, and its invariant says that they are those counts. The clock is an
argument of the calls that read it; where a result needs it, the clock is monotone.

**Request path.** `ServeHTTP` matches the path, fetches the route's balancer, and runs the
attempts on the real objects: each selects a backend through the balancer and the health
filter, acquires a slot of the backend's bulkhead, counts itself if the balancer counts
connections, calls the backend, and gives both back. Arguments are what the code cannot
decide: the clock as each breaker is asked, the random draws, what other requests do at the
bulkhead before the attempt, while it waits and while it holds its slot (any sequence of
calls), and the backend's answer (any sequence of calls on the response writer, or an
unparsable URL). Whatever is selected, every sequence of attempts at those backends is reached
this way (`EveryRunHasAScript`). `Isolation.dfy` runs the same attempt for all requests at once
on top of the bulkhead machine.

## What the proofs found

- A slot granted to a request that has already left its wait is never returned
  (`SlotCanBeLost`). Capacity is recovered in full exactly when no request left early
  (`QuiescenceIsCleanIff`).
- A `Release` call can hang for ever (`ReleaseCanHangForever`), even before a slot is lost
  (`HangsWithNothingLost`). When every slot is lost or about to be told to a request that has
  left, nobody is ever admitted and no blocked call returns (`SaturationIsPermanent`); until
  then a blocked call returns in some order of service (`BlockedReleaserHangsIff`). Go serves
  blocked senders in the order they came, and then a call hangs exactly when the remaining slot
  owners are no more than the calls served before it whose requests have left
  (`HangsInOrderIff`), so even behind a live slot owner (`HangsBehindALostSlot`). Some schedule
  of n requests leads to a hang exactly when there are slots, a queue, and n is at least twice
  the number of slots plus two (`ReleaseCanHangIff`).
- A request can enqueue just after the last release and wait although every slot is free
  (`WakeupCanBeLost`). No schedule of n requests does this exactly when n is at most the number
  of slots or there is no queue (`NobodyStrandedIff`). With any number of requests, but at most
  k at a time, the same holds of k (`NobodyStrandedWithinIff`). While a slot can be recovered,
  it is the only way the protocol stops short (`StuckIsLostWakeup`, `PatientRunsEndClean`).
- `active_count` can exceed the limit and `queued_count` can be negative for the moment between
  a channel operation and its counter update (`ActiveCountCanExceedLimit`,
  `QueuedCountCanBeNegative`); `CounterLedger` gives the exact deviation.
- A half-open breaker admits one request more than `MaxRequests`, because the request that
  half-opens it is not counted (`EpisodeBudget`). It can be stuck half-open for ever exactly
  when `SuccessThreshold` exceeds `MaxRequests + 1` (`NoWedgeIff`, `WedgeIsForever`).
- The record-failure branch at `internal/gateway/proxy.go:125-127` is unreachable, so no
  breaker behind the proxy ever opens (`ProxyNeverTrips`).
- `ExecuteWithRetry` reports nil for an error that comes with a status below 500
  (`ErrorCanBeDropped`). For an operation that may return a given set of outcomes, nil means
  success on every script exactly when each failure in the set is an error with a status of at
  least 500 (`NilMeansSuccessForIff`). The proxy's closure returns no other failures.
- Behind closed breakers, and no request opens one (`RequestKeepsClosed`), all attempts of a
  request under least connections go to the same backend, however often it fails
  (`LeastConnectionsRepeats`); under round robin each goes to the next one
  (`RoundRobinMovesOn`). An attempt finds no backend exactly when none is marked healthy
  (`NoBackendIffNoneHealthy`).
- A request that gives up in the queue leaves its entry there; apart from these entries, a
  request that nobody disturbs leaves every bulkhead and connection count as it found it
  (`QuietRequestReturnsAll`).
- Round robin is fair across the wrap of its counter exactly when the number of backends is a
  power of two (`FairAcrossWrapIff`).
- Under any traffic a bulkhead is one count of the requests inside, spread over slots and queue
  (`AcquisitionCounts`, `CallsCount`); each attempt leaves one fewer there than others would have
  left with its slot taken (`DepartureReturnsSlot`, `VisitCounts`, `RequestIsACount`).
- The health filter asks a breaker without recording anything, so an open breaker then lets
  through exactly the request that half-opens it and the next `MaxRequests`, until an outcome is
  recorded (`UnansweredAdmissions`).

## Model

| member | source | states |
|---|---|---|
| BulkheadSafety.ReachableInv | internal/gateway/bulkhead.go:46-104 | the ledgers, the channel bounds and the single whereabouts of each queued request hold in every reachable state |
| BulkheadSafety.StepInv | internal/gateway/bulkhead.go:46-104 | every step of every thread keeps them |
| BulkheadTheorems.SlotConservation | internal/gateway/bulkhead.go:46-104 | each semaphore token has one owner: a live request, a releaser passing it on, a request with an unread grant, or a request that left; live requests and lost slots together never exceed the limit |
| BulkheadTheorems.CounterLedger | internal/gateway/bulkhead.go:48-52 | the counters that GetStats reports differ from the channel lengths by exactly the threads between a channel operation and its counter update; activeCount is never negative |
| BulkheadTheorems.ServedInOrderOnce | internal/gateway/bulkhead.go:65-73 | requests leave the queue in arrival order, each at most once, and get at most one message |
| BulkheadTheorems.NeverBlocked | internal/gateway/bulkhead.go:59-73 | the send on the response channel and the receive of a slot holder never block |
| BulkheadTheorems.SettledAccount | internal/gateway/bulkhead.go:46-104 | when every call has settled, the semaphore and activeCount equal the lost slots and the queue is exactly the requests never told |
| BulkheadTheorems.QuiescenceIsCleanIff | internal/gateway/bulkhead.go:46-104 | once all calls have returned everything is free and zero if and only if no wait timed out or was cancelled |
| BulkheadTheorems.StuckIsLostWakeup | internal/gateway/bulkhead.go:46-104 | with a slot still recoverable, no thread can move only when all calls are over except waits in the queue, and slots are free |
| BulkheadWakeups.NobodyStrandedIff | internal/gateway/bulkhead.go:46-104 | no schedule of n requests without timeouts leaves one waiting when nothing can move, if and only if n is at most the limit or the queue size is zero |
| BulkheadWakeups.NobodyStrandedWithinIff | internal/gateway/bulkhead.go:46-104 | the same for any number of requests with never more than k calls in progress, if and only if k is at most the limit or the queue size is zero |
| BulkheadWakeups.PatientRunsEndClean | internal/gateway/bulkhead.go:46-104 | a maximal run without timeouts ends with all slots free and exact counters; each request was refused, finished, with exactly one grant if it had queued, or is stranded, which takes n above the limit and a queue |
| BulkheadTheorems.RunsAreFinite | internal/gateway/bulkhead.go:46-104 | n requests take at most 10 n steps under any schedule |
| BulkheadTheorems.AbandonedForever | internal/gateway/bulkhead.go:92-99 | the number of lost slots never decreases |
| BulkheadHangs.SaturationIsPermanent | internal/gateway/bulkhead.go:59-99 | once every slot is lost or promised to a request that left, in every continuation nobody is admitted and a releaser at line 68 stays there |
| BulkheadHangs.BlockedReleaserHangsIff | internal/gateway/bulkhead.go:59-99 | a releaser blocked at line 68 is there in every continuation, in whatever order blocked senders are served, if and only if every slot owner is doomed: left with its grant, or a releaser about to tell a request that left |
| BulkheadFifo.HangsInOrderIff | internal/gateway/bulkhead.go:59-99 | with blocked senders served first come, first served, it is there in every continuation if and only if the owners not doomed are no more than the releasers served before it whose requests have left |
| BulkheadFifo.HangsBehindALostSlot | internal/gateway/bulkhead.go:67-73 | a reachable state has a slot owner that is not doomed and a releaser that hangs all the same |
| BulkheadFifo.InOrderIsReachable | internal/gateway/bulkhead.go:46-104 | serving in order only restricts the schedules of the machine |
| BulkheadHangs.ReleaseCanHangIff | internal/gateway/bulkhead.go:46-104 | some schedule of n requests makes a Release call hang for ever if and only if limit and queue size are at least 1 and n is at least twice the limit plus 2 |
| BulkheadWitnesses.ActiveCountCanExceedLimit | internal/gateway/bulkhead.go:48-63 | a reachable state reports more active requests than the limit |
| BulkheadWitnesses.QueuedCountCanBeNegative | internal/gateway/bulkhead.go:67-89 | a reachable state reports a negative queue length |
| BulkheadWitnesses.WakeupCanBeLost | internal/gateway/bulkhead.go:54-89 | a reachable state has a waiting request, free slots and no thread that can move |
| BulkheadWitnesses.SlotCanBeLost | internal/gateway/bulkhead.go:92-99 | a reachable state has all calls returned and the slot taken |
| BulkheadWitnesses.ReleaseCanHangForever | internal/gateway/bulkhead.go:67-73 | a reachable state has a releaser blocked at line 68 in every continuation, the only slot being lost |
| BulkheadWitnesses.HangsWithNothingLost | internal/gateway/bulkhead.go:67-73 | the same in a state in which no slot is lost yet |
| ServiceBulkhead.ServiceBulkhead.constructor | internal/gateway/bulkhead.go:38-44 | a new bulkhead is empty |
| ServiceBulkhead.ServiceBulkhead.TryAcquire | internal/gateway/bulkhead.go:46-57 | the reply and the channel lengths after a whole call, given what others call while it waits and which way the wait ends; requests leave the queue in order, each with one response |
| ServiceBulkhead.ServiceBulkhead.TryQueue | internal/gateway/bulkhead.go:79-104 | the same when the semaphore is full: queue at the back and wait, or refuse and change nothing |
| ServiceBulkhead.ServiceBulkhead.Release | internal/gateway/bulkhead.go:59-77 | hands the slot to the oldest queued request, which alone gets a response, or frees it |
| ServiceBulkhead.ServiceBulkhead.Await | internal/gateway/bulkhead.go:92-99 | the wait takes a response that came, or ends by timeout or cancellation and leaves the request where it is; the reply is the context's error if and only if the caller cancelled |
| ServiceBulkhead.AcquiresIff | internal/gateway/bulkhead.go:46-104 | TryAcquire succeeds if and only if a slot is free, or there is room in the queue, the response wins, and others release more slots during the wait than requests were queued before; it answers QueueFull if and only if slots and queue are full, the context's error if and only if it queued and the caller cancelled, and a timeout in exactly the other cases |
| ServiceBulkhead.CallsAreBooks | internal/gateway/bulkhead.go:46-77 | what the calls of others do to the channel lengths is what those calls do to the whole bulkhead |
| ServiceBulkhead.CallsCount | internal/gateway/bulkhead.go:46-77 | whatever others call, slots taken and queue length are one count of the requests inside: it grows by one per call that finds room, shrinks by one per release of a slot that is theirs, and determines both |
| ServiceBulkhead.AcquisitionCounts | internal/gateway/bulkhead.go:46-104 | a call that is not refused is one more inside, besides what others do while it waits |
| ServiceBulkhead.EveryCallSequenceConserves | internal/gateway/bulkhead.go:46-77 | over all call sequences a non-empty queue means all slots taken, counters equal channel lengths, and slots go out in queueing order |
| ServiceBulkhead.AcquireIsASchedule | internal/gateway/bulkhead.go:46-89 | the class's TryAcquire is an uninterrupted run of the machine |
| ServiceBulkhead.ReleaseIsASchedule | internal/gateway/bulkhead.go:59-77 | so is its Release, in any reachable state, and the oldest request finds its response |
| ServiceBulkhead.AloneIsARun | internal/gateway/bulkhead.go:46-104 | an uninterrupted run is a schedule of the machine |
| CircuitBreaker.CircuitBreaker.constructor | internal/gateway/circuitbreaker.go:55-60 | a new breaker is closed with an empty history |
| CircuitBreaker.CircuitBreaker.CanRequest | internal/gateway/circuitbreaker.go:62-84 | answers as the history of calls demands and keeps every counter equal to its count of that history; an open breaker admits if and only if the timeout has passed since the last failure, and is then half-open |
| CircuitBreaker.CircuitBreaker.RecordSuccess | internal/gateway/circuitbreaker.go:86-99 | keeps state and counters equal to those of the longer history |
| CircuitBreaker.CircuitBreaker.RecordFailure | internal/gateway/circuitbreaker.go:101-116 | the same for a failure, whose time is remembered in every state |
| CircuitBreaker.CircuitBreaker.SetState | internal/gateway/circuitbreaker.go:118-135 | a real change clears the half-open counters, closing clears failures too, no change clears nothing |
| CircuitBreaker.CircuitBreaker.GetState | internal/gateway/circuitbreaker.go:137-141 | reports the state the history implies |
| CircuitBreaker.ClosedBacklog | internal/gateway/circuitbreaker.go:86-106 | while closed, failureCount is the run of failures since the last success |
| BreakerTheorems.ClosedIffBelowThreshold | internal/gateway/circuitbreaker.go:62-135 | in every reachable state the breaker is closed if and only if failureCount is below the threshold |
| BreakerTheorems.TripsIffRunReached | internal/gateway/circuitbreaker.go:101-112 | a breaker has tripped if and only if some run of failures reached the threshold |
| BreakerTheorems.RunIsCounted | internal/gateway/circuitbreaker.go:86-106 | failures in a row make a run of at least their number, and no run is longer than the events since a success |
| BreakerTheorems.EpisodeLastsIff | internal/gateway/circuitbreaker.go:86-116 | a half-open episode goes on if and only if no failure and fewer successes than the threshold were recorded in it |
| BreakerTheorems.EpisodeEndsIff | internal/gateway/circuitbreaker.go:86-116 | an episode ends closed if and only if SuccessThreshold successes come with no failure among them, and open if and only if a failure comes before that |
| BreakerTheorems.EpisodeIsCool | internal/gateway/circuitbreaker.go:69-73 | an episode starts at least the timeout after the last failure |
| BreakerTheorems.CoolDown | internal/gateway/circuitbreaker.go:69-80 | every admission while not closed is at least the timeout after the most recent failure |
| BreakerTheorems.Quarantine | internal/gateway/circuitbreaker.go:69-116 | a failure that leaves the breaker not closed shuts out every request of the next timeout, whatever is called in between |
| BreakerTheorems.EpisodeBudget | internal/gateway/circuitbreaker.go:69-80 | an episode admits exactly requestCount + 1 requests, at most MaxRequests + 1 |
| BreakerTheorems.UnansweredAsksShutOut | internal/gateway/loadbalancer.go:114-118 | questions without records, which the health filter puts to every backend, exhaust a half-open breaker until an outcome is recorded |
| BreakerTheorems.OpenAdmitsIff | internal/gateway/circuitbreaker.go:69-74 | an open breaker admits if and only if the timeout has passed since the last failure, and half-opens with exactly the request it admits |
| BreakerTheorems.UnansweredAdmissions | internal/gateway/circuitbreaker.go:69-80 | while no outcome is recorded, an open breaker admits exactly min(n, MaxRequests + 1) of n requests from the first one after its timeout on, and none before it |
| BreakerTheorems.UnansweredAdmissionsBound | internal/gateway/circuitbreaker.go:69-80 | from any state but closed, at most MaxRequests + 1 requests are admitted until an outcome is recorded |
| BreakerTheorems.EpisodeAccount | internal/gateway/circuitbreaker.go:69-97 | with one record per admission, outstanding + successes >= requestCount + 1 |
| BreakerTheorems.NoWedgeIff | internal/gateway/circuitbreaker.go:69-97 | an exhausted half-open breaker always has an outstanding request, over all disciplined histories, if and only if SuccessThreshold <= MaxRequests + 1 |
| BreakerTheorems.WedgeIsForever | internal/gateway/circuitbreaker.go:75-80 | a wedged breaker admits nothing in any continuation |
| LoadBalancer.GetHealthyBackends | internal/gateway/loadbalancer.go:112-123 | keeps, in order, the backends marked healthy whose breaker admits, and puts one question to every backend's breaker, fit or not |
| LoadBalancer.ClosedPassAll | internal/gateway/loadbalancer.go:112-123 | behind closed breakers exactly the backends marked healthy pass, in order |
| LoadBalancer.EveryEntryAsks | internal/gateway/loadbalancer.go:114-115 | a breaker is asked exactly once per entry of the list, in its order and at that entry's time |
| LoadBalancer.OpenIsNotSelected | internal/gateway/loadbalancer.go:112-123 | no backend passes while its breaker is open and has not cooled down |
| LoadBalancer.CooledIsSelected | internal/gateway/loadbalancer.go:112-123 | the first healthy backend of an open breaker passes once it has cooled down |
| LoadBalancer.ExhaustedIsNotSelected | internal/gateway/loadbalancer.go:112-123 | no backend passes while its half-open breaker has had MaxRequests questions |
| LoadBalancer.ProbeIsSelected | internal/gateway/loadbalancer.go:112-123 | a healthy backend passes while its half-open breaker, asked for the entries before it, has had fewer |
| LoadBalancer.AsksKeepClosed | internal/gateway/circuitbreaker.go:66-68 | without failures a closed breaker stays closed |
| LoadBalancer.RoundRobinBalancer.SelectBackend | internal/gateway/loadbalancer.go:24-32 | advances the uint64 counter and picks by it, or reports none and leaves the counter |
| LoadBalancer.RandomBalancer.SelectBackend | internal/gateway/loadbalancer.go:44-52 | picks some healthy backend |
| LoadBalancer.LeastConnectionsBalancer.SelectBackend | internal/gateway/loadbalancer.go:69-92 | picks the first healthy backend with the least connections |
| LoadBalancer.LeastConnectionsBalancer.IncrementConnections | internal/gateway/loadbalancer.go:98-102 | one more for this URL, nothing else, counts stay non-negative |
| LoadBalancer.LeastConnectionsBalancer.DecrementConnections | internal/gateway/loadbalancer.go:104-110 | one less unless already zero |
| LoadBalancer.LeastConnectionsTakesTurns | internal/gateway/loadbalancer.go:69-102 | n rounds from idle over k backends leave n/k or n/k + 1 each, in order, as turns of a round robin |
| LoadBalancer.TakeTurns | internal/gateway/loadbalancer.go:69-102 | n calls of SelectBackend and IncrementConnections, from idle and behind closed breakers, make those turns among the backends marked healthy |
| RoundRobinFairness.CounterAfterSum | internal/gateway/loadbalancer.go:30 | n selections advance the counter by n modulo 2^64 |
| RoundRobinFairness.NewBalancerCountsUp | internal/gateway/loadbalancer.go:30-31 | the i-th selection of a new balancer picks index i modulo k until the counter wraps at 2^64 |
| RoundRobinFairness.PicksCount | internal/gateway/loadbalancer.go:30-31 | a closed form for how often each index is picked with the wrapping counter |
| RoundRobinFairness.FairWithoutWrap | internal/gateway/loadbalancer.go:24-32 | a window of n selections that does not wrap picks each of k backends n/k times, rounded down or up |
| RoundRobinFairness.SelectRepeatedly | internal/gateway/loadbalancer.go:24-32 | n calls of SelectBackend behind closed breakers pick each healthy backend as often as the counter alone says, and keep the breakers closed |
| RoundRobinFairness.SpreadGrowsWithWraps | internal/gateway/loadbalancer.go:24-32 | with w wraps any two counts differ by at most 1 + w |
| RoundRobinFairness.FairAcrossWrapIff | internal/gateway/loadbalancer.go:24-32 | every window is fair across the wrap at 2^64 if and only if k is a power of two |
| Retry.ExecuteWithRetry | internal/gateway/retry.go:31-67 | the number of attempts, the error reported and the pauses between attempts, for every script of outcomes |
| Retry.StopsAtFirst | internal/gateway/retry.go:34-64 | the run goes on past exactly those outcomes that have an error which is retryable or comes with a status of at least 500, up to the limit |
| Retry.ReportsLastServerError | internal/gateway/retry.go:49-66 | a run that does not end in success reports the error of its last attempt that failed with a status of at least 500, nil if there is none |
| Retry.CalculateDelay | internal/gateway/retry.go:69-83 | without jitter the whole part of the exponential below MaxDelay and MaxDelay from there on; with jitter within 25% of that |
| Retry.BackoffExact | internal/gateway/retry.go:70-74 | the delay before jitter is the whole part of the exponential, or MaxDelay if the exponential has reached it |
| Retry.JitterSpans | internal/gateway/retry.go:76-80 | the random draw moves the delay monotonically from three quarters of it, through the delay itself at one half |
| Retry.PausesArePaced | internal/gateway/retry.go:62-83 | each pause of a run is within these bounds |
| Retry.NilMeansSuccessIff | internal/gateway/retry.go:36-66 | nil means success exactly when the last attempt succeeded or some attempt was a server error |
| Retry.NilMeansSuccessForIff | internal/gateway/retry.go:36-66 | over all scripts of outcomes from a given set, nil means success if and only if each outcome in the set is a success or an error with a status of at least 500 |
| Retry.ErrorCanBeDropped | internal/gateway/retry.go:41-66 | an error with a status below 500 is reported as nil |
| Retry.CoherentScripts | internal/gateway/retry.go:34-66 | when an error means a status of at least 500, the loop stops at the first success or the limit and nil means success |
| Retry.BackoffGrows | internal/gateway/retry.go:69-74 | delays before jitter never shrink and never exceed MaxDelay |
| Retry.GeometricClosedForm | internal/gateway/retry.go:70 | the sum of the exponentials in closed form |
| Retry.TotalSleepBound | internal/gateway/retry.go:34-64 | the pauses of a run sum to at most 1.25 times the flat and the geometric bound |
| ResponseBuffer.BufferingResponseWriter.Accept | internal/gateway/proxy.go:219-235 | the buffer holds what the backend's calls so far put there |
| ResponseBuffer.BufferingResponseWriter.ReplayTo | internal/gateway/proxy.go:237-251 | a client that has been sent at most headers gets the buffer's headers after its own, then status and body, whatever the key order |
| ResponseBuffer.BufferingIsTransparent | internal/gateway/proxy.go:45-59 | a replayed response equals one written to the client directly, and its status is the one judged |
| ResponseBuffer.LastStatusCounts | internal/gateway/proxy.go:233-235 | in any order of calls the status written last is the buffer's and the one judged; without one the buffer has none and 200 is judged |
| ResponseBuffer.BufferKeepsAll | internal/gateway/proxy.go:219-231 | in any order of calls the buffer keeps every header value, even after the status, in order, and all bytes |
| ResponseBuffer.ReplaySendsAll | internal/gateway/proxy.go:237-251 | and a replay sends them all after what the client has |
| ProxyAttempts.OutcomeOf | internal/gateway/proxy.go:82-117 | an attempt returns an error if and only if its status is at least 500, and succeeds if and only if it was answered below 500 |
| Proxy.Exchange.ExecuteRequest | internal/gateway/proxy.go:183-217 | returns the status written last, 200 if none, 500 for a bad URL; the answer is in the buffer |
| BulkheadPool.Bulkheads.Arrive | internal/gateway/proxy.go:87-94 | an attempt's TryAcquire at one URL leaves all other bulkheads as they were |
| BulkheadPool.Bulkheads.Depart | internal/gateway/proxy.go:95 | so does its Release, which never blocks; whatever others call while the slot is held, it leaves one fewer inside than they did |
| BulkheadPool.DepartureReturnsSlot | internal/gateway/proxy.go:95 | releasing the slot takes one request off slots and queue together, after any calls by others |
| BulkheadPool.VisitCounts | internal/gateway/proxy.go:87-95 | after a whole attempt under any traffic the bulkhead holds what others did to the count, plus one for an entry abandoned in the queue |
| ProxyAttempts.RequestIsACount | internal/gateway/proxy.go:80-118 | so through all attempts of a request, at every bulkhead |
| BackendSelection.SelectBackend | internal/gateway/proxy.go:174-181 | the answer of the route's balancer, none exactly when nobody is fit; every breaker of the route is asked once per entry, and only a round robin that finds somebody advances |
| BackendSelection.NobodyIffNoneHealthy | internal/gateway/loadbalancer.go:112-123 | behind closed breakers each of a request's selections finds nobody if and only if no backend is marked healthy |
| BackendSelection.LeastConnectionsRepeats | internal/gateway/proxy.go:80-105 | behind closed breakers all attempts of a request under least connections select the same backend |
| BackendSelection.RoundRobinMovesOn | internal/gateway/proxy.go:80-82 | behind closed breakers each attempt under round robin selects the next backend in turn |
| ProxyAttempts.NoBackendIffNoneHealthy | internal/gateway/proxy.go:80-85 | so an attempt comes to no backend if and only if none is marked healthy |
| Proxy.Exchange.Operation | internal/gateway/proxy.go:80-118 | one attempt: its selection and the questions it puts to the breakers, its outcome, a replay only of a good answer, all connection counts as before, the bulkheads as its visit leaves them, undisturbed exactly as before; the backend is called with a slot taken and one connection more counted |
| Proxy.Exchange.RunAttempts | internal/gateway/proxy.go:80-118 | the retry loop around it: attempts, error and pauses as the retry loop prescribes, nothing shown to the client before a good answer, counts restored |
| Proxy.Exchange.ServeRoute | internal/gateway/proxy.go:77-132 | all of a matched request: the selections, the attempts, exactly one response, counts restored; each breaker's history gains the questions of every selection and then the success, if any, of the backend replayed: one question per attempt and entry, one success for that backend's breaker, whose run of failures ends, none for the others |
| Proxy.ServeHTTP | internal/gateway/proxy.go:61-133 | 404 if and only if no route matches the path; else the first match, its cached or new balancer, and the above, with one success more on the breaker of the backend whose answer the client was sent and on no other |
| Proxy.HistoriesLeft | internal/gateway/proxy.go:80-131 | spells the state ServeHTTP leaves out for the breakers: old history, then the questions of every selection, then the verdict |
| Proxy.RequestCounts | internal/gateway/proxy.go:80-131 | counted over any history: one question per attempt and entry, one success if and only if the last attempt was good and at this breaker's backend, no failure |
| Proxy.RequestKeepsClosed | internal/gateway/proxy.go:80-131 | a request that finds the breakers of its route closed leaves them closed |
| Proxy.ExactlyOneResponse | internal/gateway/proxy.go:69-131 | one replay of the first good answer within the limit and no attempt after it, or one 503 |
| Proxy.ClientSeesTheLastAnswer | internal/gateway/proxy.go:103-116 | the client sees that answer as written, with a status below 500, and nothing of failed attempts |
| ProxyAttempts.QuietRequestReturnsAll | internal/gateway/proxy.go:80-118 | a request nobody disturbs returns every slot, whatever its attempts come to, and leaves one queue entry per attempt that had to queue, up to the queue size |
| ProxyAttempts.EveryRunHasAScript | internal/gateway/proxy.go:80-118 | whatever is selected, every sequence of attempts at those backends is what some script comes to |
| Proxy.ProxyNeverTrips | internal/gateway/proxy.go:120-131 | under every interleaving of requests a breaker stays closed and admits everything |
| Isolation.GatewayInv | internal/gateway/proxy.go:87-105 | the books of every URL hold under every interleaving of all requests |
| Isolation.BackendsAreIsolated | internal/gateway/proxy.go:34-40 | requests inside executeRequest for a URL never exceed its limit less its lost slots |
| Isolation.ConnectionsAreExact | internal/gateway/loadbalancer.go:98-110 | a balancer's count for a URL is its requests between increment and decrement, within the limit, and the guard of the decrement never fires |
| Isolation.AttemptIsASchedule | internal/gateway/proxy.go:87-105 | an undisturbed attempt is a schedule of these moves that gives slot and count back |
| GatewayConfig.PatternMeaning | internal/gateway/config.go:119-126 | a pattern matches its own text, or everything that extends what precedes its wildcard |
| GatewayConfig.MatchRoute | internal/gateway/config.go:110-117 | the first matching route, or none if none matches |
| GatewayConfig.EqualPatternsSameRoute | internal/gateway/config.go:110-117 | a later route with an equal pattern is never reached |
| BalancerCache.CacheAgreesWithUncached | internal/gateway/proxy.go:148-172 | under every interleaving each entry is written at most once, all callers for a pattern share it, and its kind is that of the route they were matched to |
| ProxyState.NewLoadBalancer | internal/gateway/loadbalancer.go:125-136 | a fresh balancer of the kind the strategy names, round robin by default |
| ProxyState.Proxy.constructor | internal/gateway/proxy.go:23-43 | exactly one idle bulkhead per backend URL, none shared between URLs |
| ProxyState.Proxy.GetLoadBalancer | internal/gateway/proxy.go:148-172 | undisturbed, returns the cached balancer or caches a new one |
| Registry.ServiceRegistry.RegisterService | internal/gateway/registry.go:29-40 | sets one flat entry, replacing the old instance, and nothing else |
| Registry.ServiceRegistry.DeregisterService | internal/gateway/registry.go:42-60 | removes one flat entry and the table it empties; tells a missing route from a missing service |
| Registry.ServiceRegistry.GetServices | internal/gateway/registry.go:62-75 | exactly the instances of the route, each once, nil if there are none |
| Registry.ServiceRegistry.GetAllRoutes | internal/gateway/registry.go:77-86 | exactly the inhabited routes, each once |
| Registry.ServiceRegistry.UpdateServiceHealth | internal/gateway/registry.go:88-100 | changes health and time of one registered instance, else reports it missing |
| Registry.SoundAfterInsert | internal/gateway/registry.go:33-38 | after an insertion no table is empty and every instance sits under its own route and id |
| Registry.SoundAfterRemove | internal/gateway/registry.go:54-58 | the same after a removal, whose flat effect is one entry |
| HealthChecker.HealthChecker.UpdateServiceHealth | internal/gateway/healthchecker.go:84-97 | failures stays the run of failed checks per id, and only the checked instance is relabelled |
| HealthChecker.HealthChecker.UpdateAll | internal/gateway/healthchecker.go:55-62 | after any number of updates a registered instance has the label its own results call for, given the run its id came with |
| HealthChecker.RunsContinue | internal/gateway/healthchecker.go:88-93 | whatever other ids are checked, more checks of an id continue the run counted for it before |
| HealthChecker.RunIsTheTail | internal/gateway/healthchecker.go:88-93 | the run is the failed checks after the last good one, or all of them and those before |
| HealthChecker.LabelFromHistory | internal/gateway/healthchecker.go:84-97 | the label as a function of the trailing run and of whether a check ever succeeded |
| HealthChecker.HealthyIffRunBelowLimit | internal/gateway/healthchecker.go:84-97 | after a first success an instance is healthy if and only if its trailing run is below the limit |

## Left out

- HTTP transport, the reverse proxy, header rewriting, URL parsing, error page texts and logging: library code. An answer is the sequence of calls the reverse proxy makes; informational 1xx statuses and trailers are not among those for which buffering is shown transparent.
- BulkheadHangs.BlockedReleaserHangsIff: lets any of several blocked senders take a slot that is freed; `BulkheadFifo.HangsInOrderIff` is the result for Go's order, first come, first served.
- Timers, contexts and sleeping: timeouts are free choices, the clock is an argument, pauses are returned as values.
- ServiceBulkhead.ServiceBulkhead.Await: does not model the race of the select at line 92 in time; which branch wins is an argument.
- The class version of the bulkhead takes each call of others as one step; interference inside a call is in the interleaving machine only.
- Other requests' changes of connection counts while a request runs are in `Isolation.dfy` only, their questions to its breakers in `Proxy.ProxyNeverTrips` only, and their turns of its round robin are not modelled.
- Release without a held slot blocks for ever in Go; the proxy never does it, and the model starts Release only from a holder.
- Retry.CalculateDelay: does not model rounding of floats or durations out of range; it computes over the reals and truncates as the conversion does.
- Retry.BackoffGrows: assumes a non-negative initial and maximal delay and a multiplier of at least 1, which the source takes for granted.
- isRetryableError: its string matching is a boolean of the error; in the proxy every failed attempt has a status of at least 500, so it does not affect the decision.
- LoadBalancer.RandomBalancer.SelectBackend: does not model the distribution of the random source, only that it picks a healthy backend.
- Saturation of time.Since and overflow of the breaker's and bulkhead's integer counters.
- Target-only routes (internal/gateway/config.go:133-138) carry no breaker and no bulkhead; a route here has the backends it lists.
- Isolation assumes one configuration for all bulkheads, as NewProxy gives them.
- HealthChecker.HealthChecker.UpdateAll: speaks of instances whose id no other route shares among the results; failures are counted per id, and instances that share one share its count.
- HealthChecker.Start reads the registry without its lock; only the updates it makes are modelled.
- Registry handlers, authentication, users, database, migrations, mock services and main programs: plumbing over libraries.
