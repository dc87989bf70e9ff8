# Fortify: a verified model

Fortify is a Go library of resilience patterns. This project models its stateful cores in Dafny and
proves what they promise. Each file covers one component.

- `CountWindow.dfy`, `TimeWindow.dfy`: the two sliding windows, ring buffers against the plain history of outcomes.
- `Counts.dfy`, `BreakerConfig.dfy`: the breaker's counters, trip predicates and configuration.
- `BreakerMachine.dfy`: the circuit breaker as a machine over values, with whole-run theorems;
  `CircuitBreaker.dfy` is the object that refines it in place, and `FastAdmit.dfy` the lock-free
  admission under interleaving. `TimeTrip.dfy` is when a time window opens it.
- `RedisBreaker.dfy`: the distributed breaker, two scripts on one hash, any interleaving of clients.
- `TokenBucket.dfy`, `RateLimiter.dfy`: the token arithmetic and the limiter object with its wait loop.
- `MemoryStore.dfy`: the key-counting protocol of the in-memory store.
- `Bulkhead.dfy`: semaphores, queue, worker, reply channels and shutdown as interleaved steps.
- `BudgetCost.dfy`, `LockFreeBudget.dfy`, `WindowedBudget.dfy`: the cost budget in both modes.
- `AdaptiveLimiter.dfy`: the compare-and-swap loops of the adaptive limiter; `AdaptiveControl.dfy` is the control
  laws of its three algorithms, `AdaptiveRuns.dfy` how the limit moves by them, and `AdaptiveAIMD.dfy` how many
  successes raise it.
- `Errors.dfy`, `Backoff.dfy`, `Retry.dfy`: the retry loop and its delays.
- `Chain.dfy`, `LLMCall.dfy`, `Layering.dfy`: chain composition, the whole life of an LLMCall chain,
  and what the order of retry and breaker means.
- `Basics.dfy`, `Modular.dfy`: shared vocabulary.

Code that changes state step by step is modelled in one of two ways. Where one lock covers a whole
operation, a class refines a function from old to new state and the theorems are about that function.
Where threads interleave, each atomic operation or locked section is one step of a deterministic
`Apply`; an action that is not enabled changes nothing, and a theorem over every `seq<Action>` is a
theorem over every interleaving. Times are integer nanoseconds (milliseconds for the Redis breaker)
and are parameters, as are random numbers, context cancellation, store failures and what the wrapped
function returns.

## Where the code and its documentation differ

The model follows the code in each of these, and gives the exact condition where the promise fails.

- `circuitbreaker/config.go:51-54` calls MaxRequests the maximum number of requests let through in
  Half-Open. Requests are counted when they complete, so every request is let through
  (`BreakerMachine.HalfOpenAdmitsEveryone`); MaxRequests is the number of successes that closes the circuit.
- `middleware/chain.go:37-38` says that with retry outside the breaker, a threshold of 5 and 3 attempts,
  two recovered blips open the circuit. They do not, one after the other or overlapping; it takes three
  at once (`Layering.TwoBlipsDoNotOpen`). A recovered call ends with a success that resets the streak, so
  a streak is only ever made of calls still in progress. Let Burst be the most failures in a row of one
  recovered call whose backoffs fit into one Interval (MaxAttempts - 1 when Interval is 0 or holds them
  all): with at most m calls at a time recovered calls are harmless if and only if m * Burst is less than
  the threshold (`Layering.RetryOutsideIsSafeExactly`). `docs/concepts.md:123-125` gives "threshold at most
  MaxAttempts" for a single blip; for one call at a time it is "threshold at most Burst", that is, "less
  than MaxAttempts" where nothing is cleared between its attempts (`Layering.OneCallAtATime`).
- The time window is exact only while no in-window second loses its bucket to another lap, which a wall
  clock that steps back can cause (`TimeWindows.StepBackLosesAnOutcome`);
  `TimeWindows.WindowRefinesHistory` gives the exact condition.
- Resetting the Redis breaker restarts its generations, so an outcome admitted before a Reset can count
  after it (`RedisBreaker.ResetRevivesAStaleAdmission`): Reset cuts off the past if and only if no client
  holds an admission it may still record (`RedisBreaker.ResetIsCleanExactly`).
- The Redis breaker's `State()` promises a read (examples/circuitbreaker-redis/breaker.go:284-285) but runs
  the admission script, so it can take a trial slot that nobody ever records. A trial can still close the
  circuit if and only if none of its slots is lost this way or with a client
  (`RedisBreaker.TrialCanCloseExactly`), and can still end at all if and only if not all of them are
  (`RedisBreaker.TrialCanEndExactly`).
- The lock-free admission loads the generation last (circuitbreaker/breaker.go:293-297). A call let in by a
  Closed regime can thus carry the generation of a later trial that admitted nobody, and decide it
  (`FastAdmission.FastAdmissionCanDecideATrial`); `FastAdmission.LaterGenerationExactly` says exactly when.
- `adaptive/adaptive.go:7-8` and `docs/concepts.md:266` promise one increase on every SuccessThreshold successes.
  The count and its clearing are two atomic operations, and a success counted in between raises the limit again
  (`AdaptiveAIMD.HurriedSuccessesRaiseTwice`). In every interleaving there are at least as many increases as
  promised, and more exactly when clearings that found less than SuccessThreshold - 1 in the counter were short
  of it by more than the counter now holds (`AdaptiveAIMD.SuccessesAreConserved`); the promise holds when no
  success is counted between another's count and its clearing (`AdaptiveAIMD.UnhurriedSuccessesAreExact`).
- A bulkhead caller that gave up on QueueTimeout may still have its function started
  (`Bulkhead.ATimedOutCallerIsRun`): exactly while the worker holds its request
  (`Bulkhead.StartsAfterLeavingExactly`).

## Model

| member | source | states |
|---|---|---|
| CountWindows.RetainedFailuresStep | circuitbreaker/window.go:112-126 | The failures among the last size outcomes change, on one more outcome, by that outcome and by the one that drops out; this is what makes the O(1) counter correct. |
| CountWindows.CountWindow.Record | circuitbreaker/window.go:112-126 | After any sequence of records and resets the ring holds exactly the last min(n, size) outcomes and the counter equals the failures among them (`Valid`); the history grows by this outcome. |
| CountWindows.CountWindow.Stats | circuitbreaker/window.go:128-130 | Reports how many outcomes are retained and how many of those failed, against the history. |
| CountWindows.CountWindow.Reset | circuitbreaker/window.go:132-137 | Starts an empty history. |
| TimeWindows.SlotIsModulo | circuitbreaker/window.go:166-176 | The doubled remainder is the mathematical one, in range also for times before 1970. |
| TimeWindows.BucketIsExact | circuitbreaker/window.go:166-184 | For any recorded sequence a second's bucket never reports more of it than was recorded, and all of it exactly when no other lap took the bucket over since. |
| TimeWindows.RingSumIsExact | circuitbreaker/window.go:186-197 | The same for any prefix of the ring: the loop of stats neither double-counts nor, unless a bucket was taken over, loses an outcome. |
| TimeWindows.WindowRefinesHistory | circuitbreaker/window.go:142-201 | stats(now) never exceeds the calls and failures recorded in the last size seconds, and equals the calls if and only if no outcome among them lost its bucket; then the failures are equal too. |
| TimeWindows.SteadyClockLosesNothing | circuitbreaker/window.go:142-201 | With seconds that never decrease that condition always holds, so the window refines the history. |
| TimeWindows.StepBackLosesAnOutcome | circuitbreaker/window.go:166-176 | A concrete clock step backwards by a lap that loses an outcome still inside the window. |
| TimeWindows.TimeWindow.BucketFor | circuitbreaker/window.go:166-176 | The bucket of this second, cleared only if it held another; no other bucket moves. |
| TimeWindows.TimeWindow.Record | circuitbreaker/window.go:178-184 | The ring in place is the ring of the history extended by this outcome. |
| TimeWindows.TimeWindow.Stats | circuitbreaker/window.go:186-197 | The accumulating loop computes the window statistics of the history, with the bounds and the exactness condition above. |
| TimeWindows.TimeWindow.Reset | circuitbreaker/window.go:199-201 | Starts an empty history. |
| BreakerCounts.CountsFoldTheLog | circuitbreaker/state.go:59-81 | The five counters are the fold of the outcome log: totals and both trailing streaks. |
| BreakerCounts.TrailingRunIsSuffix | circuitbreaker/state.go:59-73 | A streak of at least n means exactly that the last n outcomes agree. |
| BreakerCounts.ConsecutivePredicateMeaning | circuitbreaker/predicates.go:40-45 | TripOnConsecutiveFailures fires on a log exactly when its last n outcomes failed, n clamped to at least 1. |
| BreakerCounts.RatioPredicateMeaning | circuitbreaker/predicates.go:69-85 | TripOnFailureRatio fires on a log exactly when enough outcomes are in and the clamped share of them failed, inclusive. |
| BreakerCounts.Counters.OnSuccess | circuitbreaker/state.go:59-65 | The in-place update is the fold step for a success. |
| BreakerCounts.Counters.OnFailure | circuitbreaker/state.go:67-73 | The in-place update is the fold step for a failure. |
| BreakerCounts.Counters.Reset | circuitbreaker/state.go:75-81 | All counters zero. |
| BreakerConfig.NormalizeSlidingWindow | circuitbreaker/window.go:205-238 | Every configuration becomes a usable window or none, usable ones are kept, and a count window's MinimumCalls is only lowered to what it can hold. |
| BreakerConfig.SetDefaults | circuitbreaker/config.go:108-135 | Every configuration becomes usable; a usable one and a caller's ReadyToTrip are kept. |
| BreakerConfig.Resolve | circuitbreaker/breaker.go:164-193 | New always yields settings the machine's theorems apply to, with a window exactly when one was asked for and ReadyToTrip does not override it, and then of the kind, size, minimum and threshold asked for, bounded or defaulted. |
| BreakerMachine.RunKeepsInv | circuitbreaker/breaker.go:333-483 | Over every run the counters are the fold of the outcomes accepted since they were cleared, Half-Open logs hold fewer than MaxRequests outcomes, all successes, and Closed never sits on a count window that trips. |
| BreakerMachine.GenerationStep | circuitbreaker/breaker.go:391-483 | The generation rises by exactly one on every state change or Reset and otherwise stays. |
| BreakerMachine.GenerationsNameRegimes | circuitbreaker/breaker.go:391-483 | Over any run generations never fall, and while one lasts the state is the same and the log only grows. |
| BreakerMachine.StaleOutcomeIsIgnored | circuitbreaker/breaker.go:370-387 | An outcome admitted under an older generation has no effect beyond that of looking at the state. |
| BreakerMachine.StaleOutcomesNeverMatter | circuitbreaker/breaker.go:370-387 | Over a whole run the outcomes of older generations might as well never have come back: state, counters, window and deadlines end up the same. |
| BreakerMachine.NoAdmissionBeforeTimeout | circuitbreaker/breaker.go:333-407 | Absent Reset, whatever happens in between, every request up to Timeout after opening is rejected with the exact remaining time, and the first later one is admitted as a trial. |
| BreakerMachine.HalfOpenCounts | circuitbreaker/breaker.go:411-431 | In Half-Open the requests, the success streak and the log length are one number below MaxRequests. |
| BreakerMachine.HalfOpenVerdict | circuitbreaker/breaker.go:423-452 | A trial outcome opens the circuit exactly on failure and closes it exactly on the MaxRequests-th success. |
| BreakerMachine.TrialRun | circuitbreaker/breaker.go:423-431 | k successes into a trial the circuit is Half-Open exactly while k is below MaxRequests. |
| BreakerMachine.HalfOpenAdmitsEveryone | circuitbreaker/breaker.go:333-349 | Any number of requests arriving in Half-Open before a trial completes is admitted, all under the same generation. |
| BreakerMachine.TripIsExact | circuitbreaker/breaker.go:411-452 | With a count window an accepted Closed outcome opens the circuit exactly when the retained outcomes reach MinimumCalls and the threshold share of them failed. |
| BreakerMachine.ClosedMeansQuiet | circuitbreaker/breaker.go:411-452 | After any run from New a Closed circuit's count window does not trip. |
| BreakerMachine.ConsecutiveFailuresOpen | circuitbreaker/window.go:205-248 | Any SlidingWindowSize failures reported to a Closed circuit with no success between them open it, whatever the window held and whatever requests, looks at the state and stale outcomes come in between. |
| BreakerMachine.ConsecutivePolicyIsExact | circuitbreaker/breaker.go:435-452 | Without a window and with the shipped predicate the circuit opens exactly on the failure that completes n in a row since the counters were cleared. |
| BreakerMachine.ResetStartsAfresh | circuitbreaker/breaker.go:311-328 | After a manual Reset in any state, and after a trial that succeeds, the run that follows is the run of a breaker made by New at that time, but for the generation. |
| BreakerMachine.IntervalClearsCounters | circuitbreaker/breaker.go:391-407 | A Closed breaker's counters count every outcome since it started afresh until exactly Interval has passed; the next look after that clears them, keeps the window and starts the next interval. |
| TimeTripping.TimeTripUnlessLost | circuitbreaker/breaker.go:411-452 | With a time window, on any clock and unless an outcome in it has lost its bucket, an accepted Closed outcome opens the circuit exactly when the era's outcomes in the last size seconds, counted one by one, reach MinimumCalls and the threshold share of them failed. |
| TimeTripping.TimeTripIsExact | circuitbreaker/window.go:186-248 | So it is after any run from New on a clock that does not step back. |
| TimeTripping.FailuresInAWindowOpen | circuitbreaker/window.go:186-248 | Failures within one window, at least MinimumCalls of them and the threshold share of themselves and the successes less than a window older, open a Closed circuit whatever comes in between. |
| CircuitBreakers.CircuitBreaker.SetState | circuitbreaker/breaker.go:456-483 | The in-place transition is the machine's; window, counters and mirrors stay consistent. |
| CircuitBreakers.CircuitBreaker.CurrentState | circuitbreaker/breaker.go:391-407 | Refines the machine, including the interval reset of the counters but not of the window. |
| CircuitBreakers.CircuitBreaker.WindowTrips | circuitbreaker/window.go:242-248 | The ring's statistics decide exactly as the outcome log does, of which `TripIsExact` and `TimeTripIsExact` say when it trips. |
| CircuitBreakers.CircuitBreaker.OnSuccess | circuitbreaker/breaker.go:411-431 | Refines the machine in place. |
| CircuitBreakers.CircuitBreaker.OnFailure | circuitbreaker/breaker.go:435-452 | Refines the machine in place. |
| CircuitBreakers.CircuitBreaker.BeforeRequest | circuitbreaker/breaker.go:333-366 | Refines the machine in place, including the content of the rejection. |
| CircuitBreakers.CircuitBreaker.AfterRequest | circuitbreaker/breaker.go:370-387 | Refines the machine in place. |
| CircuitBreakers.CircuitBreaker.Reset | circuitbreaker/breaker.go:311-328 | Refines the machine in place. |
| CircuitBreakers.CircuitBreaker.FastAdmit | circuitbreaker/breaker.go:281-298 | Admits exactly in a Closed interval that has not run out, and then the locked admission would admit under the same generation and change nothing. |
| CircuitBreakers.CircuitBreaker.Execute | circuitbreaker/breaker.go:250-276 | Nothing happens once the context has ended; else, whatever other callers do to the breaker meanwhile, the operation runs exactly when the locked admission would let it, by either path, and its outcome is recorded under the generation it was admitted with. |
| FastAdmission.RunKeepsInv | circuitbreaker/breaker.go:156-160 | With every store and load a step of its own, the mirrors equal the locked fields whenever the mutex is free, and no reader holds a generation older than the regime it saw. |
| FastAdmission.FastGenerationIsNeverStale | circuitbreaker/breaker.go:281-298 | In every interleaving a fast admission carries a generation no older than the Closed regime it observed and no newer than the current one. |
| FastAdmission.UndisturbedFastAdmitRefinesSlow | circuitbreaker/breaker.go:281-298 | A reader that runs while the mutex is free admits exactly in a Closed interval not yet run out, and only what the locked admission would, with the same generation. |
| FastAdmission.LaterGenerationExactly | circuitbreaker/breaker.go:293-297 | In every interleaving a fast admission carries another generation than that of the Closed regime it saw exactly when the breaker has left that regime and stored a later generation before the last load. |
| FastAdmission.FastAdmissionCanDecideATrial | circuitbreaker/breaker.go:293-297 | A run in which a call let in by a Closed regime carries the generation of a trial that admitted nobody, and its outcome opens or closes the circuit. |
| RedisBreaker.Hash.AdmitScript | examples/circuitbreaker-redis/breaker.go:123-172 | The script's reads, conditional writes and reply are one atomic step of the protocol, also on an absent hash. |
| RedisBreaker.Hash.RecordScript | examples/circuitbreaker-redis/breaker.go:183-242 | Likewise for the recording script. |
| RedisBreaker.Client.Execute | examples/circuitbreaker-redis/breaker.go:250-282 | One client runs the admission script once, runs fn exactly when admitted or failing open, records at most once and only under the generation it was admitted with, whatever others did to the hash meanwhile; a script that fails for it may or may not have taken effect. |
| RedisBreaker.Client.FireStateChangeIfChanged | examples/circuitbreaker-redis/breaker.go:361-374 | The callbacks of one client since its last Reset form one unbroken path of real state changes starting at Closed. |
| RedisBreaker.RunKeepsInv | examples/circuitbreaker-redis/breaker.go:123-304 | In every interleaving of clients, State() polls, lost clients and Resets: one state per generation; and as long as no record from before the last Reset has changed the hash, in half-open the trial counter is the number of the generation's admissions not recorded, held or lost, in [1, MaxRequests], and in closed the failure counter is the trailing failure run, below the threshold. |
| RedisBreaker.GenerationsOnlyGrow | examples/circuitbreaker-redis/breaker.go:123-242 | Between Resets generations never fall, a lasting generation keeps its state, and past generations keep theirs. |
| RedisBreaker.TrialVerdict | examples/circuitbreaker-redis/breaker.go:206-242 | A record ends a trial closed exactly when it is a success and leaves no admission of the generation, held or lost, and open exactly when it is a failure. |
| RedisBreaker.TrialAdmitsExactly | examples/circuitbreaker-redis/breaker.go:160-170 | A trial lets a client in exactly while fewer of its slots are taken, held or lost, than MaxRequests. |
| RedisBreaker.TrialCanCloseExactly | examples/circuitbreaker-redis/breaker.go:217-226 | After any run a trial can still close the circuit, in some continuation without Reset, if and only if none of its slots is lost to State(), a dead client or a lost record. |
| RedisBreaker.TrialCanEndExactly | examples/circuitbreaker-redis/breaker.go:148-170 | It can still end at all if and only if fewer than MaxRequests of its slots are lost. |
| RedisBreaker.LateRecordsNeverMatter | examples/circuitbreaker-redis/breaker.go:197-204 | Over any run between Resets the records that come back under an older generation might as well never have: hash, regimes and log end up the same without them. |
| RedisBreaker.StaleRecordChangesNothing | examples/circuitbreaker-redis/breaker.go:197-204 | One record under an older generation leaves hash, regimes and log as they were. |
| RedisBreaker.OpenUntilExpiry | examples/circuitbreaker-redis/breaker.go:148-172 | While open, in every interleaving before the timeout has run since the trip, the hash stays as it is and nobody is admitted. |
| RedisBreaker.OpeningSetsExpiry | examples/circuitbreaker-redis/breaker.go:206-242 | The hash opens only on a failure recorded under its own generation, and then until the time of that record plus the open duration. |
| RedisBreaker.OpenForItsDuration | examples/circuitbreaker-redis/breaker.go:148-242 | Once a record opens it, in every interleaving without Reset nobody is admitted before that record's time plus the open duration and is told what remains of it; the first to come after starts a trial. |
| RedisBreaker.ExpiryStartsATrial | examples/circuitbreaker-redis/breaker.go:148-172 | After any such interleaving the first admission past the timeout is granted and starts a trial with exactly one slot taken. |
| RedisBreaker.ResetIsCleanExactly | examples/circuitbreaker-redis/breaker.go:298-304 | After any run, everything that can happen after a Reset is independent of the clients admitted before it if and only if none of them holds an admission it may still record. |
| RedisBreaker.PollingLeavesResetClean | examples/circuitbreaker-redis/breaker.go:286-304 | A State() poll is no such client: after one the Reset is clean. |
| RedisBreaker.StaleAdmissionMatters | examples/circuitbreaker-redis/breaker.go:197-242 | Every admission a client still holds across a Reset, of whatever generation, has a continuation in which its record changes the hash. |
| RedisBreaker.RecordAcrossReset | examples/circuitbreaker-redis/breaker.go:298-304 | In the instant after a Reset, before the generations have grown again, a recorded failure has an effect if and only if it carries generation 0. |
| RedisBreaker.ResetRevivesAStaleAdmission | examples/circuitbreaker-redis/breaker.go:298-304 | A run in which an admission that was already stale reopens the freshly reset breaker. |
| TokenBucket.StoredTokensStayInRange | ratelimit/limiter.go:520-619 | Stored tokens stay in [0, Burst] for every sequence of attempts, whatever the clock does. |
| TokenBucket.GrantedFrom | ratelimit/limiter.go:520-619 | Conservation: what any sequence of attempts is granted was in the bucket or was earned by the latest time seen. |
| TokenBucket.RateSinceCreation | ratelimit/limiter.go:520-619 | From the first use at t0 until t at most Burst + Rate*(t-t0)/Interval tokens are granted. |
| TokenBucket.RateOverSpan | ratelimit/limiter.go:520-619 | Over any span [a, b], whatever came before, at most Burst + Rate*(b-a)/Interval + epsilon. |
| TokenBucket.GrantedExactly | ratelimit/limiter.go:520-619 | What a caller gets, over every run on any clock: an attempt is granted exactly when its tokens are covered by the stock and all income so far less all that was given, and, since any earlier attempt, by a full bucket and the income since less what was given since. |
| TokenBucket.TokensLeftExactly | ratelimit/limiter.go:520-619 | After any run the bucket holds at least x tokens exactly when x more would be covered in that sense: the capped closed form less what was granted. |
| TokenBucket.IncomeIsEarned | ratelimit/limiter.go:559-619 | As long as no gap is capped at an hour, that income is what the rate yields from one refill to the other. |
| TokenBucket.AtOneInstant | ratelimit/limiter.go:534-555 | Attempts at one instant share what the first of them finds: each is granted exactly when its tokens and those given before it do not exceed that. |
| TokenBucket.BurstAtOnce | ratelimit/limiter.go:520-555 | A new key starts as a full bucket, and of one-token attempts at one instant exactly the first Burst are granted. |
| TokenBucket.PollingIsExact | ratelimit/limiter.go:534-619 | After any schedule of denied attempts the tokens are exactly what one refill to the same instant would have left. |
| TokenBucket.PollingLagsByEpsilon | ratelimit/limiter.go:534-619 | Right after a denied attempt the tokens lag the closed form at that time by less than epsilon. |
| TokenBucket.EstimateBrackets | ratelimit/limiter.go:623-702 | A positive wait estimate w is the missing share of a token to the nanosecond: earned after w+1, not before w. |
| TokenBucket.EstimateIsZeroExactly | ratelimit/limiter.go:623-702 | The estimate is zero exactly when a token is there or less than a nanosecond away. |
| TokenBucket.WaitIsTight | ratelimit/limiter.go:623-702 | On an untouched bucket one token is refused at every time before now+w and granted at now+w+1 (when the hour cap and the epsilon skip do not interfere). |
| RateLimiters.SetDefaults | ratelimit/config.go:159-217 | Every configuration becomes one the arithmetic is bounded for; usable ones are kept. |
| RateLimiters.RateLimiter.TryConsume | ratelimit/limiter.go:520-555 | One key's bucket moves by the bucket step, of which `GrantedExactly` says what it grants and `TokensLeftExactly` what it leaves, a new key starting full; no other key moves. |
| RateLimiters.RateLimiter.Allow | ratelimit/limiter.go:151-208 | One token's attempt, or the fail mode when the store fails, or nothing when closed. |
| RateLimiters.RateLimiter.Take | ratelimit/limiter.go:303-398 | Never grants more than a full bucket or the request cap, not even failing open, when it grants exactly what a full bucket could; a request beyond the cap, or to a closed limiter, is refused and leaves the bucket alone. |
| RateLimiters.SleepMissesNothing | ratelimit/limiter.go:281-297 | On a positive estimate Wait sleeps through no instant at which a token was available. |
| RateLimiters.RateLimiter.Wait | ratelimit/limiter.go:212-299 | Makes one-token attempts forward in time, each at least the sleep on the last estimate after the one before, all denied but the last, which is granted exactly when Wait says so; at most 10000, none after five minutes, none on another key, none once the context has ended, and it reports a cancellation only when there was one. |
| RateLimiters.WaitsOnSchedule | ratelimit/limiter.go:234-299 | However often Wait has gone round, every attempt so far was denied, they are spaced by the sleeps, and no cancellation was passed over. |
| MemoryStore.RunKeepsInv | ratelimit/memory.go:155-250 | In every interleaving keyCount is the map size plus unsettled reservations plus removals not yet decremented, keys plus approved reservations stay within maxKeys, and at most one thread is inside an entry. |
| MemoryStore.QuiescentCountIsExact | ratelimit/memory.go:293-385 | With every thread idle keyCount is the number of keys, within the limit: no interleaving of Delete, cleanup and Reset decrements twice. |
| MemoryStore.RefusalMeansFull | ratelimit/memory.go:206-213 | A new key is refused exactly when keys, reservations and unfinished removals fill the limit. |
| MemoryStore.PresentKeyIsNeverRefused | ratelimit/memory.go:203-250 | An update that finds its key is never refused, however full the store is and whatever other threads do, a removal of the key included. |
| MemoryStore.SomebodyCanMove | ratelimit/memory.go:185-385 | No deadlock: in every reachable state in which a call is under way some thread can move. |
| Bulkhead.RunKeepsInv | bulkhead/bulkhead.go:120-297 | In every interleaving of callers, worker, goroutines and Close each semaphore element has exactly one owner and each request is in one place. |
| Bulkhead.ConcurrencyIsBounded | bulkhead/bulkhead.go:120-272 | Running functions never exceed MaxConcurrent, queue slots never exceed MaxQueue. |
| Bulkhead.RequestsAreServedOnce | bulkhead/bulkhead.go:161-289 | A request's function runs at most once, its reply channel gets at most one send and is empty when a send is due, and a value delivered is the function's own result. |
| Bulkhead.AnswersAreExplained | bulkhead/bulkhead.go:161-289 | In every interleaving: a reply sent after the function ran is its value, and any other is ErrBulkheadFull after Close or the error of a context that has ended; a caller comes back with ErrBulkheadFull only after Close or without its function ever having been started, with a context's error only once its context or queue deadline is over; and a request handed over is never lost. |
| Bulkhead.OwnValueComesBack | bulkhead/bulkhead.go:151-250 | A caller whose function was run and that was not cancelled, timed out or closed out ends with the function's own value. |
| Bulkhead.ValueCanComeBack | bulkhead/bulkhead.go:161-250 | Once the function of a waiting caller has returned, the caller can always end with its value by its own steps and those of the goroutine that ran it. |
| Bulkhead.TurnedAwayExactly | bulkhead/bulkhead.go:120-230 | An open bulkhead runs a caller exactly when a semaphore slot is free, queues it exactly when a queue slot is, and turns it away only with both full. |
| Bulkhead.ClosedRunsNobodyNew | bulkhead/bulkhead.go:120-148 | A call that comes after Close never runs in any interleaving, and comes back with ErrBulkheadFull. |
| Bulkhead.QuiescenceFreesEverySlot | bulkhead/bulkhead.go:151-272 | With every call finished and every goroutine ended both semaphores are empty. |
| Bulkhead.CloseReleasesWaiters | bulkhead/bulkhead.go:161-231 | After Close a caller anywhere in enqueue can leave by its own steps alone, with ErrBulkheadFull. |
| Bulkhead.CancelReleasesWaiters | bulkhead/bulkhead.go:120-230 | Once its context has ended a caller that is not running its function can leave by its own steps alone, with the context's error. |
| Bulkhead.HeldIsRefused | bulkhead/bulkhead.go:253-263 | A request the worker holds is refused by the worker alone once its caller's context has ended or the bulkhead is closed, with that error, without waiting for a slot. |
| Bulkhead.CloseStopsTheWorker | bulkhead/bulkhead.go:234-297 | After Close the worker can stop from every reachable state by refusing what it holds and what is still being sent. |
| Bulkhead.StartsAfterLeavingExactly | bulkhead/bulkhead.go:161-289 | In every reachable state, a caller that has left, by timeout, cancellation, shutdown or reply, can still have its function started if and only if the worker holds its request. |
| Bulkhead.NeverStartedAgain | bulkhead/bulkhead.go:161-289 | Once a caller has left and the worker does not hold its request, no continuation starts its function. |
| Bulkhead.SomeSlotFrees | bulkhead/bulkhead.go:151-272 | Whenever the semaphore is in use some holder can finish and give its slot back by its own steps, so a held request is never stuck for good. |
| Bulkhead.TimedOutRequestStillRuns | bulkhead/bulkhead.go:234-272 | In any state where a request is handed over and its caller's queue deadline has passed, the caller can come back with the deadline's error and the worker still start the function. |
| Bulkhead.ATimedOutCallerIsRun | bulkhead/bulkhead.go:234-272 | Such a state is reached from New: a concrete run in which a caller gives up and its function starts afterwards. |
| LockFreeBudget.RunKeepsInv | budget/budget.go:170-203 | In every interleaving of atomic operations the starts are the calls capped at Max.Calls, breached implies over, and over implies breached or a thread that will mark it. |
| LockFreeBudget.CallsAreCapped | budget/budget.go:170-203 | The operation starts at most Max.Calls times; OnExceeded fires at most once, and exactly when the breach is marked. |
| LockFreeBudget.RunsAreThreads | budget/budget.go:170-203 | The runs of the operation are as many as the Executes that started it: none runs it twice. |
| LockFreeBudget.BreachIsExact | budget/budget.go:337-358 | A breach is never invented, and is marked whenever nobody is still on the way to mark it. |
| LockFreeBudget.BreachedRefuses | budget/budget.go:170-176 | No Execute that has not yet read the flag when it is set ever runs the operation. |
| LockFreeBudget.SettlingIsTold | budget/budget.go:199-203 | In every interleaving an Execute that has charged is told the budget is exceeded if a counter exceeds its ceiling when it starts its snapshot, and only if one does by the time it has finished. |
| LockFreeBudget.EnteredExactly | budget/budget.go:170-183 | An undisturbed Execute runs the operation exactly when no breach is marked and one more call is within the ceiling. |
| LockFreeBudget.ChargesAreConserved | budget/budget.go:185-197 | In every interleaving the token counter is the sum of the positive token charges that have got that far and the money counter that of the positive money charges, each counted once, and of all of them once every Execute has finished; calls are counted one by one before they run and no charge adds any. |
| WindowedBudget.WindowedBudget.EnterSection | budget/budget.go:212-234 | The locked section before the operation, in place: reset, refusal, pre-charge and breach as one step; the callback is selected exactly when this section marks the breach. |
| WindowedBudget.WindowedBudget.SettleSection | budget/budget.go:239-266 | The locked section after it, in place: the positive tokens go to the token counter, the positive money to the money counter, no call is added, and the call is told it is over exactly when a counter exceeds its ceiling; the callback is selected exactly when this call marks the breach. |
| WindowedBudget.WindowedBudget.AutoResetLocked | budget/budget.go:310-327 | Opens lazily, and clears everything exactly when ResetAfter has passed. |
| WindowedBudget.WindowedBudget.MarkBreachLocked | budget/budget.go:366-371 | The one caller that flips the flag is told to fire. |
| WindowedBudget.WindowedBudget.ManualReset | budget/budget.go:279-299 | Clears counters and breach and closes the window. |
| WindowedBudget.LedgerHolds | budget/budget.go:212-267 | Over every interleaving of sections and Resets each counter is the sum of the positive charges of its kind since the last reset, breached means exactly that such a sum exceeds its ceiling, and OnExceeded was selected once per breached epoch. |
| WindowedBudget.ToldExactly | budget/budget.go:212-267 | In every reachable state a call that comes back is told the budget is exceeded exactly when, its own charge included, what was charged since the last reset exceeds a ceiling, and a call is let in exactly when, once counted, none is exceeded. |
| WindowedBudget.CapHolds | budget/budget.go:212-234 | Every reset epoch starts the operation at most Max.Calls times. |
| WindowedBudget.WindowsHold | budget/budget.go:310-327 | On a clock that does not step back every start lies in its epoch's window. |
| WindowedBudget.AutoResetsAreApart | budget/budget.go:310-327 | Consecutive auto-resets are at least ResetAfter apart. |
| WindowedBudget.SpanStartsAtMostTwice | budget/budget.go:212-327 | Absent manual Reset any span no longer than ResetAfter starts the operation at most 2*Max.Calls times. |
| AdaptiveLimiter.SetDefaults | adaptive/config.go:113-153 | Every configuration becomes usable; on conflict MinLimit wins over MaxLimit and both over InitialLimit. |
| AdaptiveLimiter.RunKeepsInv | adaptive/adaptive.go:137-351 | In every interleaving of loads, stores and swaps: limit in bounds, slots accounted for, averages above the baseline, for all three algorithms. |
| AdaptiveLimiter.LimitIsBounded | adaptive/adaptive.go:137-351 | MinLimit <= limit <= MaxLimit, and inFlight is the number of admitted unfinished calls, never above MaxLimit. |
| AdaptiveLimiter.AverageStaysAboveBaseline | adaptive/adaptive.go:185-300 | Once a latency is sampled emaRTT >= minRTT > 0, despite rounding and lost swaps. |
| AdaptiveLimiter.NextEmaStaysAbove | adaptive/adaptive.go:203-217 | One rounded averaging step of values not below the baseline is not below it. |
| AdaptiveLimiter.FailuresInARow | adaptive/adaptive.go:335-351 | From any reachable state with no success on its way, in every interleaving that brings only failures, lost swaps included: once k more calls have had their effect the limit is max(MinLimit, floor(limit / 2^k)). |
| AdaptiveControl.VegasLaw | adaptive/adaptive.go:231-251 | Vegas raises the limit by one exactly when limit*(emaRTT-minRTT) < alpha*emaRTT and there is room, lowers it by one exactly when that is at least (beta+1)*emaRTT and it is above MinLimit, and else keeps it. |
| AdaptiveControl.VegasFallsWithLatency | adaptive/adaptive.go:231-251 | A longer average never asks for a larger limit. |
| AdaptiveControl.GradientAtBaseline | adaptive/adaptive.go:308-331 | Gradient2 at its baseline latency raises the limit by its floored root, at least one, up to MaxLimit. |
| AdaptiveControl.GradientTargetExactly | adaptive/adaptive.go:308-331 | What Gradient2 asks for, in products alone: between the bounds at least n exactly when latency costs the limit no more than its root less the way up to n. |
| AdaptiveControl.GradientLaw | adaptive/adaptive.go:308-331 | So a congested average lowers the limit exactly when latency costs it more than its root, and raises it exactly when it leaves at least one of the root and there is room. |
| AdaptiveControl.GradientFallsWithLatency | adaptive/adaptive.go:308-331 | A longer average never asks for a larger limit. |
| AdaptiveRuns.LimitMovesByLaw | adaptive/adaptive.go:153-351 | In every interleaving, lost swaps included, a step that moves the limit halves it for a failure, adds one under AIMD, or takes it from where it is to where a latency sample's law asks. |
| AdaptiveRuns.UndisturbedSample | adaptive/adaptive.go:185-331 | An undisturbed success with a latency lowers the baseline to it if that is lower, is averaged in, and once enough samples are in moves the limit to what the law asks for with exactly those two. |
| AdaptiveRuns.UndisturbedReturn | adaptive/adaptive.go:93-127 | A call that comes back undisturbed: a failure halves the limit and starts the count of consecutive successes over; under AIMD the success that reaches SuccessThreshold raises the limit by one and starts over, and any other only counts; a latency that is not positive is no sample. |
| AdaptiveRuns.EmaIsWeighted | adaptive/adaptive.go:203-290 | The average moves towards a sample by an eighth for Vegas and by the configured share for Gradient2, rounded down. |
| AdaptiveRuns.AdmittedExactly | adaptive/adaptive.go:137-149 | A call that arrives undisturbed is let in exactly when fewer calls than the limit are in flight. |
| AdaptiveAIMD.SuccessesAreConserved | adaptive/adaptive.go:153-171 | From any reachable settled state to any later one, in every interleaving of successes alone: the limit rises by one per clearing of the success counter up to MaxLimit; there is a clearing for every SuccessThreshold successes, and more than that exactly when clearings came too early by more than the counter now holds. |
| AdaptiveAIMD.UnhurriedSuccessesAreExact | adaptive/adaptive.go:153-171 | As long as no success is counted between another's count and its clearing, every SuccessThreshold successes raise the limit by exactly one, up to MaxLimit. |
| AdaptiveAIMD.HurriedSuccessesRaiseTwice | adaptive/adaptive.go:153-171 | A run from New in which three successes, of a threshold of two, raise the limit by two. |
| Retry.SetDefaults | retry/config.go:86-108 | Every configuration becomes usable; a usable one is kept. |
| Retry.IsRetryable | retry/retry.go:160-211 | The two loops and early returns decide by the documented precedence. |
| Retry.PrecedenceIsDocumented | retry/retry.go:160-211 | A custom predicate decides alone; else NonRetryableErrors win, then RetryableErrors decide when given, and else everything but an unmarked open circuit is retried. |
| Retry.Execute | retry/retry.go:64-157 | Under any cancellation: attempts run in order, none after one that stops and none once the context has ended, at most MaxAttempts; the result is the last attempt's, or the context's error with the last value when the context did end; the waits are the backoff delays. |
| Retry.ExecuteCalm | retry/retry.go:64-157 | Without cancellation the function runs exactly up to the first attempt that succeeds, may not be retried or is the last, and that outcome is returned. |
| Retry.WaitingIsBounded | retry/retry.go:112-151 | Total waiting is at most 1.1 times the ceiling (24h, or MaxDelay if smaller and set) per wait. |
| Retry.WaitsNeverShrink | retry/retry.go:112-151 | Without jitter and with a multiplier of at least 1 no wait is shorter than an earlier one. |
| Retry.WaitsFollowThePolicy | retry/retry.go:112-151 | The wait after an attempt is the policy's value for that attempt, rounded down, up to the ceiling, and with jitter at most a tenth longer. |
| Backoff.BackoffBounds | retry/backoff.go:31-84 | Every delay is between 0 and 1.1 times the ceiling, and jitter never shortens it. |
| Backoff.DelaysNeverShrink | retry/backoff.go:31-67 | The unjittered delay is non-decreasing in the attempt when the multiplier is at least 1, caps included. |
| Backoff.DelaysFollowThePolicy | retry/backoff.go:31-67 | The unjittered delay is the policy's value rounded down, up to the ceiling: values start at InitialDelay and from one attempt to the next are multiplied by the multiplier, raised by InitialDelay, or kept. |
| Backoff.JitterIsAShare | retry/backoff.go:73-84 | Jitter adds the random share of a tenth of the delay, rounded down. |
| Chains.Chain.With | middleware/chain.go:100-108 | A builder appends its layer after the ones already there. |
| Chains.Chain.Execute | middleware/chain.go:256-263 | The right-to-left loop runs the right fold of the layers. |
| Chains.WrapNests | middleware/chain.go:247-263 | A chain built in two stages nests the second inside the first. |
| Chains.FirstAddedIsOutermost | middleware/chain.go:247-263 | Layers are entered in the order they were added and left in the opposite order; the operation runs exactly when none refuses, and only the layers up to the first refusal are entered. |
| LLMCalls.SetDefaults | middleware/presets.go:290-306 | Every configuration becomes usable; positive choices are kept. |
| LLMCalls.Assemble | middleware/presets.go:324-372 | Refused exactly without a positive CallTimeout or ceiling; otherwise usable layers with the caller's limits, a breaker that needs 3 trial successes, and a retry that never repeats a budget refusal. |
| LLMCalls.RunKeepsInv | middleware/presets.go:324-372 | In every interleaving of logical calls the shared budget and breaker only move by their own machines, every attempt belongs to one call, and slots, attempts and outcomes stay accounted for. |
| LLMCalls.OperationIsCapped | middleware/presets.go:308-319 | Over the chain's lifetime the operation runs at most Budget.Max.Calls times, once per attempt that passed the budget. |
| LLMCalls.AttemptsAreCapped | middleware/presets.go:308-319 | At most MaxRetries attempts per logical call, none after a budget refusal, and a refused call ends with exactly that error. |
| LLMCalls.AttemptsAreNotShared | middleware/presets.go:308-319 | No attempt is charged to two calls. |
| LLMCalls.OneOutcomePerCall | middleware/presets.go:366-372 | The breaker has recorded exactly one outcome per finished admitted call, a success exactly for those without error. |
| LLMCalls.ThresholdCountsCalls | middleware/presets.go:343-350 | The circuit opens exactly on the failed logical call that completes CBFailureThreshold in a row, however often each was retried. |
| LLMCalls.ConcurrencyIsCapped | middleware/presets.go:339-341 | At most MaxConcurrent calls are inside and at most MaxConcurrent operations run together. |
| LLMCalls.OneAttemptAtATime | middleware/presets.go:352-372 | A call's attempt that is not over is its last one, and the call is still inside. |
| LLMCalls.RetriesExactly | middleware/presets.go:520-548 | A budget refusal, an open circuit and an ended context are never retried; short of those a rate limit and a marked error always are, and a plain error if and only if AssumeIdempotent. |
| LLMCalls.AttemptsAgainExactly | middleware/presets.go:352-364 | After an attempt the call makes another exactly when it failed with such an error and attempts are left; else that attempt's outcome goes to the breaker. |
| LLMCalls.LastAttemptDecides | middleware/presets.go:308-319 | In every interleaving a call not cancelled that makes no further attempt ends with what its operation said, or with the budget's refusal when that attempt exceeded a ceiling. |
| LLMCalls.EnteredExactly | middleware/presets.go:339-341 | A call comes in exactly when fewer than MaxConcurrent calls are inside, and else ends with ErrBulkheadFull. |
| LLMCalls.AdmittedExactly | middleware/presets.go:343-350 | Inside, a call goes on exactly when the breaker admits it, under its generation, and else ends with ErrCircuitOpen. |
| LLMCalls.CancelledExactly | middleware/presets.go:308-319 | A context that ends before the breaker ends the call with its cause, and one that ends between attempts makes it the outcome the breaker records. |
| Layering.RetryLayerIsTheLoop | middleware/chain.go:120-128 | The retry layer of a chain makes exactly the attempts of the retry loop and returns its last outcome, for every layer below it. |
| Layering.InsideTellsOneSuccess | middleware/chain.go:26-29 | Of a call that fails fewer than MaxAttempts times, a breaker with retry inside it is told one success, however often it failed. |
| Layering.OutsideTellsEveryAttempt | middleware/chain.go:30-35 | Of the same call a breaker with retry outside it is told each failure and then the success, while the failures stay below the threshold. |
| Layering.RetryInsideIsSafe | middleware/chain.go:26-31 | Through the chain with retry inside, any sequence of recovered calls is told as one success each and leaves the circuit Closed, whatever the threshold. |
| Layering.RetryOutsideInTurn | middleware/chain.go:30-38 | Through the chain with retry outside, any sequence of recovered calls is told attempt by attempt and leaves the circuit Closed when the threshold is at least MaxAttempts. |
| Layering.OverlapInsideIsSafe | middleware/chain.go:26-31 | With retry inside, no interleaving of any number of overlapping recovered calls leaves Closed. |
| Layering.InsideCallIsARun | middleware/chain.go:256-263 | A call through the chain with retry inside is a run of the inside steps in one place. |
| Layering.ChainCallIsARun | middleware/chain.go:256-263 | A call through the chain with retry outside, on a clock that lets its backoffs pass, is a run of the outside steps in one place. |
| Layering.RetryOutsideIsSafeExactly | middleware/chain.go:24-38 | With retry outside, over every interleaving of recovered calls at most m at a time that wait out their backoffs, the circuit never leaves Closed if and only if m times the most failures of one call that fit into one Interval is less than the threshold. |
| Layering.SafeWhateverTheInterval | middleware/chain.go:24-38 | Whatever the Interval, m * (MaxAttempts - 1) below the threshold is enough. |
| Layering.WholeCallFits | middleware/chain.go:24-38 | Without an Interval, or with one that holds all the backoffs of a call, that most is MaxAttempts - 1. |
| Layering.OneCallAtATime | docs/concepts.md:121-126 | One call at a time: if and only if the threshold exceeds it; where nothing is cleared between the attempts of a call, if and only if the threshold is at least MaxAttempts. |
| Layering.TwoBlipsDoNotOpen | middleware/chain.go:37-38 | With threshold 5 and 3 attempts no recovered calls one or two at a time open the circuit; three at a time can exactly when an Interval can hold the first backoff. |
| Layering.OneBlipOpens | docs/concepts.md:121-126 | A call that would be recovered after as many failures as the threshold, all within one Interval and one Timeout, opens a fresh circuit by itself, and the breaker is told exactly that many failures. |

## Left out

- Layering.RetryOutsideIsSafeExactly: m counts the calls in progress; a breaker with a sliding window is not covered, nor are calls that retry does not recover.
- Layering.ChainCallIsARun: for a retry that leaves ErrCircuitOpen alone, as the default does.
- float64 rounding, NaN and infinities: tokens, ratios, multipliers and averages are exact reals; math.Sqrt is any non-negative root of the limit.
- Overflow of uint32, int32, int64 and uint64 counters, generations and times.
- The Go memory model: each atomic operation or locked section is one step; `State()` counts as exclusive although it takes a read lock while it can transition (circuitbreaker/breaker.go:301-308).
- Callbacks, logging, metrics and recovery from panics, except that the budget's OnExceeded and the Redis client's OnStateChange are recorded when selected; an operation that panics is not modelled.
- FastAdmission.RunKeepsInv: a locked section that synchronises its mirrors twice is two consecutive sections, which allows more interleavings than the source.
- MemoryStore.RunKeepsInv: Delete, one entry of cleanup's sweep and one key of Reset are one kind of removal; bucket contents are not part of it, and updates that reach an entry already removed from the map are allowed, as in the source.
- TokenBucket.RateSinceCreation: one bucket; nothing is claimed across eviction, store Reset or failing open.
- TokenBucket.PollingIsExact: each attempt comes at most an hour after the refill stored before it, since the source caps elapsed time there; short gaps between attempts alone do not ensure this.
- TokenBucket.WaitIsTight: the grant at now+w+1 needs the time since the last refill within an hour and stored tokens at most 1 - epsilon, because of the elapsed cap and the epsilon skip.
- RateLimiters.RateLimiter.Wait: nobody else uses the key meanwhile (with competitors each attempt is still one TryConsume), and where an attempt's update succeeded so does the read of the wait estimate after it.
- Bulkhead.CloseReleasesWaiters: says that the exits are enabled, not that the scheduler takes them; the bulkhead's rejection callback is not modelled.
- LockFreeBudget.RunKeepsInv: no Reset, which in this mode interleaves freely with running calls.
- CircuitBreakers.CircuitBreaker.Execute: what other callers do meanwhile comes as whole locked sections; the single atomic steps of the fast path are in `FastAdmission`.
- RedisBreaker.RunKeepsInv: says nothing about the two counters once a record from before a Reset has changed the hash.
- BreakerMachine.IntervalClearsCounters: the first interval after New; `ResetStartsAfresh` carries it to the one after a Reset or a trial, and each later interval begins when a look clears the counters.
- AdaptiveRuns.UndisturbedSample: one sample with no step of another thread in between; samples that interleave are covered by `LimitMovesByLaw`, which does not say which baseline and average a sample read.
- LLMCalls.OperationIsCapped: counts entries into the timeout layer, which runs the operation in place at most once; deadlines and backoff delays are not timed here.
- Chains.Chain.Execute: layers are functions from world and call to world and reply, so hedging layers that run the rest of the chain in parallel are outside it.
- HTTP and gRPC adapters, chaos and benchmark tools, timeout, fallback, hedge, stream timeout, and the Redis rate-limit store.
- The other presets (HTTPClient, DatabaseQuery, RPCDownstream), which are parts of LLMCall's layering, and the LLMHedge runner.
