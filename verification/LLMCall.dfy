// middleware/presets.go, LLMCall: Bulkhead -> CircuitBreaker -> Retry -> Budget -> Timeout ->
// operation, over the whole life of one chain. Logical calls interleave step by step; the
// layers are the breaker machine, the retry classifier and the lock-free budget. The timeout
// layer runs the operation in place, so an attempt's outcome is whatever comes back through it.
module LLMCalls {
  import opened Basics
  import opened Errors
  import opened BudgetCost
  import BreakerCounts
  import BreakerConfig
  import Breaker = BreakerMachine
  import Backoff
  import Budget = LockFreeBudget
  import Retry

  // ----- Configuration -----

  datatype Config = Config(
    callTimeout: int,
    maxRetries: int,
    retryInitialDelay: int,
    assumeIdempotent: bool,
    cbFailureThreshold: nat,
    cbOpenTimeout: int,
    maxConcurrent: int,
    max: Cost)

  method SetDefaults(c: Config) returns (d: Config)
    ensures d.maxRetries >= 1 && d.retryInitialDelay >= 1 && d.cbFailureThreshold >= 1
    ensures d.cbOpenTimeout >= 1 && d.maxConcurrent >= 1
    ensures d.maxRetries == if c.maxRetries >= 1 then c.maxRetries else 3
    ensures d.retryInitialDelay == if c.retryInitialDelay >= 1 then c.retryInitialDelay else 250_000_000
    ensures d.cbFailureThreshold == if c.cbFailureThreshold >= 1 then c.cbFailureThreshold else 5
    ensures d.maxConcurrent == if c.maxConcurrent >= 1 then c.maxConcurrent else 64
    ensures d.cbOpenTimeout == if c.cbOpenTimeout >= 1 then c.cbOpenTimeout else 30 * BreakerConfig.SECOND
    ensures (d.callTimeout, d.assumeIdempotent, d.max) == (c.callTimeout, c.assumeIdempotent, c.max)
  {
    d := c;
    if d.maxRetries <= 0 {
      d := d.(maxRetries := 3);
    }
    if d.retryInitialDelay <= 0 {
      d := d.(retryInitialDelay := 250_000_000);
    }
    if d.cbFailureThreshold == 0 {
      d := d.(cbFailureThreshold := 5);
    }
    if d.cbOpenTimeout <= 0 {
      d := d.(cbOpenTimeout := 30 * BreakerConfig.SECOND);
    }
    if d.maxConcurrent <= 0 {
      d := d.(maxConcurrent := 64);
    }
  }

  /** llmIsRetryable: a decision already made is final, a rate limit or a mark is always retried,
      and anything else only when the caller vouches for idempotence. */
  predicate LlmIsRetryable(assumeIdempotent: bool, err: Error) {
    if Is(err, BUDGET_EXCEEDED) then false
    else if Is(err, CIRCUIT_OPEN) then false
    else if Is(err, CONTEXT_CANCELED) || Is(err, DEADLINE_EXCEEDED) then false
    else if Is(err, RATE_LIMIT_EXCEEDED) then true
    else if err.marked then true
    else assumeIdempotent
  }

  function Classifier(assumeIdempotent: bool): Error -> bool {
    (err: Error) => LlmIsRetryable(assumeIdempotent, err)
  }

  function ReadyToTrip(threshold: nat): BreakerCounts.Counts -> bool {
    (c: BreakerCounts.Counts) => c.consecutiveFailures >= threshold
  }

  /** The layers LLMCall assembles, outermost first. */
  datatype Layers = Layers(maxConcurrent: int, breaker: Breaker.Settings, retry: Retry.Config, max: Cost)
  {
    ghost predicate Usable() {
      && maxConcurrent >= 1
      && breaker.Usable()
      && retry.Usable()
      && retry.custom.Some?
      && (forall err {:trigger Retry.Retryable(retry, err)} ::
            Is(err, BUDGET_EXCEEDED) ==> !Retry.Retryable(retry, err))
    }
  }

  method Assemble(config: Config) returns (r: Option<Layers>)
    ensures r.None? <==> config.callTimeout <= 0 || !ValidMax(config.max)
    ensures r.Some? ==> r.value.Usable() && r.value.max == config.max
    ensures r.Some? ==> r.value.retry.maxAttempts == if config.maxRetries >= 1 then config.maxRetries else 3
    ensures r.Some? ==> r.value.maxConcurrent == if config.maxConcurrent >= 1 then config.maxConcurrent else 64
    ensures r.Some? ==> r.value.retry.policy == Backoff.Exponential && r.value.retry.jitter
    ensures r.Some? ==> r.value.breaker.interval == 60 * BreakerConfig.SECOND
    ensures r.Some? ==>
              r.value.breaker.timeout
              == if config.cbOpenTimeout >= 1 then config.cbOpenTimeout else 30 * BreakerConfig.SECOND
    ensures r.Some? ==> r.value.retry.custom == Some(Classifier(config.assumeIdempotent))
    ensures r.Some? ==> r.value.breaker.maxRequests == 3 && r.value.breaker.window.None?
    ensures r.Some? && config.cbFailureThreshold >= 1 ==>
              r.value.breaker.readyToTrip == ReadyToTrip(config.cbFailureThreshold)
  {
    if config.callTimeout <= 0 {
      return None;
    }
    var c := SetDefaults(config);
    if !ValidMax(c.max) {
      return None;
    }
    var trip := ReadyToTrip(c.cbFailureThreshold);
    var breaker := BreakerConfig.Resolve(
      BreakerConfig.Config(3, 60 * BreakerConfig.SECOND, c.cbOpenTimeout,
                           BreakerConfig.WINDOW_DISABLED, 0, 0, 0.0, Some(trip)));
    var retry := Retry.SetDefaults(
      Retry.Config(c.maxRetries, c.retryInitialDelay, 0, 2.0, Backoff.Exponential, true,
                   Some(Classifier(c.assumeIdempotent)), [], []));
    return Some(Layers(c.maxConcurrent, breaker, retry, c.max));
  }

  // ----- The life of a chain -----

  const BULKHEAD_FULL_ERROR := Error({BULKHEAD_FULL}, false)
  const CIRCUIT_OPEN_ERROR := Error({CIRCUIT_OPEN}, false)
  const BUDGET_EXCEEDED_ERROR := Error({BUDGET_EXCEEDED}, false)

  datatype Phase =
    | Inside                                                          // holds a bulkhead slot, before the breaker
    | Between(generation: int)                                        // retry is about to make an attempt
    | Attempting(generation: int, thread: nat, err: Option<Error>)    // the attempt is with the budget
    | Recording(generation: int, err: Option<Error>)                  // retry returned, the breaker has yet to record
    | Done(err: Option<Error>)

  /** threads lists the budget executions of the attempts so far, in order. */
  datatype Call = Call(phase: Phase, threads: seq<nat>, admitted: bool)

  /** owners says which call began each budget execution; breakerLog and budgetLog are what
      the chain has done to its two shared stateful layers. */
  datatype World = World(
    slots: int,
    breaker: Breaker.Breaker,
    budget: Budget.State,
    calls: map<nat, Call>,
    owners: seq<nat>,
    breakerLog: seq<Breaker.Event>,
    budgetLog: seq<Budget.Action>)

  datatype Action =
    | Enter(c: nat)                                      // the bulkhead
    | Admit(c: nat, now: int)                            // the breaker lets the call in or not
    | Cancel(c: nat, cause: Error)                       // the context ends before the breaker or between attempts
    | Attempt(c: nat)                                    // retry begins an attempt
    | Advance(c: nat)                                    // a step of the budget
    | Return(c: nat, result: Option<Error>, charge: Cost)  // the operation comes back
    | Settle(c: nat)                                     // retry looks at the attempt's outcome
    | Record(c: nat, now: int)                           // the breaker records the logical call

  function Init(cfg: Layers, start: int): World {
    World(0, Breaker.Init(cfg.breaker, start), Budget.Init(cfg.max), map[], [], [], [])
  }

  function Put(w: World, c: nat, call: Call): World {
    w.(calls := w.calls[c := call])
  }

  function MoveTo(w: World, c: nat, phase: Phase): World
    requires c in w.calls
  {
    Put(w, c, w.calls[c].(phase := phase))
  }

  function Leave(w: World, c: nat, err: Option<Error>): World
    requires c in w.calls
  {
    MoveTo(w, c, Done(err)).(slots := w.slots - 1)
  }

  function OnBreaker(w: World, b: Breaker.Breaker, e: Breaker.Event): World {
    w.(breaker := b, breakerLog := w.breakerLog + [e])
  }

  function OnBudget(w: World, a: Budget.Action): World {
    w.(budget := Budget.Apply(w.budget, a), budgetLog := w.budgetLog + [a])
  }

  function Enters(cfg: Layers, w: World, c: nat): World {
    if c in w.calls then w
    else if w.slots < cfg.maxConcurrent then Put(w, c, Call(Inside, [], false)).(slots := w.slots + 1)
    else Put(w, c, Call(Done(Some(BULKHEAD_FULL_ERROR)), [], false))
  }

  function Admits(cfg: Layers, w: World, c: nat, now: int): World
    requires c in w.calls && w.calls[c].phase.Inside?
  {
    var (b, verdict) := Breaker.BeforeRequest(cfg.breaker, w.breaker, now);
    var u := OnBreaker(w, b, Breaker.Admit(now));
    match verdict
    case Admitted(generation) => Put(u, c, w.calls[c].(phase := Between(generation), admitted := true))
    case Rejected(_, _, _) => Leave(u, c, Some(CIRCUIT_OPEN_ERROR))
  }

  function Cancels(w: World, c: nat, cause: Error): World
    requires c in w.calls
  {
    match w.calls[c].phase
    case Inside => Leave(w, c, Some(cause))
    case Between(generation) => MoveTo(w, c, Recording(generation, Some(cause)))
    case _ => w
  }

  function Attempts(w: World, c: nat): World
    requires c in w.calls && w.calls[c].phase.Between?
  {
    var thread := |w.owners|;
    var u := OnBudget(w, Budget.Begin(thread)).(owners := w.owners + [c]);
    var call := w.calls[c];
    Put(u, c, call.(phase := Attempting(call.phase.generation, thread, None), threads := call.threads + [thread]))
  }

  function Returns(w: World, c: nat, result: Option<Error>, charge: Cost): World
    requires AtOperation(w, c)
  {
    var phase := w.calls[c].phase;
    MoveTo(OnBudget(w, Budget.Return(phase.thread, charge)), c, Attempting(phase.generation, phase.thread, result))
  }

  /** What the attempt looks like to retry once the budget has finished with it. */
  function Seen(w: World, phase: Phase): Option<Error>
    requires phase.Attempting? && phase.thread in w.budget.threads && w.budget.threads[phase.thread].Finished?
  {
    if w.budget.threads[phase.thread].refused then Some(BUDGET_EXCEEDED_ERROR) else phase.err
  }

  function Settles(cfg: Layers, w: World, c: nat): World
    requires c in w.calls && w.calls[c].phase.Attempting?
    requires w.calls[c].phase.thread in w.budget.threads
    requires w.budget.threads[w.calls[c].phase.thread].Finished?
  {
    var call := w.calls[c];
    var err := Seen(w, call.phase);
    if Retry.Stops(cfg.retry, Retry.Outcome((), err), |call.threads|)
    then MoveTo(w, c, Recording(call.phase.generation, err))
    else MoveTo(w, c, Between(call.phase.generation))
  }

  function Records(cfg: Layers, w: World, c: nat, now: int): World
    requires cfg.breaker.Usable() && c in w.calls && w.calls[c].phase.Recording?
  {
    var phase := w.calls[c].phase;
    var e := Breaker.Complete(phase.generation, phase.err.None?, now);
    Leave(OnBreaker(w, Breaker.Apply(cfg.breaker, w.breaker, e), e), c, phase.err)
  }

  function Apply(cfg: Layers, w: World, a: Action): World
    requires cfg.breaker.Usable()
  {
    match a
    case Enter(c) => Enters(cfg, w, c)
    case Admit(c, now) => if c in w.calls && w.calls[c].phase.Inside? then Admits(cfg, w, c, now) else w
    case Cancel(c, cause) => if c in w.calls then Cancels(w, c, cause) else w
    case Attempt(c) => if c in w.calls && w.calls[c].phase.Between? then Attempts(w, c) else w
    case Advance(c) =>
      if c in w.calls && w.calls[c].phase.Attempting? then OnBudget(w, Budget.Advance(w.calls[c].phase.thread)) else w
    case Return(c, result, charge) =>
      if AtOperation(w, c)
      then Returns(w, c, result, charge)
      else w
    case Settle(c) => if AtFinish(w, c) then Settles(cfg, w, c) else w
    case Record(c, now) => if c in w.calls && w.calls[c].phase.Recording? then Records(cfg, w, c, now) else w
  }

  predicate AtOperation(w: World, c: nat) {
    && c in w.calls && w.calls[c].phase.Attempting?
    && w.calls[c].phase.thread in w.budget.threads
    && w.budget.threads[w.calls[c].phase.thread].Operating?
  }

  predicate AtFinish(w: World, c: nat) {
    && c in w.calls && w.calls[c].phase.Attempting?
    && w.calls[c].phase.thread in w.budget.threads
    && w.budget.threads[w.calls[c].phase.thread].Finished?
  }

  function Run(cfg: Layers, w: World, actions: seq<Action>): World
    requires cfg.breaker.Usable()
  {
    if actions == [] then w
    else Apply(cfg, Run(cfg, w, actions[..|actions| - 1]), actions[|actions| - 1])
  }

  // ----- What every interleaving keeps -----

  predicate HoldsSlot(call: Call) {
    !call.phase.Done?
  }

  predicate Recorded(call: Call) {
    call.admitted && call.phase.Done?
  }

  predicate RecordedSuccess(call: Call) {
    Recorded(call) && call.phase.err.None?
  }

  function Outcomes(log: seq<Breaker.Event>): nat {
    if log == [] then 0
    else Outcomes(log[..|log| - 1]) + (if log[|log| - 1].Complete? then 1 else 0)
  }

  function SuccessOutcomes(log: seq<Breaker.Event>): nat {
    if log == [] then 0
    else SuccessOutcomes(log[..|log| - 1])
         + (if log[|log| - 1].Complete? && log[|log| - 1].success then 1 else 0)
  }

  predicate Ended(budget: Budget.State, thread: nat) {
    thread in budget.threads && budget.threads[thread].Finished?
  }

  predicate EndedRefused(budget: Budget.State, thread: nat) {
    Ended(budget, thread) && budget.threads[thread].refused
  }

  /** How many of a call's attempts are over: all but the one in progress. */
  function Over(call: Call): int {
    if call.phase.Attempting? then |call.threads| - 1 else |call.threads|
  }

  ghost predicate OwnsThreads(owners: seq<nat>, c: nat, call: Call) {
    forall i :: 0 <= i < |call.threads| ==> call.threads[i] < |owners| && owners[call.threads[i]] == c
  }

  /** Every attempt but the one in progress is over, and only the last can have been refused. */
  ghost predicate AttemptsOK(budget: Budget.State, call: Call) {
    && (forall i :: 0 <= i < |call.threads| ==> call.threads[i] in budget.threads)
    && (forall i :: 0 <= i < Over(call) ==> Ended(budget, call.threads[i]))
    && (forall i :: 0 <= i < |call.threads| - 1 ==> !EndedRefused(budget, call.threads[i]))
  }

  ghost predicate PhaseOK(cfg: Layers, budget: Budget.State, call: Call) {
    && |call.threads| <= cfg.retry.maxAttempts
    && (call.threads != [] ==> call.admitted)
    && match call.phase
       case Inside => !call.admitted && call.threads == []
       case Between(_) => call.admitted && |call.threads| < cfg.retry.maxAttempts && !LastRefused(budget, call)
       case Attempting(_, thread, _) => call.threads != [] && call.threads[|call.threads| - 1] == thread
       case Recording(_, err) => call.admitted && (LastRefused(budget, call) ==> err == Some(BUDGET_EXCEEDED_ERROR))
       case Done(err) => LastRefused(budget, call) ==> err == Some(BUDGET_EXCEEDED_ERROR)
  }

  predicate LastRefused(budget: Budget.State, call: Call) {
    call.threads != [] && EndedRefused(budget, call.threads[|call.threads| - 1])
  }

  ghost predicate CallOK(cfg: Layers, w: World, c: nat)
    requires c in w.calls
  {
    && OwnsThreads(w.owners, c, w.calls[c])
    && AttemptsOK(w.budget, w.calls[c])
    && PhaseOK(cfg, w.budget, w.calls[c])
  }

  /** The shared layers have only ever been moved the way their own machines move. */
  ghost predicate LayersOK(cfg: Layers, start: int, w: World)
    requires cfg.breaker.Usable()
  {
    && w.budget == Budget.Run(Budget.Init(cfg.max), w.budgetLog)
    && w.breaker == Breaker.Run(cfg.breaker, Breaker.Init(cfg.breaker, start), w.breakerLog)
    && (forall t :: t in w.budget.threads ==> t < |w.owners|)
  }

  ghost predicate TalliesOK(cfg: Layers, w: World) {
    && w.slots == Tally(w.calls, HoldsSlot) <= cfg.maxConcurrent
    && Outcomes(w.breakerLog) == Tally(w.calls, Recorded)
    && SuccessOutcomes(w.breakerLog) == Tally(w.calls, RecordedSuccess)
  }

  /** Every budget execution is among the attempts of the call that owns it. */
  ghost predicate OwnersOK(w: World) {
    forall t: nat :: t < |w.owners| ==> w.owners[t] in w.calls && t in w.calls[w.owners[t]].threads
  }

  ghost predicate CallsOK(cfg: Layers, w: World) {
    forall c :: c in w.calls ==> CallOK(cfg, w, c)
  }

  ghost predicate Inv(cfg: Layers, start: int, w: World)
    requires cfg.breaker.Usable()
  {
    LayersOK(cfg, start, w) && TalliesOK(cfg, w) && CallsOK(cfg, w) && OwnersOK(w)
  }

  // A step of the budget moves one thread only.
  lemma BudgetMovesOneThread(s: Budget.State, a: Budget.Action, t: nat)
    requires t != a.t
    ensures t in Budget.Apply(s, a).threads <==> t in s.threads
    ensures t in s.threads ==> Budget.Apply(s, a).threads[t] == s.threads[t]
  {
  }

  /** A finished attempt is never reopened. */
  lemma FinishedStays(s: Budget.State, a: Budget.Action, t: nat)
    requires Ended(s, t)
    ensures Ended(Budget.Apply(s, a), t) && EndedRefused(Budget.Apply(s, a), t) == EndedRefused(s, t)
  {
  }

  // The two shared layers move by their own machines.

  lemma BudgetLogGrows(cfg: Layers, w: World, a: Budget.Action)
    requires w.budget == Budget.Run(Budget.Init(cfg.max), w.budgetLog)
    ensures OnBudget(w, a).budget == Budget.Run(Budget.Init(cfg.max), OnBudget(w, a).budgetLog)
  {
    assert (w.budgetLog + [a])[..|w.budgetLog|] == w.budgetLog;
  }

  lemma BreakerLogGrows(cfg: Layers, start: int, w: World, e: Breaker.Event)
    requires cfg.breaker.Usable()
    requires w.breaker == Breaker.Run(cfg.breaker, Breaker.Init(cfg.breaker, start), w.breakerLog)
    ensures Breaker.Run(cfg.breaker, Breaker.Init(cfg.breaker, start), w.breakerLog + [e])
            == Breaker.Apply(cfg.breaker, w.breaker, e)
    ensures Outcomes(w.breakerLog + [e]) == Outcomes(w.breakerLog) + (if e.Complete? then 1 else 0)
    ensures SuccessOutcomes(w.breakerLog + [e])
            == SuccessOutcomes(w.breakerLog) + (if e.Complete? && e.success then 1 else 0)
  {
    assert (w.breakerLog + [e])[..|w.breakerLog|] == w.breakerLog;
  }

  predicate Has(w: World, c: nat, p: Call -> bool) {
    c in w.calls && p(w.calls[c])
  }

  /** Giving one call a new state moves each tally by that call alone. */
  lemma TalliesMove(w: World, c: nat, call: Call)
    ensures Tally(w.calls[c := call], HoldsSlot)
            == Tally(w.calls, HoldsSlot) - (if Has(w, c, HoldsSlot) then 1 else 0) + (if HoldsSlot(call) then 1 else 0)
    ensures Tally(w.calls[c := call], Recorded)
            == Tally(w.calls, Recorded) - (if Has(w, c, Recorded) then 1 else 0) + (if Recorded(call) then 1 else 0)
    ensures Tally(w.calls[c := call], RecordedSuccess)
            == Tally(w.calls, RecordedSuccess) - (if Has(w, c, RecordedSuccess) then 1 else 0)
               + (if RecordedSuccess(call) then 1 else 0)
  {
    TallyUpdate(w.calls, c, call, HoldsSlot);
    TallyUpdate(w.calls, c, call, Recorded);
    TallyUpdate(w.calls, c, call, RecordedSuccess);
  }

  // What a call knows of the budget survives everybody else's steps.

  /** The budget has gone from s to t without touching a finished thread or forgetting one. */
  ghost predicate Later(s: Budget.State, t: Budget.State) {
    && (forall k :: k in s.threads ==> k in t.threads)
    && (forall k :: Ended(s, k) ==> Ended(t, k) && EndedRefused(t, k) == EndedRefused(s, k))
  }

  lemma BudgetStepIsLater(s: Budget.State, a: Budget.Action)
    ensures Later(s, Budget.Apply(s, a))
  {
    forall k | k in s.threads
      ensures k in Budget.Apply(s, a).threads
    {
      if k != a.t {
        BudgetMovesOneThread(s, a, k);
      }
    }
    forall k | Ended(s, k)
      ensures Ended(Budget.Apply(s, a), k) && EndedRefused(Budget.Apply(s, a), k) == EndedRefused(s, k)
    {
      FinishedStays(s, a, k);
    }
  }

  lemma OthersKeep(cfg: Layers, w: World, after: World, c: nat)
    requires c in w.calls && c in after.calls && after.calls[c] == w.calls[c]
    requires CallOK(cfg, w, c)
    requires Later(w.budget, after.budget) && w.owners <= after.owners
    ensures CallOK(cfg, after, c)
  {
    var call := w.calls[c];
    forall i | 0 <= i < |call.threads|
      ensures call.threads[i] < |after.owners| && after.owners[call.threads[i]] == c
      ensures call.threads[i] in after.budget.threads
      ensures i < Over(call) ==> Ended(after.budget, call.threads[i])
      ensures i < Over(call) ==> EndedRefused(after.budget, call.threads[i]) == EndedRefused(w.budget, call.threads[i])
    {
    }
  }

  lemma OwnersKeep(w: World, after: World, c: nat)
    requires OwnersOK(w)
    requires c in after.calls && after.calls == w.calls[c := after.calls[c]]
    requires c in w.calls ==> w.calls[c].threads <= after.calls[c].threads
    requires after.owners == w.owners || (after.owners == w.owners + [c] && |w.owners| in after.calls[c].threads)
    ensures OwnersOK(after)
  {
    forall t: nat | t < |after.owners|
      ensures after.owners[t] in after.calls && t in after.calls[after.owners[t]].threads
    {
      if t < |w.owners| && w.owners[t] == c {
        var i :| 0 <= i < |w.calls[c].threads| && w.calls[c].threads[i] == t;
        assert after.calls[c].threads[i] == t;
      }
    }
  }

  lemma CallsKeep(cfg: Layers, w: World, after: World, c: nat)
    requires CallsOK(cfg, w) && OwnersOK(w)
    requires Later(w.budget, after.budget)
    requires c in after.calls && after.calls == w.calls[c := after.calls[c]]
    requires CallOK(cfg, after, c)
    requires c in w.calls ==> w.calls[c].threads <= after.calls[c].threads
    requires after.owners == w.owners || (after.owners == w.owners + [c] && |w.owners| in after.calls[c].threads)
    ensures CallsOK(cfg, after) && OwnersOK(after)
  {
    OwnersKeep(w, after, c);
    forall d | d in after.calls
      ensures CallOK(cfg, after, d)
    {
      if d != c {
        OthersKeep(cfg, w, after, d);
      }
    }
  }

  // ----- One lemma per action -----

  lemma NewCallIsOK(cfg: Layers, w: World, c: nat)
    requires cfg.Usable() && c !in w.calls
    ensures CallOK(cfg, Enters(cfg, w, c), c)
  {
  }

  lemma EnterKeepsInv(cfg: Layers, start: int, w: World, c: nat)
    requires cfg.Usable() && Inv(cfg, start, w)
    ensures Inv(cfg, start, Enters(cfg, w, c))
  {
    var after := Enters(cfg, w, c);
    if c !in w.calls {
      NewCallIsOK(cfg, w, c);
      CallsKeep(cfg, w, after, c);
      TalliesMove(w, c, after.calls[c]);
    }
  }

  lemma AdmitKeepsInv(cfg: Layers, start: int, w: World, c: nat, now: int)
    requires cfg.Usable() && Inv(cfg, start, w) && c in w.calls && w.calls[c].phase.Inside?
    ensures Inv(cfg, start, Admits(cfg, w, c, now))
  {
    var after := Admits(cfg, w, c, now);
    BreakerLogGrows(cfg, start, w, Breaker.Admit(now));
    TalliesMove(w, c, after.calls[c]);
    AdmitKeepsItsCall(cfg, w, c, now);
    CallsKeep(cfg, w, after, c);
  }

  lemma AdmitKeepsItsCall(cfg: Layers, w: World, c: nat, now: int)
    requires cfg.Usable() && CallsOK(cfg, w) && c in w.calls && w.calls[c].phase.Inside?
    ensures var after := Admits(cfg, w, c, now);
            && CallOK(cfg, after, c)
            && after.budget == w.budget && after.owners == w.owners
            && after.calls == w.calls[c := after.calls[c]] && after.calls[c].threads == w.calls[c].threads
  {
    assert CallOK(cfg, w, c);
  }

  lemma CancelKeepsInv(cfg: Layers, start: int, w: World, c: nat, cause: Error)
    requires cfg.Usable() && Inv(cfg, start, w) && c in w.calls
    ensures Inv(cfg, start, Cancels(w, c, cause))
  {
    var after := Cancels(w, c, cause);
    if after != w {
      assert CallOK(cfg, w, c);
      TalliesMove(w, c, after.calls[c]);
      CallsKeep(cfg, w, after, c);
    }
  }

  lemma AttemptKeepsItsCall(cfg: Layers, w: World, c: nat)
    requires c in w.calls && w.calls[c].phase.Between? && CallOK(cfg, w, c)
    requires |w.owners| !in w.budget.threads
    ensures CallOK(cfg, Attempts(w, c), c)
  {
    BudgetStepIsLater(w.budget, Budget.Begin(|w.owners|));
  }

  lemma AttemptKeepsLayers(cfg: Layers, start: int, w: World, c: nat)
    requires cfg.breaker.Usable() && LayersOK(cfg, start, w) && c in w.calls && w.calls[c].phase.Between?
    ensures LayersOK(cfg, start, Attempts(w, c))
  {
    BudgetLogGrows(cfg, w, Budget.Begin(|w.owners|));
  }

  lemma AttemptKeepsInv(cfg: Layers, start: int, w: World, c: nat)
    requires cfg.Usable() && Inv(cfg, start, w) && c in w.calls && w.calls[c].phase.Between?
    ensures Inv(cfg, start, Attempts(w, c))
  {
    var after := Attempts(w, c);
    AttemptKeepsLayers(cfg, start, w, c);
    assert CallOK(cfg, w, c);
    AttemptKeepsItsCall(cfg, w, c);
    BudgetStepIsLater(w.budget, Budget.Begin(|w.owners|));
    assert after.calls[c].threads[|w.calls[c].threads|] == |w.owners|;
    CallsKeep(cfg, w, after, c);
    TalliesMove(w, c, after.calls[c]);
  }

  function Advanced(w: World, c: nat, a: Budget.Action, result: Option<Error>): World
    requires c in w.calls && w.calls[c].phase.Attempting?
  {
    var phase := w.calls[c].phase;
    MoveTo(OnBudget(w, a), c, Attempting(phase.generation, phase.thread, result))
  }

  lemma AdvanceKeepsItsCall(cfg: Layers, w: World, c: nat, a: Budget.Action, result: Option<Error>)
    requires c in w.calls && w.calls[c].phase.Attempting? && CallOK(cfg, w, c)
    ensures CallOK(cfg, Advanced(w, c, a, result), c)
  {
    BudgetStepIsLater(w.budget, a);
  }

  lemma AdvanceKeepsLayers(cfg: Layers, start: int, w: World, c: nat, a: Budget.Action, result: Option<Error>)
    requires cfg.breaker.Usable() && LayersOK(cfg, start, w) && c in w.calls && w.calls[c].phase.Attempting?
    requires !a.Begin?
    ensures LayersOK(cfg, start, Advanced(w, c, a, result))
  {
    BudgetLogGrows(cfg, w, a);
    forall t | t in Budget.Apply(w.budget, a).threads
      ensures t in w.budget.threads
    {
      if t != a.t {
        BudgetMovesOneThread(w.budget, a, t);
      }
    }
  }

  lemma AdvanceKeepsInv(cfg: Layers, start: int, w: World, c: nat, a: Budget.Action, result: Option<Error>)
    requires cfg.Usable() && Inv(cfg, start, w) && c in w.calls && w.calls[c].phase.Attempting?
    requires !a.Begin? && a.t == w.calls[c].phase.thread
    ensures Inv(cfg, start, Advanced(w, c, a, result))
  {
    var after := Advanced(w, c, a, result);
    AdvanceKeepsLayers(cfg, start, w, c, a, result);
    assert CallOK(cfg, w, c);
    AdvanceKeepsItsCall(cfg, w, c, a, result);
    BudgetStepIsLater(w.budget, a);
    CallsKeep(cfg, w, after, c);
    TalliesMove(w, c, after.calls[c]);
  }

  lemma BudgetStepKeepsInv(cfg: Layers, start: int, w: World, c: nat)
    requires cfg.Usable() && Inv(cfg, start, w) && c in w.calls && w.calls[c].phase.Attempting?
    ensures Inv(cfg, start, OnBudget(w, Budget.Advance(w.calls[c].phase.thread)))
  {
    var phase := w.calls[c].phase;
    AdvanceKeepsInv(cfg, start, w, c, Budget.Advance(phase.thread), phase.err);
    var u := OnBudget(w, Budget.Advance(phase.thread));
    assert MoveTo(u, c, phase) == u;
  }

  lemma SettleKeepsItsCall(cfg: Layers, w: World, c: nat)
    requires cfg.Usable() && AtFinish(w, c) && CallOK(cfg, w, c)
    ensures CallOK(cfg, Settles(cfg, w, c), c)
  {
    if LastRefused(w.budget, w.calls[c]) {
      assert Is(BUDGET_EXCEEDED_ERROR, BUDGET_EXCEEDED);
      assert !Retry.Retryable(cfg.retry, BUDGET_EXCEEDED_ERROR);
    }
  }

  lemma SettleKeepsInv(cfg: Layers, start: int, w: World, c: nat)
    requires cfg.Usable() && Inv(cfg, start, w) && AtFinish(w, c)
    ensures Inv(cfg, start, Settles(cfg, w, c))
  {
    var after := Settles(cfg, w, c);
    assert CallOK(cfg, w, c);
    SettleKeepsItsCall(cfg, w, c);
    CallsKeep(cfg, w, after, c);
    TalliesMove(w, c, after.calls[c]);
  }

  lemma RecordKeepsInv(cfg: Layers, start: int, w: World, c: nat, now: int)
    requires cfg.Usable() && Inv(cfg, start, w) && c in w.calls && w.calls[c].phase.Recording?
    ensures Inv(cfg, start, Records(cfg, w, c, now))
  {
    var after := Records(cfg, w, c, now);
    assert CallOK(cfg, w, c);
    var phase := w.calls[c].phase;
    BreakerLogGrows(cfg, start, w, Breaker.Complete(phase.generation, phase.err.None?, now));
    TalliesMove(w, c, after.calls[c]);
    CallsKeep(cfg, w, after, c);
  }

  lemma BudgetActionKeepsInv(cfg: Layers, start: int, w: World, a: Action)
    requires cfg.Usable() && Inv(cfg, start, w) && (a.Advance? || a.Return?)
    ensures Inv(cfg, start, Apply(cfg, w, a))
  {
    match a
    case Advance(c) =>
      if c in w.calls && w.calls[c].phase.Attempting? {
        BudgetStepKeepsInv(cfg, start, w, c);
      }
    case Return(c, result, charge) =>
      if AtOperation(w, c) {
        AdvanceKeepsInv(cfg, start, w, c, Budget.Return(w.calls[c].phase.thread, charge), result);
      }
  }

  lemma ApplyKeepsInv(cfg: Layers, start: int, w: World, a: Action)
    requires cfg.Usable() && Inv(cfg, start, w)
    ensures Inv(cfg, start, Apply(cfg, w, a))
  {
    match a
    case Enter(c) => EnterKeepsInv(cfg, start, w, c);
    case Admit(c, now) => if c in w.calls && w.calls[c].phase.Inside? { AdmitKeepsInv(cfg, start, w, c, now); }
    case Cancel(c, cause) => if c in w.calls { CancelKeepsInv(cfg, start, w, c, cause); }
    case Record(c, now) => if c in w.calls && w.calls[c].phase.Recording? { RecordKeepsInv(cfg, start, w, c, now); }
    case Attempt(c) => if c in w.calls && w.calls[c].phase.Between? { AttemptKeepsInv(cfg, start, w, c); }
    case Settle(c) => if AtFinish(w, c) { SettleKeepsInv(cfg, start, w, c); }
    case _ => BudgetActionKeepsInv(cfg, start, w, a);
  }

  lemma {:induction false} RunKeepsInv(cfg: Layers, start: int, actions: seq<Action>)
    requires cfg.Usable()
    ensures Inv(cfg, start, Run(cfg, Init(cfg, start), actions))
  {
    var w := Init(cfg, start);
    if actions == [] {
      TallyZero(w.calls, HoldsSlot);
      TallyZero(w.calls, Recorded);
      TallyZero(w.calls, RecordedSuccess);
    } else {
      RunKeepsInv(cfg, start, actions[..|actions| - 1]);
      ApplyKeepsInv(cfg, start, Run(cfg, w, actions[..|actions| - 1]), actions[|actions| - 1]);
    }
  }

  // ----- What a chain guarantees over its life -----

  /** The operation runs at most Budget.Max.Calls times in all, one run per attempt that got
      through the budget, whatever the outcomes and however the calls interleave. */
  lemma OperationIsCapped(cfg: Layers, start: int, actions: seq<Action>)
    requires cfg.Usable()
    ensures var w := Run(cfg, Init(cfg, start), actions);
            && (cfg.max.calls > 0 ==> w.budget.started <= cfg.max.calls)
            && w.budget.started == Tally(w.budget.threads, Budget.HasStarted)
            && w.budget.fired <= 1
  {
    RunKeepsInv(cfg, start, actions);
    var w := Run(cfg, Init(cfg, start), actions);
    Budget.CallsAreCapped(cfg.max, w.budgetLog);
    Budget.RunsAreThreads(cfg.max, w.budgetLog);
  }

  /** A logical call makes at most MaxRetries attempts, one after another; none follows a budget
      refusal; and a call whose last attempt was refused ends with exactly that refusal. */
  lemma AttemptsAreCapped(cfg: Layers, start: int, actions: seq<Action>, c: nat)
    requires cfg.Usable() && c in Run(cfg, Init(cfg, start), actions).calls
    ensures var w := Run(cfg, Init(cfg, start), actions);
            var call := w.calls[c];
            && |call.threads| <= cfg.retry.maxAttempts
            && (forall i :: 0 <= i < |call.threads| - 1 ==>
                  Ended(w.budget, call.threads[i]) && !w.budget.threads[call.threads[i]].refused)
            && (call.phase.Done? && LastRefused(w.budget, call) ==> call.phase.err == Some(BUDGET_EXCEEDED_ERROR))
  {
    RunKeepsInv(cfg, start, actions);
    var w := Run(cfg, Init(cfg, start), actions);
    assert CallOK(cfg, w, c);
    var call := w.calls[c];
    forall i | 0 <= i < |call.threads| - 1
      ensures Ended(w.budget, call.threads[i]) && !w.budget.threads[call.threads[i]].refused
    {
      assert Ended(w.budget, call.threads[i]);
      assert !EndedRefused(w.budget, call.threads[i]);
    }
  }

  /** No attempt is charged to two calls. */
  lemma AttemptsAreNotShared(cfg: Layers, start: int, actions: seq<Action>, c: nat, d: nat, i: nat, j: nat)
    requires cfg.Usable()
    requires var calls := Run(cfg, Init(cfg, start), actions).calls;
             c in calls && d in calls && i < |calls[c].threads| && j < |calls[d].threads|
    ensures var calls := Run(cfg, Init(cfg, start), actions).calls;
            calls[c].threads[i] == calls[d].threads[j] ==> c == d
  {
    RunKeepsInv(cfg, start, actions);
    var w := Run(cfg, Init(cfg, start), actions);
    assert CallOK(cfg, w, c) && CallOK(cfg, w, d);
  }

  /** The breaker records exactly one outcome per admitted logical call, a success exactly for
      those that return no error, however many attempts each of them took; what it has been
      through is a run of the breaker machine. */
  lemma OneOutcomePerCall(cfg: Layers, start: int, actions: seq<Action>)
    requires cfg.Usable()
    ensures var w := Run(cfg, Init(cfg, start), actions);
            && w.breaker == Breaker.Run(cfg.breaker, Breaker.Init(cfg.breaker, start), w.breakerLog)
            && Outcomes(w.breakerLog) == Tally(w.calls, Recorded)
            && SuccessOutcomes(w.breakerLog) == Tally(w.calls, RecordedSuccess)
  {
    RunKeepsInv(cfg, start, actions);
  }

  /** A set that can be counted off against another is no larger. */
  lemma {:induction false} OneOwnerEach(threads: set<nat>, calls: set<nat>, owners: seq<nat>)
    requires forall t :: t in threads ==> t < |owners| && owners[t] in calls
    requires forall t, u :: t in threads && u in threads && owners[t] == owners[u] ==> t == u
    ensures |threads| <= |calls|
  {
    if t :| t in threads {
      OneOwnerEach(threads - {t}, calls - {owners[t]}, owners);
    }
  }

  predicate IsOperating(pc: Budget.Thread) {
    pc.Operating?
  }

  /** An attempt that is not over is the last one of its call, which is still inside. */
  lemma OperatingIsLast(cfg: Layers, start: int, w: World, t: nat)
    requires cfg.Usable() && Inv(cfg, start, w) && t in w.budget.threads && !Ended(w.budget, t)
    ensures t < |w.owners| && w.owners[t] in w.calls
    ensures var call := w.calls[w.owners[t]];
            HoldsSlot(call) && call.threads != [] && call.threads[|call.threads| - 1] == t
  {
    var c := w.owners[t];
    var i :| 0 <= i < |w.calls[c].threads| && w.calls[c].threads[i] == t;
    assert CallOK(cfg, w, c);
    assert forall k :: 0 <= k < Over(w.calls[c]) ==> Ended(w.budget, w.calls[c].threads[k]);
  }

  lemma OperationsAreOwned(cfg: Layers, start: int, w: World)
    requires cfg.Usable() && Inv(cfg, start, w)
    ensures Tally(w.budget.threads, IsOperating) <= Tally(w.calls, HoldsSlot)
  {
    var operating := Where(w.budget.threads, IsOperating);
    forall t | t in operating
      ensures t < |w.owners| && w.owners[t] in Where(w.calls, HoldsSlot)
    {
      OperatingIsLast(cfg, start, w, t);
    }
    forall t, u | t in operating && u in operating && w.owners[t] == w.owners[u]
      ensures t == u
    {
      OperatingIsLast(cfg, start, w, t);
      OperatingIsLast(cfg, start, w, u);
    }
    OneOwnerEach(operating, Where(w.calls, HoldsSlot), w.owners);
  }

  /** At most MaxConcurrent calls are inside at once, and at most that many operations run
      together. */
  lemma ConcurrencyIsCapped(cfg: Layers, start: int, actions: seq<Action>)
    requires cfg.Usable()
    ensures var w := Run(cfg, Init(cfg, start), actions);
            && w.slots == Tally(w.calls, HoldsSlot) <= cfg.maxConcurrent
            && Tally(w.budget.threads, IsOperating) <= cfg.maxConcurrent
  {
    RunKeepsInv(cfg, start, actions);
    OperationsAreOwned(cfg, start, Run(cfg, Init(cfg, start), actions));
  }

  /** A call makes one attempt at a time: an attempt that is not over is its last, and the call
      is still inside. */
  lemma OneAttemptAtATime(cfg: Layers, start: int, actions: seq<Action>, c: nat, i: nat)
    requires cfg.Usable()
    requires var w := Run(cfg, Init(cfg, start), actions);
             c in w.calls && i < |w.calls[c].threads| && !Ended(w.budget, w.calls[c].threads[i])
    ensures var w := Run(cfg, Init(cfg, start), actions);
            HoldsSlot(w.calls[c]) && i == |w.calls[c].threads| - 1
  {
    RunKeepsInv(cfg, start, actions);
    assert CallOK(cfg, Run(cfg, Init(cfg, start), actions), c);
  }

  lemma BreakerAgreesWithItsLog(cfg: Layers, start: int, actions: seq<Action>)
    requires cfg.Usable()
    ensures Breaker.Inv(cfg.breaker, Run(cfg, Init(cfg, start), actions).breaker)
  {
    RunKeepsInv(cfg, start, actions);
    Breaker.InitInv(cfg.breaker, start);
    Breaker.RunKeepsInv(cfg.breaker, Breaker.Init(cfg.breaker, start), Run(cfg, Init(cfg, start), actions).breakerLog);
  }

  /** The chain's breaker counts logical calls: it opens exactly on the failed call that completes
      CBFailureThreshold failed calls in a row, however often each of them was retried. */
  lemma ThresholdCountsCalls(cfg: Layers, start: int, actions: seq<Action>, c: nat, now: int, n: int)
    requires cfg.Usable() && cfg.breaker.window.None?
    requires 1 <= n <= BreakerCounts.MAX_UINT32 && cfg.breaker.readyToTrip == ReadyToTrip(n)
    requires var w := Run(cfg, Init(cfg, start), actions);
             && c in w.calls && w.calls[c].phase.Recording?
             && w.breaker.state.Closed? && w.calls[c].phase.generation == w.breaker.generation
    ensures var w := Run(cfg, Init(cfg, start), actions);
            var b := Breaker.CurrentState(cfg.breaker, w.breaker, now);
            && b.mark <= |b.era|
            && var log := Breaker.Successes(b.era[b.mark..]) + [w.calls[c].phase.err.None?];
               Apply(cfg, w, Record(c, now)).breaker.state.Open? <==>
               n <= |log| && forall i :: |log| - n <= i < |log| ==> !log[i]
  {
    var w := Run(cfg, Init(cfg, start), actions);
    BreakerAgreesWithItsLog(cfg, start, actions);
    Breaker.CurrentStateKeepsInv(cfg.breaker, w.breaker, now);
    Breaker.ConsecutivePolicyIsExact(cfg.breaker, w.breaker, n, w.calls[c].phase.err.None?, now);
  }

  // ----- What is retried, and what a call ends with -----

  /** Somebody has decided already: the budget, the breaker or the caller's context. */
  predicate Decided(err: Error) {
    Is(err, BUDGET_EXCEEDED) || Is(err, CIRCUIT_OPEN) || Is(err, CONTEXT_CANCELED) || Is(err, DEADLINE_EXCEEDED)
  }

  /** What the assembled retry makes of an error: a decision already made is final; short of one a
      rate limit and an error marked retryable are always retried, and a plain error if and only if
      the caller vouched for idempotence. */
  lemma RetriesExactly(cfg: Layers, assumeIdempotent: bool, err: Error)
    requires cfg.retry.custom == Some(Classifier(assumeIdempotent))
    ensures Decided(err) ==> !Retry.Retryable(cfg.retry, err)
    ensures !Decided(err) && (Is(err, RATE_LIMIT_EXCEEDED) || err.marked) ==> Retry.Retryable(cfg.retry, err)
    ensures !Decided(err) && !Is(err, RATE_LIMIT_EXCEEDED) && !err.marked ==>
              (Retry.Retryable(cfg.retry, err) <==> assumeIdempotent)
  {
  }

  /** A call comes in exactly when fewer than MaxConcurrent calls are inside, and else is told so. */
  lemma EnteredExactly(cfg: Layers, start: int, actions: seq<Action>, c: nat)
    requires cfg.Usable() && c !in Run(cfg, Init(cfg, start), actions).calls
    ensures var w := Run(cfg, Init(cfg, start), actions);
            Apply(cfg, w, Enter(c)).calls[c]
            == Call(if Tally(w.calls, HoldsSlot) < cfg.maxConcurrent then Inside
                    else Done(Some(Error({BULKHEAD_FULL}, false))), [], false)
  {
    RunKeepsInv(cfg, start, actions);
  }

  /** Inside, the breaker lets the call through or it ends with ErrCircuitOpen. */
  lemma AdmittedExactly(cfg: Layers, w: World, c: nat, now: int)
    requires cfg.Usable() && c in w.calls && w.calls[c].phase.Inside?
    ensures var call := Apply(cfg, w, Admit(c, now)).calls[c];
            match Breaker.BeforeRequest(cfg.breaker, w.breaker, now).1
            case Admitted(generation) => call == w.calls[c].(phase := Between(generation), admitted := true)
            case Rejected(_, _, _) => call == w.calls[c].(phase := Done(Some(Error({CIRCUIT_OPEN}, false))))
  {
  }

  /** A context that ends before the breaker or between attempts ends the call with its cause, and
      an admitted call is still recorded. */
  lemma CancelledExactly(cfg: Layers, w: World, c: nat, cause: Error)
    requires cfg.Usable() && c in w.calls
    ensures var call := Apply(cfg, w, Cancel(c, cause)).calls[c];
            match w.calls[c].phase
            case Inside => call.phase == Done(Some(cause))
            case Between(generation) => call.phase == Recording(generation, Some(cause))
            case _ => call == w.calls[c]
  {
  }

  /** What an attempt that is over tells retry: the budget's refusal, or what the operation said. */
  function Verdict(w: World, c: nat): Option<Error>
    requires AtFinish(w, c)
  {
    if w.budget.threads[w.calls[c].phase.thread].refused then Some(Error({BUDGET_EXCEEDED}, false))
    else w.calls[c].phase.err
  }

  /** After an attempt the call goes on to another one exactly when it failed, with an error that is
      retried, and attempts are left; else that attempt's outcome is what the call ends with. */
  lemma AttemptsAgainExactly(cfg: Layers, w: World, c: nat, assumeIdempotent: bool)
    requires cfg.Usable() && AtFinish(w, c) && cfg.retry.custom == Some(Classifier(assumeIdempotent))
    ensures var phase := Apply(cfg, w, Settle(c)).calls[c].phase;
            var err := Verdict(w, c);
            && (phase.Between? <==>
                  && |w.calls[c].threads| < cfg.retry.maxAttempts
                  && err.Some? && !Decided(err.value)
                  && (Is(err.value, RATE_LIMIT_EXCEEDED) || err.value.marked || assumeIdempotent))
            && (!phase.Between? ==> phase == Recording(w.calls[c].phase.generation, err))
  {
    if Verdict(w, c).Some? {
      RetriesExactly(cfg, assumeIdempotent, Verdict(w, c).value);
    }
  }

  predicate NoCancel(actions: seq<Action>, c: nat) {
    forall i :: 0 <= i < |actions| && actions[i].Cancel? ==> actions[i].c != c
  }

  /** The operation of this attempt has come back. */
  predicate CameBack(w: World, thread: nat) {
    thread in w.budget.threads && Budget.CameBack(w.budget.threads[thread])
  }

  predicate EndsWith(w: World, thread: nat, err: Option<Error>, result: Option<Error>) {
    && Ended(w.budget, thread)
    && err == if EndedRefused(w.budget, thread) then Some(Error({BUDGET_EXCEEDED}, false)) else result
  }

  /** Since the operation said result in the attempt that is thread, the call has stayed with that
      attempt or is done with its outcome, or it goes on. */
  predicate Follows(w: World, call: Call, thread: nat, result: Option<Error>) {
    match call.phase
    case Inside => false
    case Between(_) => true
    case Attempting(_, t, err) => t == thread && err == result
    case Recording(_, err) => EndsWith(w, thread, err, result)
    case Done(err) => EndsWith(w, thread, err, result)
  }

  ghost predicate Following(w: World, c: nat, thread: nat, attempts: nat, result: Option<Error>) {
    && c in w.calls && |w.calls[c].threads| >= attempts >= 1 && w.calls[c].threads[attempts - 1] == thread
    && CameBack(w, thread)
    && (|w.calls[c].threads| == attempts ==> Follows(w, w.calls[c], thread, result))
  }

  lemma BudgetStepFollows(w: World, a: Budget.Action, c: nat, thread: nat, attempts: nat, result: Option<Error>)
    requires Following(w, c, thread, attempts, result)
    requires a.Return? ==> a.t != thread
    ensures Following(OnBudget(w, a), c, thread, attempts, result)
  {
    if Ended(w.budget, thread) {
      FinishedStays(w.budget, a, thread);
    }
    if a.t != thread {
      BudgetMovesOneThread(w.budget, a, thread);
    }
  }

  /** A step that leaves call c, or its threads up to this attempt, as they are. */
  lemma OtherCallFollows(w: World, after: World, c: nat, thread: nat, attempts: nat, result: Option<Error>)
    requires Following(w, c, thread, attempts, result)
    requires c in after.calls && after.calls[c] == w.calls[c] && after.budget == w.budget
    ensures Following(after, c, thread, attempts, result)
  {
  }

  lemma OthersFollow(cfg: Layers, w: World, a: Action, c: nat, thread: nat, attempts: nat, result: Option<Error>)
    requires cfg.Usable() && Following(w, c, thread, attempts, result) && a.c != c
    ensures Following(Apply(cfg, w, a), c, thread, attempts, result)
  {
    var after := Apply(cfg, w, a);
    assert c in after.calls && after.calls[c] == w.calls[c];
    match a
    case Attempt(d) =>
      if after != w {
        BudgetStepFollows(w, Budget.Begin(|w.owners|), c, thread, attempts, result);
        OtherCallFollows(OnBudget(w, Budget.Begin(|w.owners|)), after, c, thread, attempts, result);
      }
    case Advance(d) =>
      if d in w.calls && w.calls[d].phase.Attempting? {
        BudgetStepFollows(w, Budget.Advance(w.calls[d].phase.thread), c, thread, attempts, result);
      }
    case Return(d, r, charge) =>
      if AtOperation(w, d) {
        var step := Budget.Return(w.calls[d].phase.thread, charge);
        BudgetStepFollows(w, step, c, thread, attempts, result);
        OtherCallFollows(OnBudget(w, step), after, c, thread, attempts, result);
      }
    case _ => OtherCallFollows(w, after, c, thread, attempts, result);
  }

  lemma OwnFollows(cfg: Layers, w: World, a: Action, c: nat, thread: nat, attempts: nat, result: Option<Error>)
    requires cfg.Usable() && Following(w, c, thread, attempts, result) && a.c == c && !a.Cancel?
    ensures Following(Apply(cfg, w, a), c, thread, attempts, result)
  {
    match a
    case Attempt(_) =>
      if w.calls[c].phase.Between? {
        BudgetStepFollows(w, Budget.Begin(|w.owners|), c, thread, attempts, result);
      }
    case Advance(_) =>
      if w.calls[c].phase.Attempting? {
        BudgetStepFollows(w, Budget.Advance(w.calls[c].phase.thread), c, thread, attempts, result);
      }
    case Return(_, r, charge) =>
      if AtOperation(w, c) {
        BudgetStepFollows(w, Budget.Return(w.calls[c].phase.thread, charge), c, thread, attempts, result);
      }
    case _ =>
  }

  lemma {:induction false} RunFollows(cfg: Layers, w: World, actions: seq<Action>, c: nat, thread: nat, attempts: nat,
                                      result: Option<Error>)
    requires cfg.Usable() && Following(w, c, thread, attempts, result) && NoCancel(actions, c)
    ensures Following(Run(cfg, w, actions), c, thread, attempts, result)
  {
    if actions != [] {
      var front, a := actions[..|actions| - 1], actions[|actions| - 1];
      RunFollows(cfg, w, front, c, thread, attempts, result);
      if a.c == c {
        OwnFollows(cfg, Run(cfg, w, front), a, c, thread, attempts, result);
      } else {
        OthersFollow(cfg, Run(cfg, w, front), a, c, thread, attempts, result);
      }
    }
  }

  lemma ReturnIsFollowed(cfg: Layers, start: int, w: World, c: nat, result: Option<Error>, charge: Cost)
    requires cfg.Usable() && Inv(cfg, start, w) && AtOperation(w, c)
    ensures var returned := Apply(cfg, w, Return(c, result, charge));
            Following(returned, c, w.calls[c].phase.thread, |w.calls[c].threads|, result)
  {
    assert CallOK(cfg, w, c);
  }

  /** What a call ends with, in every interleaving: when its operation has said result and the call,
      unless it is cancelled, is done without another attempt, then it ends with result, or with the
      budget's refusal when that attempt took the budget over its ceiling. */
  lemma LastAttemptDecides(cfg: Layers, start: int, before: seq<Action>, c: nat, result: Option<Error>, charge: Cost,
                           actions: seq<Action>)
    requires cfg.Usable() && AtOperation(Run(cfg, Init(cfg, start), before), c) && NoCancel(actions, c)
    requires var w := Run(cfg, Init(cfg, start), before);
             var u := Run(cfg, Apply(cfg, w, Return(c, result, charge)), actions);
             c in u.calls && u.calls[c].phase.Done? && u.calls[c].threads == w.calls[c].threads
    ensures var w := Run(cfg, Init(cfg, start), before);
            var u := Run(cfg, Apply(cfg, w, Return(c, result, charge)), actions);
            var thread := w.calls[c].phase.thread;
            && Ended(u.budget, thread)
            && u.calls[c].phase.err
               == if u.budget.threads[thread].refused then Some(Error({BUDGET_EXCEEDED}, false)) else result
  {
    RunKeepsInv(cfg, start, before);
    var w := Run(cfg, Init(cfg, start), before);
    ReturnIsFollowed(cfg, start, w, c, result, charge);
    RunFollows(cfg, Apply(cfg, w, Return(c, result, charge)), actions, c, w.calls[c].phase.thread,
               |w.calls[c].threads|, result);
  }
}
