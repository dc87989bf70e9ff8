// middleware/chain.go, the package's advice on order: what the breaker is told of calls that
// retry recovers, with retry inside the breaker and with retry outside it. First one call at a
// time through the two chains, then calls that overlap.
module Layering {
  import opened Basics
  import opened Errors
  import opened BreakerCounts
  import opened Chains
  import B = BreakerMachine
  import Backoff
  import Retry

  // ----- The two layers -----

  /** What a chain is assembled from: failure is the operation's error, and clock gives the i-th
      reading of the time. */
  datatype Parts = Parts(breaker: B.Settings, retry: Retry.Config, failure: Error, clock: nat -> int)
  {
    predicate Usable() {
      breaker.Usable() && retry.Usable() && Retry.Retryable(retry, failure)
    }
  }

  /** The breaker opens on n failures in a row; it has no window. */
  ghost predicate Consecutive(p: Parts, n: int) {
    p.Usable() && p.breaker.window.None? && p.breaker.readyToTrip == TripOnConsecutiveFailures(n)
  }

  /** failuresLeft says how often the operation is still going to fail, told what the breaker
      has been told of outcomes. */
  datatype World = World(breaker: B.Breaker, failuresLeft: nat, readings: nat, told: seq<bool>)

  type Reply = Option<Error>

  const CIRCUIT_OPEN_ERROR := Error({CIRCUIT_OPEN}, false)

  function Operation(p: Parts): Handler<World, Reply> {
    (w: World) =>
      if w.failuresLeft == 0 then (w, None) else (w.(failuresLeft := w.failuresLeft - 1), Some(p.failure))
  }

  function Admit(p: Parts, w: World): (World, B.Admission) {
    var (b, verdict) := B.BeforeRequest(p.breaker, w.breaker, p.clock(w.readings));
    (w.(breaker := b, readings := w.readings + 1), verdict)
  }

  function Tell(p: Parts, w: World, generation: int, success: bool): World
    requires p.Usable()
  {
    w.(breaker := B.AfterRequest(p.breaker, w.breaker, generation, success, p.clock(w.readings)),
       readings := w.readings + 1,
       told := w.told + [success])
  }

  function BreakerLayer(p: Parts): Middleware<World, Reply>
    requires p.Usable()
  {
    (next: Handler<World, Reply>) => (w: World) =>
      var (admitted, verdict) := Admit(p, w);
      match verdict
      case Rejected(_, _, _) => (admitted, Some(CIRCUIT_OPEN_ERROR))
      case Admitted(generation) =>
        var (after, err) := next(admitted);
        (Tell(p, after, generation, err.None?), err)
  }

  /** The retry loop around a call that changes the world, from the given attempt on. */
  function RetryFrom<W>(cfg: Retry.Config, next: Handler<W, Reply>, w: W, attempt: nat): (W, Reply)
    requires 1 <= attempt <= cfg.maxAttempts
    decreases cfg.maxAttempts - attempt
  {
    var (after, err) := next(w);
    if Retry.Stops(cfg, Retry.Outcome((), err), attempt) then (after, err)
    else RetryFrom(cfg, next, after, attempt + 1)
  }

  function RetryLayer(p: Parts): Middleware<World, Reply>
    requires p.Usable()
  {
    (next: Handler<World, Reply>) => (w: World) => RetryFrom(p.retry, next, w, 1)
  }

  // ----- The retry layer is the retry loop -----

  /** The world after k calls of next in a row. */
  function Nth<W>(next: Handler<W, Reply>, w: W, k: nat): W {
    if k == 0 then w else next(Nth(next, w, k - 1)).0
  }

  /** What those calls return, as the outcomes the retry loop is given. */
  function OutcomesOf<W>(next: Handler<W, Reply>, w: W): nat -> Retry.Outcome<()> {
    (k: nat) => Retry.Outcome((), if k == 0 then None else next(Nth(next, w, k - 1)).1)
  }

  lemma {:induction false} RetryFromIsTheLoop<W>(cfg: Retry.Config, next: Handler<W, Reply>, w: W, attempt: nat)
    requires 1 <= attempt <= cfg.maxAttempts
    ensures var k := Retry.LastAttempt(cfg, OutcomesOf(next, w), attempt);
            RetryFrom(cfg, next, Nth(next, w, attempt - 1), attempt) == (Nth(next, w, k), OutcomesOf(next, w)(k).err)
    decreases cfg.maxAttempts - attempt
  {
    var outcomes := OutcomesOf(next, w);
    assert outcomes(attempt).err == next(Nth(next, w, attempt - 1)).1;
    if !Retry.Stops(cfg, outcomes(attempt), attempt) {
      RetryFromIsTheLoop(cfg, next, w, attempt + 1);
    }
  }

  /** The layer makes exactly the attempts of the retry loop and returns its last outcome. */
  lemma RetryLayerIsTheLoop(p: Parts, next: Handler<World, Reply>, w: World)
    requires p.Usable()
    ensures var k := Retry.LastAttempt(p.retry, OutcomesOf(next, w), 1);
            RetryLayer(p)(next)(w) == (Nth(next, w, k), OutcomesOf(next, w)(k).err)
  {
    RetryFromIsTheLoop(p.retry, next, w, 1);
  }

  // ----- One call, retry inside -----

  function InsideChain(p: Parts): Handler<World, Reply>
    requires p.Usable()
  {
    Wrap([BreakerLayer(p), RetryLayer(p)], Operation(p))
  }

  function OutsideChain(p: Parts): Handler<World, Reply>
    requires p.Usable()
  {
    Wrap([RetryLayer(p), BreakerLayer(p)], Operation(p))
  }

  lemma ChainsUnfold(p: Parts)
    requires p.Usable()
    ensures InsideChain(p) == BreakerLayer(p)(RetryLayer(p)(Operation(p)))
    ensures OutsideChain(p) == RetryLayer(p)(BreakerLayer(p)(Operation(p)))
  {
    TwoLayers(BreakerLayer(p), RetryLayer(p), Operation(p));
    TwoLayers(RetryLayer(p), BreakerLayer(p), Operation(p));
  }

  lemma TwoLayers<W, T>(outer: Middleware<W, T>, inner: Middleware<W, T>, fn: Handler<W, T>)
    ensures Wrap([outer, inner], fn) == outer(inner(fn))
  {
    var both, one: seq<Middleware<W, T>> := [outer, inner], [inner];
    assert both[1..] == one;
    assert one[1..] == [];
    assert Wrap(one, fn) == inner(Wrap(one[1..], fn));
  }

  lemma {:induction false} RetryRecoversFrom(p: Parts, w: World, attempt: nat)
    requires p.Usable() && attempt >= 1 && attempt + w.failuresLeft <= p.retry.maxAttempts
    ensures RetryFrom(p.retry, Operation(p), w, attempt) == (w.(failuresLeft := 0), None)
    decreases w.failuresLeft
  {
    if w.failuresLeft > 0 {
      RetryRecoversFrom(p, w.(failuresLeft := w.failuresLeft - 1), attempt + 1);
    }
  }

  /** Of a call that fails k < MaxAttempts times and then succeeds, a breaker with retry inside
      it is told one success, whatever k is; the caller sees the success. */
  lemma InsideTellsOneSuccess(p: Parts, w: World)
    requires p.Usable() && w.failuresLeft < p.retry.maxAttempts
    ensures var (admitted, verdict) := Admit(p, w);
            InsideChain(p)(w)
            == match verdict
               case Admitted(generation) => (Tell(p, admitted.(failuresLeft := 0), generation, true), None)
               case Rejected(_, _, _) => (admitted, Some(CIRCUIT_OPEN_ERROR))
  {
    ChainsUnfold(p);
    RetryRecoversFrom(p, Admit(p, w).0, 1);
  }

  // ----- The streak of failures -----

  /** A Closed breaker that has counted at most run failures in a row. */
  predicate StreakWithin(b: B.Breaker, run: nat) {
    b.state.Closed? && b.counts.consecutiveFailures <= run
  }

  lemma AdmitKeepsStreak(p: Parts, b: B.Breaker, now: int, run: nat)
    requires p.Usable() && StreakWithin(b, run)
    ensures StreakWithin(B.BeforeRequest(p.breaker, b, now).0, run)
    ensures B.BeforeRequest(p.breaker, b, now).1 == B.Admitted(b.generation)
    ensures B.BeforeRequest(p.breaker, b, now).0.generation == b.generation
  {
  }

  lemma OutcomeMovesStreak(p: Parts, n: int, b: B.Breaker, success: bool, now: int, run: nat)
    requires Consecutive(p, n) && StreakWithin(b, run)
    requires success || run + 1 < ClampToUint32(n)
    ensures var after := B.AfterRequest(p.breaker, b, b.generation, success, now);
            StreakWithin(after, if success then 0 else run + 1) && after.generation == b.generation
  {
    var c := B.CurrentState(p.breaker, b, now);
    assert c.counts.consecutiveFailures <= run;
    assert !success ==> !p.breaker.readyToTrip(AfterFailure(c.counts));
  }

  // ----- One call, retry outside -----

  function Failed(k: nat): (log: seq<bool>)
    ensures |log| == k && forall i :: 0 <= i < k ==> !log[i]
  {
    seq(k, i => false)
  }

  /** One attempt through a Closed breaker that has room for one more failure. */
  lemma AttemptIsTold(p: Parts, n: int, w: World, run: nat)
    requires Consecutive(p, n) && StreakWithin(w.breaker, run)
    requires w.failuresLeft > 0 ==> run + 1 < ClampToUint32(n)
    ensures var (after, err) := BreakerLayer(p)(Operation(p))(w);
            && after.told == w.told + [w.failuresLeft == 0]
            && err == (if w.failuresLeft == 0 then None else Some(p.failure))
            && after.failuresLeft == (if w.failuresLeft == 0 then 0 else w.failuresLeft - 1)
            && StreakWithin(after.breaker, if w.failuresLeft == 0 then 0 else run + 1)
  {
    AdmitKeepsStreak(p, w.breaker, p.clock(w.readings), run);
    var admitted := Admit(p, w).0;
    OutcomeMovesStreak(p, n, admitted.breaker, w.failuresLeft == 0, p.clock(w.readings + 1), run);
  }

  lemma {:induction false} AttemptsAreTold(p: Parts, n: int, w: World, run: nat, attempt: nat)
    requires Consecutive(p, n) && StreakWithin(w.breaker, run) && run + w.failuresLeft < ClampToUint32(n)
    requires attempt >= 1 && attempt + w.failuresLeft <= p.retry.maxAttempts
    ensures var (after, err) := RetryFrom(p.retry, BreakerLayer(p)(Operation(p)), w, attempt);
            && after.told == w.told + Failed(w.failuresLeft) + [true]
            && err.None? && after.failuresLeft == 0 && StreakWithin(after.breaker, 0)
    decreases w.failuresLeft
  {
    AttemptIsTold(p, n, w, run);
    if w.failuresLeft == 0 {
      assert w.told + Failed(0) + [true] == w.told + [true];
    } else {
      var after := BreakerLayer(p)(Operation(p))(w).0;
      AttemptsAreTold(p, n, after, run + 1, attempt + 1);
      assert w.told + [false] + Failed(w.failuresLeft - 1) == w.told + Failed(w.failuresLeft);
    }
  }

  /** Of the same call a breaker with retry outside it is told every attempt, as long as the
      failures do not reach the threshold. */
  lemma OutsideTellsEveryAttempt(p: Parts, n: int, w: World, run: nat)
    requires Consecutive(p, n) && StreakWithin(w.breaker, run) && run + w.failuresLeft < ClampToUint32(n)
    requires w.failuresLeft < p.retry.maxAttempts
    ensures var (after, err) := OutsideChain(p)(w);
            && after.told == w.told + Failed(w.failuresLeft) + [true]
            && err.None? && after.failuresLeft == 0 && StreakWithin(after.breaker, 0)
  {
    ChainsUnfold(p);
    AttemptsAreTold(p, n, w, run, 1);
  }

  // ----- Calls one after another -----

  /** Retry recovers a call when an attempt is left for the success. */
  predicate Recovered(calls: seq<nat>, maxAttempts: int) {
    forall i :: 0 <= i < |calls| ==> calls[i] < maxAttempts
  }

  function Fresh(p: Parts): World {
    World(B.Init(p.breaker, p.clock(0)), 0, 0, [])
  }

  /** Calls that fail calls[i] times and then would succeed, one after another. */
  function RunCalls(chain: Handler<World, Reply>, w: World, calls: seq<nat>): World {
    if calls == [] then w
    else chain(RunCalls(chain, w, calls[..|calls| - 1]).(failuresLeft := calls[|calls| - 1])).0
  }

  /** Every attempt of every call. */
  function EveryAttempt(calls: seq<nat>): seq<bool> {
    if calls == [] then [] else EveryAttempt(calls[..|calls| - 1]) + Failed(calls[|calls| - 1]) + [true]
  }

  /** Retry inside the breaker: whatever the threshold and however often recovered calls fail,
      the breaker is told one success per call and stays Closed. */
  lemma {:induction false} RetryInsideIsSafe(p: Parts, n: int, calls: seq<nat>)
    requires Consecutive(p, n) && Recovered(calls, p.retry.maxAttempts)
    ensures var w := RunCalls(InsideChain(p), Fresh(p), calls);
            && StreakWithin(w.breaker, 0)
            && w.told == seq(|calls|, i => true)
  {
    if calls != [] {
      var front, k := calls[..|calls| - 1], calls[|calls| - 1];
      RetryInsideIsSafe(p, n, front);
      var w := RunCalls(InsideChain(p), Fresh(p), front).(failuresLeft := k);
      InsideTellsOneSuccess(p, w);
      AdmitKeepsStreak(p, w.breaker, p.clock(w.readings), 0);
      OutcomeMovesStreak(p, n, Admit(p, w).0.breaker, true, p.clock(w.readings + 1), 0);
      assert seq(|front|, i => true) + [true] == seq(|calls|, i => true);
    }
  }

  /** Retry outside the breaker, one call at a time: it is told every attempt, and stays Closed
      when the threshold is at least MaxAttempts. */
  lemma {:induction false} RetryOutsideInTurn(p: Parts, n: int, calls: seq<nat>)
    requires Consecutive(p, n) && Recovered(calls, p.retry.maxAttempts)
    requires p.retry.maxAttempts <= ClampToUint32(n)
    ensures var w := RunCalls(OutsideChain(p), Fresh(p), calls);
            && StreakWithin(w.breaker, 0)
            && w.told == EveryAttempt(calls)
  {
    if calls != [] {
      var front, k := calls[..|calls| - 1], calls[|calls| - 1];
      RetryOutsideInTurn(p, n, front);
      OutsideTellsEveryAttempt(p, n, RunCalls(OutsideChain(p), Fresh(p), front).(failuresLeft := k), 0);
    }
  }

  // ----- Calls that overlap -----

  /** The wait after a failed attempt, and the shortest it can be. */
  function Delay(p: Parts, attempt: nat, random: real): int
    requires attempt >= 1
  {
    Backoff.CalculateBackoff(p.retry.policy, attempt, p.retry.initialDelay, p.retry.maxDelay, p.retry.multiplier,
                             if p.retry.jitter then Some(random) else None)
  }

  function Shortest(p: Parts, attempt: nat): int
    requires attempt >= 1
  {
    Backoff.Unjittered(p.retry.policy, attempt, p.retry.initialDelay, p.retry.maxDelay, p.retry.multiplier)
  }

  lemma DelayBounds(p: Parts, attempt: nat, random: real)
    requires attempt >= 1 && 0.0 <= random < 1.0
    ensures 0 <= Shortest(p, attempt) <= Delay(p, attempt, random)
    ensures Delay(p, attempt, 0.0) == Shortest(p, attempt)
  {
    Backoff.UnjitteredBounds(p.retry.policy, attempt, p.retry.initialDelay, p.retry.maxDelay, p.retry.multiplier);
    Backoff.BackoffBounds(p.retry.policy, attempt, p.retry.initialDelay, p.retry.maxDelay, p.retry.multiplier,
                          if p.retry.jitter then Some(random) else None);
  }

  /** One of m places for a logical call; attempts counts its failed attempts so far. */
  datatype Slot =
    | Free
    | Waiting(attempts: nat, due: int)          // between attempts, the next one not before due
    | Trying(attempts: nat, generation: int)    // an attempt is with the breaker and the operation

  /** now is the time of the last step; recent says, place by place, how many failures of its call
      the breaker has counted since it last cleared its counters. */
  datatype Traffic = Traffic(breaker: B.Breaker, now: int, slots: seq<Slot>, recent: seq<nat>)

  /** random is what a backoff begun by the step is jittered with. */
  datatype Step =
    | Enter(i: nat)
    | Begin(i: nat, now: int, random: real)
    | Finish(i: nat, success: bool, now: int, random: real)

  function Zeros(m: nat): (z: seq<nat>)
    ensures |z| == m && forall i :: 0 <= i < m ==> z[i] == 0
  {
    seq(m, i => 0)
  }

  function Idle(p: Parts, m: nat, start: int): Traffic {
    Traffic(B.Init(p.breaker, start), start, seq(m, i => Free), Zeros(m))
  }

  /** The clock does not step back, and the random factor is one. */
  predicate Timely(t: Traffic, s: Step) {
    s.Enter? || (t.now <= s.now && 0.0 <= s.random < 1.0)
  }

  /** The Closed interval has run out: the breaker is about to clear its counters. */
  predicate Clears(p: Parts, b: B.Breaker, now: int) {
    b.state.Closed? && p.breaker.interval > 0 && b.expiry < now
  }

  function Recent(p: Parts, t: Traffic, now: int): (r: seq<nat>)
    ensures |r| == |t.recent|
  {
    if Clears(p, t.breaker, now) then Zeros(|t.recent|) else t.recent
  }

  /** What retry makes of a failed attempt. */
  function AfterError(p: Parts, attempts: nat, err: Error, now: int, random: real): Slot {
    if Retry.Stops(p.retry, Retry.Outcome((), Some(err)), attempts + 1) then Free
    else Waiting(attempts + 1, now + Delay(p, attempts + 1, random))
  }

  function BeginStep(p: Parts, t: Traffic, i: nat, now: int, random: real): Traffic
    requires i < |t.slots| && t.slots[i].Waiting?
  {
    var attempts := t.slots[i].attempts;
    var (b, verdict) := B.BeforeRequest(p.breaker, t.breaker, now);
    var slot := match verdict
      case Admitted(generation) => Trying(attempts, generation)
      case Rejected(_, _, _) => AfterError(p, attempts, CIRCUIT_OPEN_ERROR, now, random);
    Traffic(b, now, t.slots[i := slot], Recent(p, t, now))
  }

  function FinishStep(p: Parts, t: Traffic, i: nat, success: bool, now: int, random: real): Traffic
    requires p.Usable() && i < |t.slots| && i < |t.recent| && t.slots[i].Trying?
  {
    var Trying(attempts, generation) := t.slots[i];
    var recent := Recent(p, t, now);
    Traffic(B.AfterRequest(p.breaker, t.breaker, generation, success, now),
            now,
            t.slots[i := if success then Free else AfterError(p, attempts, p.failure, now, random)],
            recent[i := if success then 0 else recent[i] + 1])
  }

  /** Retry outside: every attempt is admitted and told on its own, and waits for its backoff. A
      call that retry is to recover succeeds on its last allowed attempt at the latest. */
  function Apply(p: Parts, t: Traffic, s: Step): Traffic
    requires p.Usable()
  {
    if s.i >= |t.slots| || |t.recent| != |t.slots| || !Timely(t, s) then t else
      match (s, t.slots[s.i])
      case (Enter(i), Free) => t.(slots := t.slots[i := Waiting(0, t.now)], recent := t.recent[i := 0])
      case (Begin(i, now, random), Waiting(_, due)) => if now < due then t else BeginStep(p, t, i, now, random)
      case (Finish(i, success, now, random), Trying(attempts, _)) =>
        if !success && attempts + 1 >= p.retry.maxAttempts then t else FinishStep(p, t, i, success, now, random)
      case _ => t
  }

  /** Retry inside: a call is admitted once, and told once, when an attempt succeeds. Nothing here
      depends on when the attempts are made. */
  function ApplyInside(p: Parts, t: Traffic, s: Step): Traffic
    requires p.Usable()
  {
    if s.i >= |t.slots| then t else
      match (s, t.slots[s.i])
      case (Enter(i), Free) => t.(slots := t.slots[i := Waiting(0, t.now)])
      case (Begin(i, now, _), Waiting(attempts, _)) =>
        (var (b, verdict) := B.BeforeRequest(p.breaker, t.breaker, now);
         match verdict
         case Admitted(generation) => t.(slots := t.slots[i := Trying(attempts, generation)], breaker := b)
         case Rejected(_, _, _) => t.(slots := t.slots[i := Free], breaker := b))
      case (Finish(i, success, now, _), Trying(attempts, generation)) =>
        (if success then
           t.(slots := t.slots[i := Free],
              breaker := B.AfterRequest(p.breaker, t.breaker, generation, true, now))
         else if attempts + 1 >= p.retry.maxAttempts then t
         else t.(slots := t.slots[i := Trying(attempts + 1, generation)]))
      case _ => t
  }

  function Run(p: Parts, t: Traffic, steps: seq<Step>): Traffic
    requires p.Usable()
  {
    if steps == [] then t else Apply(p, Run(p, t, steps[..|steps| - 1]), steps[|steps| - 1])
  }

  function RunInside(p: Parts, t: Traffic, steps: seq<Step>): Traffic
    requires p.Usable()
  {
    if steps == [] then t else ApplyInside(p, RunInside(p, t, steps[..|steps| - 1]), steps[|steps| - 1])
  }

  lemma RunSnoc(p: Parts, t: Traffic, steps: seq<Step>, s: Step)
    requires p.Usable()
    ensures Run(p, t, steps + [s]) == Apply(p, Run(p, t, steps), s)
    ensures RunInside(p, t, steps + [s]) == ApplyInside(p, RunInside(p, t, steps), s)
  {
    assert (steps + [s])[..|steps|] == steps;
  }

  /** Retry inside the breaker stays harmless however many recovered calls overlap. */
  lemma {:induction false} OverlapInsideIsSafe(p: Parts, n: int, m: nat, start: int, steps: seq<Step>)
    requires Consecutive(p, n)
    ensures var t := RunInside(p, Idle(p, m, start), steps);
            && StreakWithin(t.breaker, 0)
            && forall i :: 0 <= i < |t.slots| && t.slots[i].Trying? ==> t.slots[i].generation == t.breaker.generation
  {
    if steps != [] {
      var s := steps[|steps| - 1];
      OverlapInsideIsSafe(p, n, m, start, steps[..|steps| - 1]);
      var t := RunInside(p, Idle(p, m, start), steps[..|steps| - 1]);
      if s.Begin? {
        AdmitKeepsStreak(p, t.breaker, s.now, 0);
      } else if s.Finish? {
        OutcomeMovesStreak(p, n, t.breaker, true, s.now, 0);
      }
    }
  }

  // ----- The two chains are runs of these steps -----

  lemma {:induction false} RunConcat(p: Parts, t: Traffic, first: seq<Step>, second: seq<Step>)
    requires p.Usable()
    ensures Run(p, t, first + second) == Run(p, Run(p, t, first), second)
  {
    if second == [] {
      assert first + second == first;
    } else {
      RunConcat(p, t, first, second[..|second| - 1]);
      assert (first + second)[..|first + second| - 1] == first + second[..|second| - 1];
    }
  }

  /** The clock of the chain does not step back, and the attempts after the given one wait for
      their backoff: attempt k reads it at the reading 2k on. */
  ghost predicate Patient(p: Parts, readings: nat, attempts: nat) {
    && (forall k: nat :: readings <= k ==> StepsOn(p, k))
    && (forall k: nat :: WaitsAfter(p, readings, attempts, k))
  }

  predicate StepsOn(p: Parts, k: nat) {
    p.clock(k) <= p.clock(k + 1)
  }

  predicate WaitsAfter(p: Parts, readings: nat, attempts: nat, k: nat) {
    p.clock(readings + 2 * k + 2) >= p.clock(readings + 2 * k + 1) + Shortest(p, attempts + k + 1)
  }

  lemma PatientNext(p: Parts, readings: nat, attempts: nat)
    requires Patient(p, readings, attempts)
    ensures Patient(p, readings + 2, attempts + 1)
    ensures p.clock(readings) <= p.clock(readings + 1)
    ensures p.clock(readings + 2) >= p.clock(readings + 1) + Shortest(p, attempts + 1)
  {
    assert StepsOn(p, readings);
    assert WaitsAfter(p, readings, attempts, 0);
    var nextReadings, nextAttempts := readings + 2, attempts + 1;
    forall k: nat
      ensures WaitsAfter(p, nextReadings, nextAttempts, k)
    {
      assert WaitsAfter(p, readings, attempts, k + 1);
    }
  }

  /** A place whose call may make its next attempt now. */
  predicate MayGoOn(p: Parts, w: World, t: Traffic) {
    && |t.slots| == |t.recent| == 1 && t.slots[0].Waiting? && t.breaker == w.breaker
    && t.now <= p.clock(w.readings) && t.slots[0].due <= p.clock(w.readings)
  }

  function Rest(p: Parts, w: World, attempt: nat): B.Breaker
    requires p.Usable() && 1 <= attempt <= p.retry.maxAttempts
  {
    RetryFrom(p.retry, BreakerLayer(p)(Operation(p)), w, attempt).0.breaker
  }

  /** The world after an attempt that is let in and fails: retry goes on. */
  lemma RetryGoesOn(p: Parts, w: World, attempt: nat) returns (next: World)
    requires p.Usable() && 1 <= attempt < p.retry.maxAttempts
    requires Admit(p, w).1.Admitted? && w.failuresLeft > 0
    ensures next.failuresLeft == w.failuresLeft - 1 && next.readings == w.readings + 2
    ensures next.breaker == B.AfterRequest(p.breaker, Admit(p, w).0.breaker, Admit(p, w).1.generation, false,
                                           p.clock(w.readings + 1))
    ensures Rest(p, w, attempt) == Rest(p, next, attempt + 1)
  {
    next := BreakerLayer(p)(Operation(p))(w).0;
  }

  /** The run has told the breaker what the rest of the call tells it, and has left the place. */
  predicate PlaysTheRest(p: Parts, w: World, t: Traffic, steps: seq<Step>)
    requires p.Usable() && MayGoOn(p, w, t) && t.slots[0].attempts < p.retry.maxAttempts
  {
    var u := Run(p, t, steps);
    u.breaker == Rest(p, w, t.slots[0].attempts + 1) && u.slots == [Free]
  }

  /** Begin is the admission of the attempt. */
  lemma BeginIsAdmission(p: Parts, w: World, t: Traffic) returns (begin: Step)
    requires p.Usable() && MayGoOn(p, w, t)
    ensures var (u, verdict) := (Run(p, t, [] + [begin]), Admit(p, w).1);
            && u.breaker == Admit(p, w).0.breaker && u.now == p.clock(w.readings)
            && |u.slots| == |u.recent| == 1
            && (verdict.Admitted? ==> u.slots[0] == Trying(t.slots[0].attempts, verdict.generation))
            && (verdict.Rejected? && !Retry.Retryable(p.retry, CIRCUIT_OPEN_ERROR) ==> u.slots[0] == Free)
  {
    begin := Begin(0, p.clock(w.readings), 0.0);
    RunSnoc(p, t, [], begin);
  }

  /** An attempt that is let in and fails is a Begin and a Finish. */
  lemma FailedAttemptIsTwoSteps(p: Parts, w: World, t: Traffic) returns (steps: seq<Step>, next: World)
    requires p.Usable() && MayGoOn(p, w, t) && p.clock(w.readings) <= p.clock(w.readings + 1)
    requires p.clock(w.readings + 2) >= p.clock(w.readings + 1) + Shortest(p, t.slots[0].attempts + 1)
    requires t.slots[0].attempts + w.failuresLeft < p.retry.maxAttempts
    requires Admit(p, w).1.Admitted? && w.failuresLeft > 0
    ensures next.failuresLeft == w.failuresLeft - 1 && next.readings == w.readings + 2
    ensures Rest(p, w, t.slots[0].attempts + 1) == Rest(p, next, t.slots[0].attempts + 2)
    ensures MayGoOn(p, next, Run(p, t, steps))
    ensures Run(p, t, steps).slots[0].attempts == t.slots[0].attempts + 1
  {
    var begin := BeginIsAdmission(p, w, t);
    var finish := Finish(0, false, p.clock(w.readings + 1), 0.0);
    RunSnoc(p, t, [] + [begin], finish);
    steps := [] + [begin] + [finish];
    next := RetryGoesOn(p, w, t.slots[0].attempts + 1);
    DelayBounds(p, t.slots[0].attempts + 1, 0.0);
  }

  /** Any other attempt is the last one. */
  lemma RetryEnds(p: Parts, w: World, attempt: nat)
    requires p.Usable() && !Retry.Retryable(p.retry, CIRCUIT_OPEN_ERROR)
    requires 1 <= attempt <= p.retry.maxAttempts
    requires !(Admit(p, w).1.Admitted? && w.failuresLeft > 0)
    ensures var (admitted, verdict) := Admit(p, w);
            Rest(p, w, attempt) == if verdict.Rejected? then admitted.breaker else
                                     B.AfterRequest(p.breaker, admitted.breaker, verdict.generation, true,
                                                    p.clock(w.readings + 1))
  {
    var reply := BreakerLayer(p)(Operation(p))(w).1;
    assert Retry.Stops(p.retry, Retry.Outcome((), reply), attempt);
  }

  lemma LastAttemptIsARun(p: Parts, w: World, t: Traffic) returns (steps: seq<Step>)
    requires p.Usable() && !Retry.Retryable(p.retry, CIRCUIT_OPEN_ERROR)
    requires MayGoOn(p, w, t) && p.clock(w.readings) <= p.clock(w.readings + 1)
    requires t.slots[0].attempts + w.failuresLeft < p.retry.maxAttempts
    requires !(Admit(p, w).1.Admitted? && w.failuresLeft > 0)
    ensures PlaysTheRest(p, w, t, steps)
  {
    RetryEnds(p, w, t.slots[0].attempts + 1);
    var begin := BeginIsAdmission(p, w, t);
    steps := [] + [begin];
    if Admit(p, w).1.Admitted? {
      var finish := Finish(0, true, p.clock(w.readings + 1), 0.0);
      RunSnoc(p, t, steps, finish);
      steps := steps + [finish];
    }
  }

  lemma FailureThenRest(p: Parts, w: World, t: Traffic, next: World, first: seq<Step>, rest: seq<Step>)
    requires p.Usable() && MayGoOn(p, w, t) && MayGoOn(p, next, Run(p, t, first))
    requires Run(p, t, first).slots[0].attempts == t.slots[0].attempts + 1 < p.retry.maxAttempts
    requires Rest(p, w, t.slots[0].attempts + 1) == Rest(p, next, t.slots[0].attempts + 2)
    requires PlaysTheRest(p, next, Run(p, t, first), rest)
    ensures PlaysTheRest(p, w, t, first + rest)
  {
    RunConcat(p, t, first, rest);
  }

  lemma {:induction false} OutsideCallIsARun(p: Parts, w: World, t: Traffic) returns (steps: seq<Step>)
    requires p.Usable() && !Retry.Retryable(p.retry, CIRCUIT_OPEN_ERROR)
    requires MayGoOn(p, w, t) && t.slots[0].attempts + w.failuresLeft < p.retry.maxAttempts
    requires Patient(p, w.readings, t.slots[0].attempts)
    ensures PlaysTheRest(p, w, t, steps)
    decreases w.failuresLeft
  {
    PatientNext(p, w.readings, t.slots[0].attempts);
    if Admit(p, w).1.Admitted? && w.failuresLeft > 0 {
      var first, next := FailedAttemptIsTwoSteps(p, w, t);
      var u := Run(p, t, first);
      assert u.slots[0].attempts + next.failuresLeft < p.retry.maxAttempts;
      assert Patient(p, next.readings, u.slots[0].attempts);
      var rest := OutsideCallIsARun(p, next, u);
      FailureThenRest(p, w, t, next, first, rest);
      steps := first + rest;
    } else {
      steps := LastAttemptIsARun(p, w, t);
    }
  }

  /** A call through the chain with retry outside is a run of the outside steps in one place: for
      a retry that leaves an open circuit alone, as the default does. */
  lemma ChainCallIsARun(p: Parts, w: World) returns (steps: seq<Step>)
    requires p.Usable() && !Retry.Retryable(p.retry, CIRCUIT_OPEN_ERROR)
    requires w.failuresLeft < p.retry.maxAttempts && Patient(p, w.readings, 0)
    ensures var u := Run(p, Traffic(w.breaker, p.clock(w.readings), [Free], [0]), steps);
            u.breaker == OutsideChain(p)(w).0.breaker && u.slots == [Free]
  {
    ChainsUnfold(p);
    var t := Traffic(w.breaker, p.clock(w.readings), [Free], [0]);
    var entered := Apply(p, t, Enter(0));
    RunSnoc(p, t, [], Enter(0));
    var rest := OutsideCallIsARun(p, w, entered);
    RunConcat(p, t, [] + [Enter(0)], rest);
    steps := [] + [Enter(0)] + rest;
  }

  /** Failed attempts inside the breaker are steps that leave it alone. */
  lemma {:induction false} FailuresInside(p: Parts, t: Traffic, steps: seq<Step>, k: nat, now: int)
    returns (more: seq<Step>)
    requires p.Usable()
    requires var u := RunInside(p, t, steps);
             |u.slots| == 1 && u.slots[0].Trying? && u.slots[0].attempts + k < p.retry.maxAttempts
    ensures var u := RunInside(p, t, steps);
            RunInside(p, t, more) == u.(slots := [Trying(u.slots[0].attempts + k, u.slots[0].generation)])
    decreases k
  {
    more := steps;
    var u := RunInside(p, t, steps);
    if k == 0 {
      assert u.slots == [u.slots[0]];
    } else {
      RunSnoc(p, t, steps, Finish(0, false, now, 0.0));
      more := FailuresInside(p, t, steps + [Finish(0, false, now, 0.0)], k - 1, now);
    }
  }

  /** A call through the chain with retry inside is a run of the inside steps in one place. */
  lemma InsideCallIsARun(p: Parts, w: World) returns (steps: seq<Step>)
    requires p.Usable() && w.failuresLeft < p.retry.maxAttempts
    ensures var u := RunInside(p, Traffic(w.breaker, p.clock(w.readings), [Free], [0]), steps);
            u.breaker == InsideChain(p)(w).0.breaker && u.slots == [Free]
  {
    InsideTellsOneSuccess(p, w);
    var t := Traffic(w.breaker, p.clock(w.readings), [Free], [0]);
    var begin := Begin(0, p.clock(w.readings), 0.0);
    RunSnoc(p, t, [], Enter(0));
    RunSnoc(p, t, [] + [Enter(0)], begin);
    steps := [] + [Enter(0)] + [begin];
    if Admit(p, w).1.Admitted? {
      steps := FailuresInside(p, t, steps, w.failuresLeft, 0);
      var finish := Finish(0, true, p.clock(w.readings + 1), 0.0);
      RunSnoc(p, t, steps, finish);
      steps := steps + [finish];
    }
  }

  // ----- How many failures of one call an Interval can hold -----

  /** The shortest time from failure a of a call to its failure b. */
  function Spread(p: Parts, a: nat, b: nat): int
    requires a >= 1
  {
    if b <= a then 0 else Spread(p, a, b - 1) + Shortest(p, b - 1)
  }

  lemma {:induction false} SpreadGrows(p: Parts, a: nat, b: nat, c: nat)
    requires 1 <= a <= b <= c
    ensures 0 <= Spread(p, a, b) <= Spread(p, a, c)
  {
    if b < c {
      SpreadGrows(p, a, b, c - 1);
      DelayBounds(p, c - 1, 0.0);
    } else if a < b {
      SpreadGrows(p, a, b - 1, b - 1);
      DelayBounds(p, b - 1, 0.0);
    }
  }

  /** k failures in a row of one call, from its a-th on, fit between two clearings of the counters. */
  predicate FitsFrom(p: Parts, k: nat, a: nat) {
    && k >= 1 && a >= 1 && a + k - 1 <= p.retry.maxAttempts - 1
    && (p.breaker.interval == 0 || Spread(p, a, a + k - 1) <= p.breaker.interval)
  }

  ghost predicate Fits(p: Parts, k: nat) {
    exists a: nat :: FitsFrom(p, k, a)
  }

  ghost function LargestFit(p: Parts, k: nat): (b: nat)
    ensures b <= k && (b > 0 ==> Fits(p, b))
    ensures forall j: nat :: b < j <= k ==> !Fits(p, j)
  {
    if k == 0 then 0 else if Fits(p, k) then k else LargestFit(p, k - 1)
  }

  /** The most failures of one recovered call that the counters can hold at once. */
  ghost function Burst(p: Parts): nat
    requires p.Usable()
  {
    LargestFit(p, p.retry.maxAttempts - 1)
  }

  /** Without an Interval, or with one that holds all the waits of a call, it is MaxAttempts - 1. */
  lemma WholeCallFits(p: Parts)
    requires p.Usable()
    requires p.breaker.interval == 0 || Spread(p, 1, p.retry.maxAttempts - 1) <= p.breaker.interval
    ensures Burst(p) == p.retry.maxAttempts - 1
  {
    if p.retry.maxAttempts > 1 {
      assert FitsFrom(p, p.retry.maxAttempts - 1, 1);
    }
  }

  // ----- Failures counted -----

  function Total(recent: seq<nat>): nat {
    if recent == [] then 0 else Total(recent[..|recent| - 1]) + recent[|recent| - 1]
  }

  lemma {:induction false} TotalMoves(recent: seq<nat>, i: nat, k: nat)
    requires i < |recent|
    ensures Total(recent[i := k]) == Total(recent) - recent[i] + k
  {
    var last := |recent| - 1;
    if i == last {
      assert recent[i := k][..last] == recent[..last];
    } else {
      TotalMoves(recent[..last], i, k);
      assert recent[i := k][..last] == recent[..last][i := k];
    }
  }

  lemma {:induction false} TotalIsBounded(recent: seq<nat>, most: nat)
    requires forall i :: 0 <= i < |recent| ==> recent[i] <= most
    ensures Total(recent) <= |recent| * most
  {
    if recent != [] {
      TotalIsBounded(recent[..|recent| - 1], most);
      assert |recent| * most == (|recent| - 1) * most + most;
    }
  }

  lemma {:induction false} TotalOfZeros(m: nat)
    ensures Total(Zeros(m)) == 0
  {
    if m > 0 {
      TotalOfZeros(m - 1);
      assert Zeros(m)[..m - 1] == Zeros(m - 1);
    }
  }

  // ----- Safe below the threshold -----

  /** When the counters were last cleared. */
  function Since(p: Parts, t: Traffic): int {
    t.breaker.expiry - p.breaker.interval
  }

  /** The counted failures of one call: its last ones, as far apart as its backoff makes them. */
  predicate SlotCalm(p: Parts, since: int, now: int, generation: int, s: Slot, recent: nat) {
    match s
    case Free => recent == 0
    case Waiting(attempts, due) =>
      && recent <= attempts <= p.retry.maxAttempts - 1
      && (p.breaker.interval > 0 && recent > 0 ==> due >= since + Spread(p, attempts - recent + 1, attempts + 1))
    case Trying(attempts, g) =>
      && recent <= attempts <= p.retry.maxAttempts - 1
      && (p.breaker.interval > 0 && recent > 0 ==> now >= since + Spread(p, attempts - recent + 1, attempts + 1))
      && g == generation
  }

  ghost predicate SlotsCalm(p: Parts, t: Traffic)
    requires p.Usable()
  {
    && |t.recent| == |t.slots|
    && (forall i :: 0 <= i < |t.slots| ==>
          t.recent[i] <= Burst(p) && SlotCalm(p, Since(p, t), t.now, t.breaker.generation, t.slots[i], t.recent[i]))
  }

  /** The streak is made of recent failures of calls still in progress. */
  ghost predicate Calm(p: Parts, t: Traffic)
    requires p.Usable()
  {
    && StreakWithin(t.breaker, Total(t.recent))
    && SlotsCalm(p, t)
    && (p.breaker.interval > 0 ==> Since(p, t) <= t.now)
  }

  /** What an access at that time leaves of the counters and the deadline of a Closed breaker. */
  predicate Touched(p: Parts, b: B.Breaker, now: int, after: B.Breaker) {
    after.generation == b.generation && after.expiry == if Clears(p, b, now) then now + p.breaker.interval else b.expiry
  }

  lemma AdmitTouches(p: Parts, b: B.Breaker, now: int, run: nat)
    requires p.Usable() && StreakWithin(b, run)
    ensures var (after, verdict) := B.BeforeRequest(p.breaker, b, now);
            && verdict == B.Admitted(b.generation)
            && StreakWithin(after, if Clears(p, b, now) then 0 else run)
            && Touched(p, b, now, after)
  {
  }

  lemma OutcomeTouches(p: Parts, n: int, b: B.Breaker, success: bool, now: int, run: nat)
    requires Consecutive(p, n) && StreakWithin(b, run)
    requires success || (if Clears(p, b, now) then 0 else run) + 1 < ClampToUint32(n)
    ensures var after := B.AfterRequest(p.breaker, b, b.generation, success, now);
            && StreakWithin(after, if success then 0 else (if Clears(p, b, now) then 0 else run) + 1)
            && Touched(p, b, now, after)
  {
    var c := B.CurrentState(p.breaker, b, now);
    assert !success ==> !p.breaker.readyToTrip(AfterFailure(c.counts));
  }

  /** The calls an access is not about stay calm, cleared or not. */
  lemma OthersStayCalm(p: Parts, t: Traffic, u: Traffic, i: nat)
    requires p.Usable() && SlotsCalm(p, t) && i < |t.slots| && t.breaker.state.Closed?
    requires t.now <= u.now && Touched(p, t.breaker, u.now, u.breaker)
    requires |u.slots| == |u.recent| == |t.slots|
    requires u.slots == t.slots[i := u.slots[i]] && u.recent == Recent(p, t, u.now)[i := u.recent[i]]
    requires u.recent[i] <= Burst(p)
    requires SlotCalm(p, Since(p, u), u.now, u.breaker.generation, u.slots[i], u.recent[i])
    ensures SlotsCalm(p, u)
  {
    forall j | 0 <= j < |u.slots|
      ensures u.recent[j] <= Burst(p)
      ensures SlotCalm(p, Since(p, u), u.now, u.breaker.generation, u.slots[j], u.recent[j])
    {
      if j != i {
        assert SlotCalm(p, Since(p, t), t.now, t.breaker.generation, t.slots[j], t.recent[j]);
      }
    }
  }

  lemma TotalOfRecent(p: Parts, t: Traffic, now: int)
    ensures Total(Recent(p, t, now)) == if Clears(p, t.breaker, now) then 0 else Total(t.recent)
  {
    TotalOfZeros(|t.recent|);
  }

  lemma BeginKeepsCalm(p: Parts, t: Traffic, i: nat, now: int, random: real)
    requires p.Usable() && Calm(p, t) && i < |t.slots| && t.slots[i].Waiting?
    requires t.now <= now && t.slots[i].due <= now
    ensures Calm(p, BeginStep(p, t, i, now, random))
  {
    var u := BeginStep(p, t, i, now, random);
    AdmitTouches(p, t.breaker, now, Total(t.recent));
    TotalOfRecent(p, t, now);
    assert SlotCalm(p, Since(p, t), t.now, t.breaker.generation, t.slots[i], t.recent[i]);
    assert u.recent == Recent(p, t, now)[i := u.recent[i]];
    OthersStayCalm(p, t, u, i);
  }

  /** A failure counted beside earlier ones of the same call: together they still fit. */
  lemma OneMoreFits(p: Parts, since: int, now: int, attempts: nat, recent: nat)
    requires p.Usable() && recent <= attempts && attempts + 1 <= p.retry.maxAttempts - 1
    requires recent > 0 && p.breaker.interval > 0 ==>
               since + Spread(p, attempts - recent + 1, attempts + 1) <= now <= since + p.breaker.interval
    ensures recent + 1 <= Burst(p)
  {
    assert FitsFrom(p, recent + 1, attempts - recent + 1);
    assert Fits(p, recent + 1);
  }

  /** The call that failed once more. */
  lemma FailureStaysCalm(p: Parts, t: Traffic, i: nat, now: int, random: real)
    requires p.Usable() && Calm(p, t) && i < |t.slots| && t.slots[i].Trying?
    requires t.now <= now && 0.0 <= random < 1.0 && t.slots[i].attempts + 1 < p.retry.maxAttempts
    ensures var u := FinishStep(p, t, i, false, now, random);
            var since := if Clears(p, t.breaker, now) then now else Since(p, t);
            u.recent[i] <= Burst(p) && SlotCalm(p, since, now, t.breaker.generation, u.slots[i], u.recent[i])
  {
    var attempts := t.slots[i].attempts;
    var recent := Recent(p, t, now)[i];
    assert SlotCalm(p, Since(p, t), t.now, t.breaker.generation, t.slots[i], t.recent[i]);
    DelayBounds(p, attempts + 1, random);
    OneMoreFits(p, Since(p, t), now, attempts, recent);
    assert Spread(p, attempts - recent + 1, attempts + 2)
        == Spread(p, attempts - recent + 1, attempts + 1) + Shortest(p, attempts + 1);
  }

  lemma FinishKeepsCalm(p: Parts, n: int, t: Traffic, i: nat, success: bool, now: int, random: real)
    requires Consecutive(p, n) && Calm(p, t) && i < |t.slots| && t.slots[i].Trying?
    requires |t.slots| * Burst(p) < ClampToUint32(n)
    requires t.now <= now && 0.0 <= random < 1.0 && (success || t.slots[i].attempts + 1 < p.retry.maxAttempts)
    ensures Calm(p, FinishStep(p, t, i, success, now, random))
  {
    var u := FinishStep(p, t, i, success, now, random);
    assert SlotCalm(p, Since(p, t), t.now, t.breaker.generation, t.slots[i], t.recent[i]);
    TotalOfRecent(p, t, now);
    TotalMoves(Recent(p, t, now), i, u.recent[i]);
    if !success {
      FailureStaysCalm(p, t, i, now, random);
      RecentIsBounded(p, t, now);
      TotalIsBounded(u.recent, Burst(p));
    }
    OutcomeTouches(p, n, t.breaker, success, now, Total(t.recent));
    OthersStayCalm(p, t, u, i);
  }

  lemma RecentIsBounded(p: Parts, t: Traffic, now: int)
    requires p.Usable() && SlotsCalm(p, t)
    ensures forall j :: 0 <= j < |t.recent| ==> Recent(p, t, now)[j] <= Burst(p)
  {
  }

  lemma EnterKeepsCalm(p: Parts, t: Traffic, i: nat)
    requires p.Usable() && Calm(p, t) && i < |t.slots| && t.slots[i].Free?
    ensures Calm(p, t.(slots := t.slots[i := Waiting(0, t.now)], recent := t.recent[i := 0]))
  {
    assert SlotCalm(p, Since(p, t), t.now, t.breaker.generation, t.slots[i], t.recent[i]);
    TotalMoves(t.recent, i, 0);
  }

  lemma ApplyKeepsCalm(p: Parts, n: int, t: Traffic, s: Step)
    requires Consecutive(p, n) && Calm(p, t)
    requires |t.slots| * Burst(p) < ClampToUint32(n)
    ensures Calm(p, Apply(p, t, s)) && |Apply(p, t, s).slots| == |t.slots|
  {
    if s.i < |t.slots| && Timely(t, s) {
      match (s, t.slots[s.i])
      case (Enter(i), Free) => EnterKeepsCalm(p, t, i);
      case (Begin(i, now, random), Waiting(_, due)) =>
        if now >= due {
          BeginKeepsCalm(p, t, i, now, random);
        }
      case (Finish(i, success, now, random), Trying(attempts, _)) =>
        if success || attempts + 1 < p.retry.maxAttempts {
          FinishKeepsCalm(p, n, t, i, success, now, random);
        }
      case _ =>
    }
  }

  lemma {:induction false} RunStaysCalm(p: Parts, n: int, m: nat, start: int, steps: seq<Step>)
    requires Consecutive(p, n) && m * Burst(p) < ClampToUint32(n)
    ensures Calm(p, Run(p, Idle(p, m, start), steps)) && |Run(p, Idle(p, m, start), steps).slots| == m
  {
    if steps == [] {
      TotalOfZeros(m);
    } else {
      RunStaysCalm(p, n, m, start, steps[..|steps| - 1]);
      ApplyKeepsCalm(p, n, Run(p, Idle(p, m, start), steps[..|steps| - 1]), steps[|steps| - 1]);
    }
  }

  // ----- Open from the threshold on -----

  ghost predicate Reachable(p: Parts, m: nat, start: int, t: Traffic)
    requires p.Usable()
  {
    exists steps :: Run(p, Idle(p, m, start), steps) == t
  }

  lemma ReachStep(p: Parts, m: nat, start: int, t: Traffic, s: Step)
    requires p.Usable() && Reachable(p, m, start, t)
    ensures Reachable(p, m, start, Apply(p, t, s))
  {
    var steps :| Run(p, Idle(p, m, start), steps) == t;
    RunSnoc(p, Idle(p, m, start), steps, s);
    assert Run(p, Idle(p, m, start), steps + [s]) == Apply(p, t, s);
  }

  /** Still Closed, with no attempt under way. */
  predicate Resting(p: Parts, n: int, m: nat, t: Traffic) {
    && t.breaker.state.Closed? && t.breaker.counts.consecutiveFailures < ClampToUint32(n)
    && |t.slots| == |t.recent| == m
  }

  /** One more failure of a waiting call: it opens the circuit or is counted. */
  lemma FailOnce(p: Parts, n: int, m: nat, start: int, t: Traffic, i: nat, now: int) returns (u: Traffic)
    requires Consecutive(p, n) && Reachable(p, m, start, t) && Resting(p, n, m, t)
    requires i < m && t.slots[i].Waiting? && t.slots[i].attempts + 1 < p.retry.maxAttempts
    requires t.now <= now && t.slots[i].due <= now
    ensures Reachable(p, m, start, u)
    ensures u.breaker.state.Closed? ==>
              && Resting(p, n, m, u) && u.now == now
              && u.slots == t.slots[i := Waiting(t.slots[i].attempts + 1, now + Shortest(p, t.slots[i].attempts + 1))]
              && Touched(p, t.breaker, now, u.breaker)
              && u.breaker.counts.consecutiveFailures
                 == (if Clears(p, t.breaker, now) then 0 else t.breaker.counts.consecutiveFailures) + 1
  {
    var begun := Apply(p, t, Begin(i, now, 0.0));
    ReachStep(p, m, start, t, Begin(i, now, 0.0));
    AdmitTouches(p, t.breaker, now, t.breaker.counts.consecutiveFailures);
    u := Apply(p, begun, Finish(i, false, now, 0.0));
    ReachStep(p, m, start, begun, Finish(i, false, now, 0.0));
    DelayBounds(p, t.slots[i].attempts + 1, 0.0);
    assert !Clears(p, begun.breaker, now);
    assert p.breaker.readyToTrip(AfterFailure(begun.breaker.counts))
      <==> begun.breaker.counts.consecutiveFailures + 1 >= ClampToUint32(n);
    assert u.slots[i] == Waiting(t.slots[i].attempts + 1, now + Shortest(p, t.slots[i].attempts + 1));
  }

  /** Every place below i holds a call that has failed that often. */
  predicate FailedBelow(t: Traffic, i: nat, attempts: nat) {
    i <= |t.slots| && forall j :: 0 <= j < i ==> t.slots[j].Waiting? && t.slots[j].attempts == attempts
  }

  /** One call enters and fails so often, unless the circuit opens over it. */
  lemma WarmUpOne(p: Parts, n: int, m: nat, start: int, t: Traffic, i: nat, attempts: nat) returns (u: Traffic)
    requires Consecutive(p, n) && Reachable(p, m, start, t) && Resting(p, n, m, t)
    requires i < m && attempts < p.retry.maxAttempts
    requires FailedBelow(t, i, attempts) && forall j :: i <= j < m ==> t.slots[j].Free?
    ensures Reachable(p, m, start, u)
    ensures u.breaker.state.Closed? ==>
              && Resting(p, n, m, u) && FailedBelow(u, i + 1, attempts)
              && forall j :: i + 1 <= j < m ==> u.slots[j].Free?
  {
    u := Apply(p, t, Enter(i));
    ReachStep(p, m, start, t, Enter(i));
    for k := 0 to attempts
      invariant Reachable(p, m, start, u)
      invariant u.breaker.state.Closed? ==>
                  && Resting(p, n, m, u) && FailedBelow(u, i, attempts)
                  && u.slots[i].Waiting? && u.slots[i].attempts == k
                  && forall j :: i + 1 <= j < m ==> u.slots[j].Free?
    {
      if u.breaker.state.Closed? {
        u := FailOnce(p, n, m, start, u, i, Max(u.now, u.slots[i].due));
      }
    }
  }

  lemma WarmUp(p: Parts, n: int, m: nat, start: int, attempts: nat) returns (u: Traffic)
    requires Consecutive(p, n) && attempts < p.retry.maxAttempts
    ensures Reachable(p, m, start, u)
    ensures u.breaker.state.Closed? ==> Resting(p, n, m, u) && FailedBelow(u, m, attempts)
  {
    u := Idle(p, m, start);
    assert Run(p, u, []) == u;
    for i := 0 to m
      invariant Reachable(p, m, start, u)
      invariant u.breaker.state.Closed? ==>
                  && Resting(p, n, m, u) && FailedBelow(u, i, attempts)
                  && forall j :: i <= j < m ==> u.slots[j].Free?
    {
      if u.breaker.state.Closed? {
        u := WarmUpOne(p, n, m, start, u, i, attempts);
      }
    }
  }

  /** A time at which every call may go on and the counters are about to be cleared. */
  lemma GoTime(t: Traffic) returns (c: int)
    ensures c > t.now && c > t.breaker.expiry
    ensures forall j :: 0 <= j < |t.slots| && t.slots[j].Waiting? ==> t.slots[j].due <= c
  {
    c := Max(t.now, t.breaker.expiry) + 1;
    for i := 0 to |t.slots|
      invariant c > t.now && c > t.breaker.expiry
      invariant forall j :: 0 <= j < i && t.slots[j].Waiting? ==> t.slots[j].due <= c
    {
      if t.slots[i].Waiting? {
        c := Max(c, t.slots[i].due);
      }
    }
  }

  /** r failures into the burst that begins at c with failure a of every call: the calls below i
      have already failed in this round, the j-th. */
  ghost predicate Bursting(p: Parts, n: int, m: nat, t: Traffic, c: int, a: nat, j: nat, i: nat)
    requires p.Usable() && a >= 1
  {
    && Resting(p, n, m, t) && i <= m
    && t.now <= c + Spread(p, a, a + j)
    && t.breaker.counts.consecutiveFailures >= j * m + i
    && (p.breaker.interval > 0 ==>
          if j == 0 && i == 0 then t.breaker.expiry < c else t.breaker.expiry == c + p.breaker.interval)
    && forall x :: 0 <= x < m ==>
         && t.slots[x].Waiting?
         && t.slots[x].attempts == a - 1 + j + (if x < i then 1 else 0)
         && t.slots[x].due <= c + Spread(p, a, a + j + (if x < i then 1 else 0))
  }

  /** The burst stays within its Interval, so only its first failure meets counters to clear. */
  lemma BurstFits(p: Parts, n: int, m: nat, t: Traffic, c: int, a: nat, k: nat, j: nat, i: nat)
    requires p.Usable() && FitsFrom(p, k, a) && j < k && i < m && Bursting(p, n, m, t, c, a, j, i)
    ensures var now := c + Spread(p, a, a + j);
            && c <= now
            && (Clears(p, t.breaker, now) <==> p.breaker.interval > 0 && j == 0 && i == 0)
            && Spread(p, a, a + j + 1) == Spread(p, a, a + j) + Shortest(p, a + j)
            && t.slots[i].Waiting? && t.slots[i].attempts + 1 < p.retry.maxAttempts && t.slots[i].due <= now
  {
    SpreadGrows(p, a, a + j, a + j + 1);
    SpreadGrows(p, a, a + j, a + k - 1);
  }

  lemma CountedBeyond(m: nat, j: nat, i: nat, before: nat, after: nat, cleared: bool)
    requires before >= j * m + i && (cleared ==> j == 0 && i == 0)
    requires after == (if cleared then 0 else before) + 1
    ensures after >= j * m + (i + 1)
  {
    assert j == 0 ==> j * m == 0;
  }

  lemma BurstStep(p: Parts, n: int, m: nat, start: int, t: Traffic, c: int, a: nat, k: nat, j: nat, i: nat)
    returns (u: Traffic)
    requires Consecutive(p, n) && Reachable(p, m, start, t) && FitsFrom(p, k, a) && j < k && i < m
    requires Bursting(p, n, m, t, c, a, j, i)
    ensures Reachable(p, m, start, u)
    ensures u.breaker.state.Closed? ==> Bursting(p, n, m, u, c, a, j, i + 1)
  {
    BurstFits(p, n, m, t, c, a, k, j, i);
    var now := c + Spread(p, a, a + j);
    u := FailOnce(p, n, m, start, t, i, now);
    if u.breaker.state.Closed? {
      CountedBeyond(m, j, i, t.breaker.counts.consecutiveFailures, u.breaker.counts.consecutiveFailures,
                    Clears(p, t.breaker, now));
      BurstGoesOn(p, n, m, t, u, c, a, j, i);
    }
  }

  lemma BurstGoesOn(p: Parts, n: int, m: nat, t: Traffic, u: Traffic, c: int, a: nat, j: nat, i: nat)
    requires p.Usable() && a >= 1 && i < m && Bursting(p, n, m, t, c, a, j, i) && Resting(p, n, m, u)
    requires var now := c + Spread(p, a, a + j);
             && u.now == now && c <= now
             && (Clears(p, t.breaker, now) <==> p.breaker.interval > 0 && j == 0 && i == 0)
             && Touched(p, t.breaker, now, u.breaker)
             && u.slots == t.slots[i := Waiting(t.slots[i].attempts + 1, now + Shortest(p, t.slots[i].attempts + 1))]
    requires Spread(p, a, a + j + 1) == Spread(p, a, a + j) + Shortest(p, a + j)
    requires u.breaker.counts.consecutiveFailures >= j * m + (i + 1)
    ensures Bursting(p, n, m, u, c, a, j, i + 1)
  {
    assert t.slots[i].attempts == a - 1 + j;
    assert j == 0 && i == 0 ==> Spread(p, a, a + j) == 0;
    forall x | 0 <= x < m
      ensures u.slots[x].Waiting?
      ensures u.slots[x].attempts == a - 1 + j + (if x < i + 1 then 1 else 0)
      ensures u.slots[x].due <= c + Spread(p, a, a + j + (if x < i + 1 then 1 else 0))
    {
      assert t.slots[x].Waiting?;
    }
  }

  lemma NextRound(p: Parts, n: int, m: nat, t: Traffic, c: int, a: nat, j: nat)
    requires Consecutive(p, n) && a >= 1 && m >= 1 && Bursting(p, n, m, t, c, a, j, m)
    ensures Bursting(p, n, m, t, c, a, j + 1, 0)
  {
    SpreadGrows(p, a, a + j, a + j + 1);
    assert (j + 1) * m + 0 == j * m + m;
  }

  /** One round of the burst: every call fails once more, unless the circuit opens over it. */
  lemma BurstRound(p: Parts, n: int, m: nat, start: int, t: Traffic, c: int, a: nat, k: nat, j: nat)
    returns (u: Traffic)
    requires Consecutive(p, n) && Reachable(p, m, start, t) && FitsFrom(p, k, a) && j < k && m >= 1
    requires Bursting(p, n, m, t, c, a, j, 0)
    ensures Reachable(p, m, start, u)
    ensures u.breaker.state.Closed? ==> Bursting(p, n, m, u, c, a, j + 1, 0)
  {
    u := t;
    for i := 0 to m
      invariant Reachable(p, m, start, u)
      invariant u.breaker.state.Closed? ==> Bursting(p, n, m, u, c, a, j, i)
    {
      if u.breaker.state.Closed? {
        u := BurstStep(p, n, m, start, u, c, a, k, j, i);
      }
    }
    if u.breaker.state.Closed? {
      NextRound(p, n, m, u, c, a, j);
    }
  }

  lemma BurstBegins(p: Parts, n: int, m: nat, t: Traffic, a: nat) returns (c: int)
    requires Consecutive(p, n) && a >= 1 && Resting(p, n, m, t) && FailedBelow(t, m, a - 1)
    ensures Bursting(p, n, m, t, c, a, 0, 0)
  {
    c := GoTime(t);
  }

  /** All m calls fail k times in a row within one Interval: with k times m at the threshold the
      circuit is open by then. */
  lemma BurstOpens(p: Parts, n: int, m: nat, start: int, k: nat) returns (t: Traffic)
    requires Consecutive(p, n) && Fits(p, k) && m >= 1 && m * k >= ClampToUint32(n)
    ensures Reachable(p, m, start, t) && !t.breaker.state.Closed?
  {
    var a: nat :| FitsFrom(p, k, a);
    t := WarmUp(p, n, m, start, a - 1);
    if t.breaker.state.Closed? {
      var c := BurstBegins(p, n, m, t, a);
      for j := 0 to k
        invariant Reachable(p, m, start, t)
        invariant t.breaker.state.Closed? ==> Bursting(p, n, m, t, c, a, j, 0)
      {
        if t.breaker.state.Closed? {
          t := BurstRound(p, n, m, start, t, c, a, k, j);
        }
      }
      assert k * m == m * k;
    }
  }

  // ----- The exact condition -----

  /** No interleaving of recovered calls, at most m of them at a time and each waiting out its
      backoff, ever takes a fresh breaker out of Closed. */
  ghost predicate NeverOpens(p: Parts, m: nat, start: int)
    requires p.Usable()
  {
    forall steps :: Run(p, Idle(p, m, start), steps).breaker.state.Closed?
  }

  /** Retry outside the breaker is harmless to recovered calls, at most m of them overlapping,
      exactly when m times the most failures of one call that fit into one Interval stay below the
      threshold: a call that finishes ends the streak itself, so the streak is only ever made of
      calls still in progress. */
  lemma RetryOutsideIsSafeExactly(p: Parts, n: int, m: nat, start: int)
    requires Consecutive(p, n)
    ensures NeverOpens(p, m, start) <==> m * Burst(p) < ClampToUint32(n)
  {
    if m * Burst(p) < ClampToUint32(n) {
      forall steps
        ensures Run(p, Idle(p, m, start), steps).breaker.state.Closed?
      {
        RunStaysCalm(p, n, m, start, steps);
      }
    } else {
      assert Burst(p) > 0 && m > 0;
      var t := BurstOpens(p, n, m, start, Burst(p));
      var steps :| Run(p, Idle(p, m, start), steps) == t;
      assert !Run(p, Idle(p, m, start), steps).breaker.state.Closed?;
    }
  }

  /** Whatever the Interval, m times MaxAttempts - 1 below the threshold is enough. */
  lemma SafeWhateverTheInterval(p: Parts, n: int, m: nat, start: int)
    requires Consecutive(p, n) && m * (p.retry.maxAttempts - 1) < ClampToUint32(n)
    ensures NeverOpens(p, m, start)
  {
    RetryOutsideIsSafeExactly(p, n, m, start);
    assert m * Burst(p) <= m * (p.retry.maxAttempts - 1) by {
      assert m * (p.retry.maxAttempts - 1 - Burst(p)) >= 0;
    }
  }

  /** One call at a time, with counters that are not cleared between its attempts: safe exactly
      when the threshold is at least MaxAttempts. */
  lemma OneCallAtATime(p: Parts, n: int, start: int)
    requires Consecutive(p, n)
    ensures NeverOpens(p, 1, start) <==> Burst(p) < ClampToUint32(n)
    ensures p.breaker.interval == 0 || Spread(p, 1, p.retry.maxAttempts - 1) <= p.breaker.interval ==>
              (NeverOpens(p, 1, start) <==> p.retry.maxAttempts <= ClampToUint32(n))
  {
    RetryOutsideIsSafeExactly(p, n, 1, start);
    if p.breaker.interval == 0 || Spread(p, 1, p.retry.maxAttempts - 1) <= p.breaker.interval {
      WholeCallFits(p);
    }
  }

  /** The documented example does not happen: with a threshold of 5 and 3 attempts two recovered
      blips leave the circuit Closed even when they overlap, and so do any number of them two at
      a time. Three at once open it exactly when an Interval can hold the wait between two failures. */
  lemma TwoBlipsDoNotOpen(p: Parts, start: int)
    requires Consecutive(p, 5) && p.retry.maxAttempts == 3
    ensures NeverOpens(p, 1, start) && NeverOpens(p, 2, start)
    ensures !NeverOpens(p, 3, start) <==> p.breaker.interval == 0 || Shortest(p, 1) <= p.breaker.interval
  {
    SafeWhateverTheInterval(p, 5, 1, start);
    SafeWhateverTheInterval(p, 5, 2, start);
    RetryOutsideIsSafeExactly(p, 5, 3, start);
    assert Spread(p, 1, 2) == Spread(p, 1, 1) + Shortest(p, 1) == Shortest(p, 1);
    if p.breaker.interval == 0 || Shortest(p, 1) <= p.breaker.interval {
      assert FitsFrom(p, 2, 1);
      assert Fits(p, 2);
    } else {
      forall a: nat
        ensures !FitsFrom(p, 2, a)
      {
      }
      assert !Fits(p, 2);
    }
  }

  // ----- One call is enough when it may fail as often as the threshold -----

  /** The readings of the clock stay within one Interval, and one Timeout, of start. */
  ghost predicate ClockRuns(p: Parts, start: int) {
    forall i: nat ::
      && start <= p.clock(i) <= start + p.breaker.timeout
      && (p.breaker.interval > 0 ==> p.clock(i) <= start + p.breaker.interval)
  }

  /** Attempts of an Open circuit change nothing, however many retry makes. */
  lemma {:induction false} OpenTellsNothing(p: Parts, w: World, attempt: nat, start: int)
    requires p.Usable() && ClockRuns(p, start) && 1 <= attempt <= p.retry.maxAttempts
    requires w.breaker.state.Open? && w.breaker.expiry >= start + p.breaker.timeout
    ensures var after := RetryFrom(p.retry, BreakerLayer(p)(Operation(p)), w, attempt).0;
            after.breaker == w.breaker && after.told == w.told
    decreases p.retry.maxAttempts - attempt
  {
    var (after, err) := BreakerLayer(p)(Operation(p))(w);
    assert p.clock(w.readings) <= start + p.breaker.timeout;
    assert Admit(p, w).1.Rejected?;
    assert after == Admit(p, w).0;
    if !Retry.Stops(p.retry, Retry.Outcome((), err), attempt) {
      OpenTellsNothing(p, after, attempt + 1, start);
    }
  }

  lemma FailureIsCounted(p: Parts, n: int, w: World, start: int)
    requires Consecutive(p, n) && ClockRuns(p, start) && w.failuresLeft > 0
    requires w.breaker.state.Closed? && w.breaker.expiry >= start + p.breaker.interval
    requires w.breaker.counts.consecutiveFailures < ClampToUint32(n)
    ensures var (after, err) := BreakerLayer(p)(Operation(p))(w);
            && after.told == w.told + [false] && err == Some(p.failure)
            && after.failuresLeft == w.failuresLeft - 1
            && if w.breaker.counts.consecutiveFailures + 1 < ClampToUint32(n)
               then after.breaker == w.breaker.(counts := after.breaker.counts, era := after.breaker.era)
                    && after.breaker.counts.consecutiveFailures == w.breaker.counts.consecutiveFailures + 1
               else after.breaker.state.Open? && after.breaker.expiry >= start + p.breaker.timeout
  {
    var first, second := p.clock(w.readings), p.clock(w.readings + 1);
    assert !Clears(p, w.breaker, first) && !Clears(p, w.breaker, second);
    AdmitKeepsStreak(p, w.breaker, first, w.breaker.counts.consecutiveFailures);
    var b, generation := Admit(p, w).0.breaker, Admit(p, w).1.generation;
    assert b == w.breaker.(counts := b.counts, era := b.era) && generation == b.generation;
    assert b.counts.consecutiveFailures == w.breaker.counts.consecutiveFailures;
    assert p.breaker.readyToTrip(AfterFailure(b.counts))
      <==> b.counts.consecutiveFailures + 1 >= ClampToUint32(n);
    assert BreakerLayer(p)(Operation(p))(w).0.breaker == B.AfterRequest(p.breaker, b, generation, false, second);
  }

  lemma {:induction false} FailuresUpToTheThreshold(p: Parts, n: int, w: World, attempt: nat, start: int)
    requires Consecutive(p, n) && ClockRuns(p, start)
    requires w.breaker.state.Closed? && w.breaker.expiry >= start + p.breaker.interval
    requires w.breaker.counts.consecutiveFailures < ClampToUint32(n)
    requires attempt >= 1 && attempt + w.failuresLeft <= p.retry.maxAttempts
    requires w.breaker.counts.consecutiveFailures + w.failuresLeft >= ClampToUint32(n)
    ensures var after := RetryFrom(p.retry, BreakerLayer(p)(Operation(p)), w, attempt).0;
            && after.breaker.state.Open?
            && after.told == w.told + Failed(ClampToUint32(n) - w.breaker.counts.consecutiveFailures)
    decreases w.failuresLeft
  {
    var counted := w.breaker.counts.consecutiveFailures;
    var after := BreakerLayer(p)(Operation(p))(w).0;
    FailureIsCounted(p, n, w, start);
    if counted + 1 < ClampToUint32(n) {
      FailuresUpToTheThreshold(p, n, after, attempt + 1, start);
      assert w.told + [false] + Failed(ClampToUint32(n) - counted - 1) == w.told + Failed(ClampToUint32(n) - counted);
    } else {
      OpenTellsNothing(p, after, attempt + 1, start);
      assert w.told + Failed(1) == w.told + [false];
    }
  }

  /** With retry outside the breaker, one call that would have been recovered after k failures
      opens a fresh circuit by itself as soon as k reaches the threshold, when all its attempts
      and waits fit into one Interval and one Timeout. */
  lemma OneBlipOpens(p: Parts, n: int, k: nat)
    requires Consecutive(p, n) && ClockRuns(p, p.clock(0))
    requires ClampToUint32(n) <= k < p.retry.maxAttempts
    ensures var w := RunCalls(OutsideChain(p), Fresh(p), [k]);
            w.breaker.state.Open? && w.told == Failed(ClampToUint32(n))
  {
    ChainsUnfold(p);
    var calls: seq<nat> := [k];
    assert calls[..0] == [];
    FailuresUpToTheThreshold(p, n, Fresh(p).(failuresLeft := k), 1, p.clock(0));
  }
}
