// circuitbreaker/breaker.go as a machine over values: the state every locked section
// moves, one function per section, and what holds over whole runs of them.
// Times are integer nanoseconds. CircuitBreaker.dfy refines this machine in place.
module BreakerMachine {
  import opened Basics
  import opened BreakerCounts
  import opened TimeWindows
  import CountWindows

  datatype State = Closed | Open | HalfOpen

  datatype WindowKind = ByCount | ByTime

  datatype WindowSettings = WindowSettings(kind: WindowKind, size: nat, minimumCalls: int, threshold: real)

  /** What New leaves for the locked sections to read. */
  datatype Settings = Settings(
    maxRequests: int,
    interval: int,
    timeout: int,
    window: Option<WindowSettings>,
    readyToTrip: Counts -> bool)
  {
    predicate Usable() {
      && maxRequests >= 1 && interval >= 0 && timeout > 0
      && (window.Some? ==> UsableWindow(window.value))
    }
  }

  predicate UsableWindow(w: WindowSettings) {
    && w.size >= 1 && w.minimumCalls >= 1 && 0.0 < w.threshold <= 1.0
    && (w.kind.ByCount? ==> w.minimumCalls <= w.size)
  }

  /** era is the log of outcomes accepted under the current generation; the counters
      summarise its suffix from mark on (the Closed interval clears only the counters). */
  datatype Breaker = Breaker(
    state: State,
    generation: int,
    counts: Counts,
    expiry: int,
    era: seq<Outcome>,
    mark: nat)

  function SecondOf(now: int): int {
    now / 1_000_000_000
  }

  function Successes(era: seq<Outcome>): (log: seq<bool>)
    ensures |log| == |era| && forall i :: 0 <= i < |era| ==> log[i] == era[i].success
  {
    seq(|era|, i requires 0 <= i < |era| => era[i].success)
  }

  function Failures(era: seq<Outcome>): (log: seq<bool>)
    ensures |log| == |era| && forall i :: 0 <= i < |era| ==> log[i] == !era[i].success
  {
    seq(|era|, i requires 0 <= i < |era| => !era[i].success)
  }

  // ----- The window -----

  function StatsOf(w: WindowSettings, era: seq<Outcome>, second: int): (nat, nat)
    requires w.size >= 1
  {
    match w.kind
    case ByCount => (|LastN(Failures(era), w.size)|, CountWindows.RetainedFailures(Failures(era), w.size))
    case ByTime => WindowStats(era, w.size, second)
  }

  predicate StatsTrip(w: WindowSettings, calls: nat, failures: nat) {
    if calls < w.minimumCalls || calls == 0 then false
    else failures as real / calls as real >= w.threshold
  }

  predicate WindowTrips(w: WindowSettings, era: seq<Outcome>, now: int)
    requires w.size >= 1
  {
    var (calls, failures) := StatsOf(w, era, SecondOf(now));
    StatsTrip(w, calls, failures)
  }

  // ----- The locked sections -----

  function Init(cfg: Settings, now: int): Breaker {
    Breaker(Closed, 0, ZERO_COUNTS, now + cfg.interval, [], 0)
  }

  function SetState(cfg: Settings, b: Breaker, to: State, now: int): Breaker {
    if b.state == to then b else
      var expiry := match to
        case Closed => now + cfg.interval
        case Open => now + cfg.timeout
        case HalfOpen => b.expiry;
      Breaker(to, b.generation + 1, ZERO_COUNTS, expiry, [], 0)
  }

  function CurrentState(cfg: Settings, b: Breaker, now: int): Breaker {
    match b.state
    case Closed =>
      if cfg.interval > 0 && b.expiry < now
      then b.(counts := ZERO_COUNTS, expiry := now + cfg.interval, mark := |b.era|)
      else b
    case Open => if b.expiry < now then SetState(cfg, b, HalfOpen, now) else b
    case HalfOpen => b
  }

  datatype Admission =
    | Admitted(generation: int)
    | Rejected(state: State, retryAfter: int, counts: Counts)

  function OpenError(b: Breaker, now: int): Admission {
    Rejected(b.state, if b.state.Open? && b.expiry > now then b.expiry - now else 0, b.counts)
  }

  function BeforeRequest(cfg: Settings, b: Breaker, now: int): (Breaker, Admission) {
    var c := CurrentState(cfg, b, now);
    if c.state.Open? then (c, OpenError(c, now))
    else if c.state.HalfOpen? && c.counts.requests >= cfg.maxRequests then (c, OpenError(c, now))
    else (c, Admitted(c.generation))
  }

  function Accept(b: Breaker, success: bool, now: int): Breaker {
    b.(counts := if success then AfterSuccess(b.counts) else AfterFailure(b.counts),
       era := b.era + [Outcome(success, SecondOf(now))])
  }

  function OnSuccess(cfg: Settings, b: Breaker, now: int): Breaker
    requires cfg.Usable()
  {
    match b.state
    case Closed =>
      var a := Accept(b, true, now);
      if cfg.window.Some? && WindowTrips(cfg.window.value, a.era, now) then SetState(cfg, a, Open, now) else a
    case HalfOpen =>
      var a := Accept(b, true, now);
      if a.counts.consecutiveSuccesses >= cfg.maxRequests then SetState(cfg, a, Closed, now) else a
    case Open => b
  }

  function OnFailure(cfg: Settings, b: Breaker, now: int): Breaker
    requires cfg.Usable()
  {
    match b.state
    case Closed =>
      var a := Accept(b, false, now);
      if cfg.window.Some? then
        if WindowTrips(cfg.window.value, a.era, now) then SetState(cfg, a, Open, now) else a
      else if cfg.readyToTrip(a.counts) then SetState(cfg, a, Open, now) else a
    case HalfOpen => SetState(cfg, b, Open, now)
    case Open => b
  }

  function AfterRequest(cfg: Settings, b: Breaker, generation: int, success: bool, now: int): Breaker
    requires cfg.Usable()
  {
    var c := CurrentState(cfg, b, now);
    if generation != c.generation then c
    else if success then OnSuccess(cfg, c, now)
    else OnFailure(cfg, c, now)
  }

  function Reset(cfg: Settings, b: Breaker, now: int): Breaker {
    Breaker(Closed, b.generation + 1, ZERO_COUNTS, now + cfg.interval, [], 0)
  }

  // ----- Runs -----

  datatype Event =
    | Admit(now: int)
    | Complete(generation: int, success: bool, now: int)
    | Observe(now: int)
    | ManualReset(now: int)

  function Apply(cfg: Settings, b: Breaker, e: Event): Breaker
    requires cfg.Usable()
  {
    match e
    case Admit(now) => BeforeRequest(cfg, b, now).0
    case Complete(generation, success, now) => AfterRequest(cfg, b, generation, success, now)
    case Observe(now) => CurrentState(cfg, b, now)
    case ManualReset(now) => Reset(cfg, b, now)
  }

  function Run(cfg: Settings, b: Breaker, es: seq<Event>): Breaker
    requires cfg.Usable()
  {
    if es == [] then b else Apply(cfg, Run(cfg, b, es[..|es| - 1]), es[|es| - 1])
  }

  /** A caller only ever holds generations the breaker has handed out. */
  predicate Honest(b: Breaker, e: Event) {
    e.Complete? ==> e.generation <= b.generation
  }

  // ----- The machine against the log -----

  ghost predicate Inv(cfg: Settings, b: Breaker)
    requires cfg.Usable()
  {
    && b.mark <= |b.era|
    && b.counts == CountsOf(Successes(b.era[b.mark..]))
    && (b.state.Open? ==> b.era == [])
    && (b.state.HalfOpen? ==>
          && b.mark == 0
          && |b.era| < cfg.maxRequests
          && forall i :: 0 <= i < |b.era| ==> b.era[i].success)
    && (b.state.Closed? && cfg.window.Some? && cfg.window.value.kind.ByCount? ==>
          forall now :: !WindowTrips(cfg.window.value, b.era, now))
  }

  lemma SuccessesSnoc(era: seq<Outcome>, o: Outcome, mark: nat)
    requires mark <= |era|
    ensures Successes((era + [o])[mark..]) == Successes(era[mark..]) + [o.success]
  {
  }

  lemma EmptyEraIsQuiet(cfg: Settings, b: Breaker)
    requires cfg.Usable() && b.era == [] && b.mark == 0 && b.counts == ZERO_COUNTS
    ensures Inv(cfg, b)
  {
    CountsFoldTheLog([]);
    assert Successes(b.era[b.mark..]) == [];
    if cfg.window.Some? && cfg.window.value.kind.ByCount? {
      assert LastN(Failures(b.era), cfg.window.value.size) == [];
    }
  }

  lemma InitInv(cfg: Settings, now: int)
    requires cfg.Usable()
    ensures Inv(cfg, Init(cfg, now))
  {
    EmptyEraIsQuiet(cfg, Init(cfg, now));
  }

  lemma CurrentStateKeepsInv(cfg: Settings, b: Breaker, now: int)
    requires cfg.Usable() && Inv(cfg, b)
    ensures Inv(cfg, CurrentState(cfg, b, now))
  {
    var c := CurrentState(cfg, b, now);
    if b.state.Closed? {
      CountsFoldTheLog([]);
      assert Successes(c.era[|c.era|..]) == [];
    } else if c != b {
      EmptyEraIsQuiet(cfg, c);
    }
  }

  /** The counters stay the fold of the accepted log. */
  lemma AcceptFoldsTheLog(b: Breaker, success: bool, now: int)
    requires b.mark <= |b.era| && b.counts == CountsOf(Successes(b.era[b.mark..]))
    ensures var a := Accept(b, success, now);
            a.mark <= |a.era| && a.counts == CountsOf(Successes(a.era[a.mark..]))
  {
    SuccessesSnoc(b.era, Outcome(success, SecondOf(now)), b.mark);
    CountsFoldTheLog(Successes(b.era[b.mark..]));
  }

  lemma {:induction false} AllSuccessesCount(log: seq<bool>)
    requires forall i :: 0 <= i < |log| ==> log[i]
    ensures TrailingRun(log, true) == |log|
  {
    if log != [] {
      AllSuccessesCount(log[..|log| - 1]);
    }
  }

  /** In HalfOpen the requests, the successes and the success streak are one number. */
  lemma HalfOpenCounts(cfg: Settings, b: Breaker)
    requires cfg.Usable() && Inv(cfg, b) && b.state.HalfOpen?
    ensures b.counts.requests == b.counts.consecutiveSuccesses == |b.era| < cfg.maxRequests
  {
    assert b.era[0..] == b.era;
    AllSuccessesCount(Successes(b.era));
  }

  lemma ClosedWindowKeepsInv(cfg: Settings, b: Breaker, success: bool, now: int)
    requires cfg.Usable() && Inv(cfg, b) && b.state.Closed? && cfg.window.Some?
    requires var a := Accept(b, success, now); !WindowTrips(cfg.window.value, a.era, now)
    ensures Inv(cfg, Accept(b, success, now))
  {
    AcceptFoldsTheLog(b, success, now);
    if cfg.window.value.kind.ByCount? {
      QuietAtAnyTime(cfg.window.value, Accept(b, success, now).era, now);
    }
  }

  /** A count window does not look at the clock. */
  lemma QuietAtAnyTime(w: WindowSettings, era: seq<Outcome>, now: int)
    requires UsableWindow(w) && w.kind.ByCount? && !WindowTrips(w, era, now)
    ensures forall later :: !WindowTrips(w, era, later)
  {
  }

  lemma HalfOpenOutcomeKeepsInv(cfg: Settings, b: Breaker, success: bool, now: int)
    requires cfg.Usable() && Inv(cfg, b) && b.state.HalfOpen?
    ensures Inv(cfg, if success then OnSuccess(cfg, b, now) else OnFailure(cfg, b, now))
  {
    var after := if success then OnSuccess(cfg, b, now) else OnFailure(cfg, b, now);
    if after.state.HalfOpen? {
      AcceptFoldsTheLog(b, success, now);
      HalfOpenCounts(cfg, b);
      CountsFoldTheLog(Successes(b.era[b.mark..]));
    } else {
      EmptyEraIsQuiet(cfg, after);
    }
  }

  /** In Closed an outcome is accepted, and then either opens the circuit or leaves a quiet window. */
  lemma ClosedOutcome(cfg: Settings, b: Breaker, success: bool, now: int)
    requires cfg.Usable() && b.state.Closed?
    ensures var a := Accept(b, success, now);
            var after := if success then OnSuccess(cfg, b, now) else OnFailure(cfg, b, now);
            || after == SetState(cfg, a, Open, now)
            || (after == a && (cfg.window.Some? ==> !WindowTrips(cfg.window.value, a.era, now)))
  {
  }

  lemma ClosedOutcomeKeepsInv(cfg: Settings, b: Breaker, success: bool, now: int)
    requires cfg.Usable() && Inv(cfg, b) && b.state.Closed?
    ensures Inv(cfg, if success then OnSuccess(cfg, b, now) else OnFailure(cfg, b, now))
  {
    ClosedOutcome(cfg, b, success, now);
    EmptyEraIsQuiet(cfg, SetState(cfg, Accept(b, success, now), Open, now));
    if cfg.window.None? {
      AcceptFoldsTheLog(b, success, now);
    } else if !WindowTrips(cfg.window.value, Accept(b, success, now).era, now) {
      ClosedWindowKeepsInv(cfg, b, success, now);
    }
  }

  lemma OutcomeKeepsInv(cfg: Settings, b: Breaker, success: bool, now: int)
    requires cfg.Usable() && Inv(cfg, b)
    ensures Inv(cfg, if success then OnSuccess(cfg, b, now) else OnFailure(cfg, b, now))
  {
    match b.state
    case Closed => ClosedOutcomeKeepsInv(cfg, b, success, now);
    case HalfOpen => HalfOpenOutcomeKeepsInv(cfg, b, success, now);
    case Open =>
  }

  lemma ApplyKeepsInv(cfg: Settings, b: Breaker, e: Event)
    requires cfg.Usable() && Inv(cfg, b)
    ensures Inv(cfg, Apply(cfg, b, e))
  {
    CurrentStateKeepsInv(cfg, b, e.now);
    match e
    case Complete(generation, success, now) =>
      OutcomeKeepsInv(cfg, CurrentState(cfg, b, now), success, now);
    case ManualReset(now) => EmptyEraIsQuiet(cfg, Reset(cfg, b, now));
    case _ =>
  }

  /** Over every run the breaker agrees with its log. */
  lemma {:induction false} RunKeepsInv(cfg: Settings, b: Breaker, es: seq<Event>)
    requires cfg.Usable() && Inv(cfg, b)
    ensures Inv(cfg, Run(cfg, b, es))
  {
    if es != [] {
      RunKeepsInv(cfg, b, es[..|es| - 1]);
      ApplyKeepsInv(cfg, Run(cfg, b, es[..|es| - 1]), es[|es| - 1]);
    }
  }

  // ----- Generations -----

  /** The generation rises by exactly one on a state change or Reset, and otherwise stays. */
  lemma GenerationStep(cfg: Settings, b: Breaker, e: Event)
    requires cfg.Usable() && Honest(b, e)
    ensures Apply(cfg, b, e).generation
            == b.generation + (if e.ManualReset? || Apply(cfg, b, e).state != b.state then 1 else 0)
  {
  }

  lemma RegimeStep(cfg: Settings, b: Breaker, e: Event)
    requires cfg.Usable() && Honest(b, e)
    ensures var after := Apply(cfg, b, e);
            && after.generation >= b.generation
            && (after.generation == b.generation ==> after.state == b.state && b.era <= after.era)
  {
    GenerationStep(cfg, b, e);
  }

  ghost predicate HonestRun(cfg: Settings, b: Breaker, es: seq<Event>)
    requires cfg.Usable()
  {
    forall i :: 0 <= i < |es| ==> Honest(Run(cfg, b, es[..i]), es[i])
  }

  /** Over a run generations never fall, and while the generation is unchanged the state is too. */
  lemma {:induction false} GenerationsNameRegimes(cfg: Settings, b: Breaker, es: seq<Event>)
    requires cfg.Usable() && HonestRun(cfg, b, es)
    ensures Run(cfg, b, es).generation >= b.generation
    ensures Run(cfg, b, es).generation == b.generation ==>
              Run(cfg, b, es).state == b.state && b.era <= Run(cfg, b, es).era
  {
    if es != [] {
      var front := es[..|es| - 1];
      forall i | 0 <= i < |front|
        ensures Honest(Run(cfg, b, front[..i]), front[i])
      {
        assert es[..i] == front[..i];
        assert Honest(Run(cfg, b, es[..i]), es[i]);
      }
      GenerationsNameRegimes(cfg, b, front);
      assert Honest(Run(cfg, b, es[..|es| - 1]), es[|es| - 1]);
      RegimeStep(cfg, Run(cfg, b, front), es[|es| - 1]);
    }
  }

  /** An outcome admitted under an older generation does no more than looking at the state does. */
  lemma StaleOutcomeIsIgnored(cfg: Settings, b: Breaker, generation: int, success: bool, now: int)
    requires cfg.Usable() && generation < b.generation
    ensures Apply(cfg, b, Complete(generation, success, now)) == Apply(cfg, b, Observe(now))
    ensures var after := Apply(cfg, b, Complete(generation, success, now));
            after.era == b.era || (after.state.HalfOpen? && b.state.Open? && after.era == [])
  {
  }

  predicate Stale(b: Breaker, e: Event) {
    e.Complete? && e.generation < b.generation
  }

  /** The run with every stale outcome replaced by a look at the state. */
  function WithoutStale(cfg: Settings, b: Breaker, es: seq<Event>): (r: seq<Event>)
    requires cfg.Usable()
    ensures |r| == |es|
  {
    if es == [] then []
    else
      var front, e := es[..|es| - 1], es[|es| - 1];
      WithoutStale(cfg, b, front) + [if Stale(Run(cfg, b, front), e) then Observe(e.now) else e]
  }

  /** Over a whole run the outcomes of older generations might as well never have come back:
      counters, window, state and deadlines end up the same. */
  lemma {:induction false} StaleOutcomesNeverMatter(cfg: Settings, b: Breaker, es: seq<Event>)
    requires cfg.Usable()
    ensures Run(cfg, b, WithoutStale(cfg, b, es)) == Run(cfg, b, es)
  {
    if es != [] {
      var front, e := es[..|es| - 1], es[|es| - 1];
      StaleOutcomesNeverMatter(cfg, b, front);
      var quiet := WithoutStale(cfg, b, es);
      assert quiet[..|quiet| - 1] == WithoutStale(cfg, b, front);
      if Stale(Run(cfg, b, front), e) {
        StaleOutcomeIsIgnored(cfg, Run(cfg, b, front), e.generation, e.success, e.now);
      }
    }
  }

  // ----- Open -----

  predicate NoReset(es: seq<Event>) {
    forall i :: 0 <= i < |es| ==> !es[i].ManualReset?
  }

  predicate AllBy(es: seq<Event>, deadline: int) {
    forall i :: 0 <= i < |es| ==> es[i].now <= deadline
  }

  lemma {:induction false} OpenHolds(cfg: Settings, b: Breaker, es: seq<Event>)
    requires cfg.Usable() && b.state.Open? && NoReset(es) && AllBy(es, b.expiry)
    ensures Run(cfg, b, es) == b
  {
    if es != [] {
      OpenHolds(cfg, b, es[..|es| - 1]);
    }
  }

  /** Absent Reset no request is admitted before Timeout has fully passed after opening,
      whatever else happens in between; the first one later is, and starts the trial. */
  lemma NoAdmissionBeforeTimeout(cfg: Settings, b: Breaker, opening: Event, es: seq<Event>, now: int)
    requires cfg.Usable() && !b.state.Open? && Apply(cfg, b, opening).state.Open?
    requires NoReset(es) && AllBy(es, opening.now + cfg.timeout)
    ensures var later := Run(cfg, Apply(cfg, b, opening), es);
            && (now <= opening.now + cfg.timeout ==>
                  BeforeRequest(cfg, later, now).1
                  == Rejected(Open, opening.now + cfg.timeout - now, ZERO_COUNTS))
            && (now > opening.now + cfg.timeout ==>
                  && BeforeRequest(cfg, later, now).1 == Admitted(later.generation + 1)
                  && BeforeRequest(cfg, later, now).0.state.HalfOpen?)
  {
    OpenHolds(cfg, Apply(cfg, b, opening), es);
  }

  // ----- HalfOpen -----

  /** The trial phase, decided outcome by outcome: it closes on exactly the
      MaxRequests-th success and opens on the first failure. */
  lemma HalfOpenVerdict(cfg: Settings, b: Breaker, success: bool, now: int)
    requires cfg.Usable() && Inv(cfg, b) && b.state.HalfOpen?
    ensures var after := Apply(cfg, b, Complete(b.generation, success, now));
            && (after.state.Open? <==> !success)
            && (after.state.Closed? <==> success && |b.era| + 1 == cfg.maxRequests)
            && (after.state.HalfOpen? ==> after.era == b.era + [Outcome(success, SecondOf(now))])
  {
    HalfOpenCounts(cfg, b);
  }

  /** k successes into a trial phase the breaker is still HalfOpen exactly when k < MaxRequests. */
  lemma {:induction false} TrialRun(cfg: Settings, b: Breaker, times: seq<int>)
    requires cfg.Usable() && Inv(cfg, b) && b.state.HalfOpen? && b.era == []
    requires |times| <= cfg.maxRequests
    ensures var after := Run(cfg, b, SuccessesAt(b.generation, times));
            if |times| < cfg.maxRequests
            then after.state.HalfOpen? && after.generation == b.generation && |after.era| == |times|
            else after.state.Closed? && after.generation == b.generation + 1
  {
    var es := SuccessesAt(b.generation, times);
    if times != [] {
      var front := times[..|times| - 1];
      TrialRun(cfg, b, front);
      assert es[..|es| - 1] == SuccessesAt(b.generation, front);
      RunKeepsInv(cfg, b, es[..|es| - 1]);
      HalfOpenVerdict(cfg, Run(cfg, b, es[..|es| - 1]), true, times[|times| - 1]);
    }
  }

  function SuccessesAt(generation: int, times: seq<int>): (es: seq<Event>)
    ensures |es| == |times|
  {
    seq(|times|, i requires 0 <= i < |times| => Complete(generation, true, times[i]))
  }

  lemma {:induction false} TrialAdmissionsMoveNothing(cfg: Settings, b: Breaker, times: seq<int>)
    requires cfg.Usable() && b.state.HalfOpen?
    ensures Run(cfg, b, AdmitsAt(times)) == b
  {
    if times != [] {
      var es := AdmitsAt(times);
      assert es[..|es| - 1] == AdmitsAt(times[..|times| - 1]);
      TrialAdmissionsMoveNothing(cfg, b, times[..|times| - 1]);
    }
  }

  /** Requests are counted when they complete, so HalfOpen turns no request away:
      MaxRequests bounds the successes a trial needs, not the trials in flight. */
  lemma HalfOpenAdmitsEveryone(cfg: Settings, b: Breaker, times: seq<int>)
    requires cfg.Usable() && Inv(cfg, b) && b.state.HalfOpen?
    ensures Run(cfg, b, AdmitsAt(times)) == b
    ensures forall i :: 0 <= i < |times| ==>
              BeforeRequest(cfg, Run(cfg, b, AdmitsAt(times)[..i]), times[i]).1 == Admitted(b.generation)
  {
    HalfOpenCounts(cfg, b);
    TrialAdmissionsMoveNothing(cfg, b, times);
    forall i | 0 <= i < |times|
      ensures Run(cfg, b, AdmitsAt(times)[..i]) == b
    {
      assert AdmitsAt(times)[..i] == AdmitsAt(times[..i]);
      TrialAdmissionsMoveNothing(cfg, b, times[..i]);
    }
  }

  function AdmitsAt(times: seq<int>): (es: seq<Event>)
    ensures |es| == |times|
  {
    seq(|times|, i requires 0 <= i < |times| => Admit(times[i]))
  }

  // ----- Starting afresh -----

  /** b with every generation raised by d. */
  function Later(b: Breaker, d: int): Breaker {
    b.(generation := b.generation + d)
  }

  function LaterEvent(e: Event, d: int): Event {
    match e
    case Complete(generation, success, now) => Complete(generation + d, success, now)
    case _ => e
  }

  function LaterEvents(es: seq<Event>, d: int): (r: seq<Event>)
    ensures |r| == |es|
  {
    if es == [] then [] else LaterEvents(es[..|es| - 1], d) + [LaterEvent(es[|es| - 1], d)]
  }

  lemma LaterLook(cfg: Settings, b: Breaker, now: int, d: int)
    ensures CurrentState(cfg, Later(b, d), now) == Later(CurrentState(cfg, b, now), d)
  {
  }

  lemma LaterOutcome(cfg: Settings, b: Breaker, success: bool, now: int, d: int)
    requires cfg.Usable()
    ensures success ==> OnSuccess(cfg, Later(b, d), now) == Later(OnSuccess(cfg, b, now), d)
    ensures !success ==> OnFailure(cfg, Later(b, d), now) == Later(OnFailure(cfg, b, now), d)
  {
    assert Accept(Later(b, d), success, now) == Later(Accept(b, success, now), d);
  }

  lemma LaterStep(cfg: Settings, b: Breaker, e: Event, d: int)
    requires cfg.Usable()
    ensures Apply(cfg, Later(b, d), LaterEvent(e, d)) == Later(Apply(cfg, b, e), d)
  {
    LaterLook(cfg, b, e.now, d);
    if e.Complete? {
      LaterOutcome(cfg, CurrentState(cfg, b, e.now), e.success, e.now, d);
    }
  }

  /** Generations are names only: raising them all changes nothing else. */
  lemma {:induction false} LaterRun(cfg: Settings, b: Breaker, es: seq<Event>, d: int)
    requires cfg.Usable()
    ensures Run(cfg, Later(b, d), LaterEvents(es, d)) == Later(Run(cfg, b, es), d)
  {
    if es != [] {
      var later := LaterEvents(es, d);
      assert later[..|later| - 1] == LaterEvents(es[..|es| - 1], d);
      LaterRun(cfg, b, es[..|es| - 1], d);
      LaterStep(cfg, Run(cfg, b, es[..|es| - 1]), es[|es| - 1], d);
    }
  }

  /** A manual Reset in any state, and a trial that succeeds, each leave what New leaves at that
      time: the run that follows is the run of a fresh breaker, but for the generation. */
  lemma ResetStartsAfresh(cfg: Settings, b: Breaker, now: int, es: seq<Event>)
    requires cfg.Usable()
    ensures var d := b.generation + 1;
            && Run(cfg, Apply(cfg, b, ManualReset(now)), LaterEvents(es, d))
               == Later(Run(cfg, Init(cfg, now), es), d)
            && (b.state.HalfOpen? && Apply(cfg, b, Complete(b.generation, true, now)).state.Closed? ==>
                  Run(cfg, Apply(cfg, b, Complete(b.generation, true, now)), LaterEvents(es, d))
                  == Later(Run(cfg, Init(cfg, now), es), d))
  {
    var d := b.generation + 1;
    assert Reset(cfg, b, now) == Later(Init(cfg, now), d);
    LaterRun(cfg, Init(cfg, now), es, d);
  }

  /** While the first interval of a fresh breaker lasts its counters count everything since. */
  lemma {:induction false} FirstInterval(cfg: Settings, start: int, es: seq<Event>)
    requires cfg.Usable() && NoReset(es) && AllBy(es, start + cfg.interval)
    ensures var b := Run(cfg, Init(cfg, start), es);
            b.generation == 0 ==> b.state.Closed? && b.mark == 0 && b.expiry == start + cfg.interval
    ensures Run(cfg, Init(cfg, start), es).generation >= 0
  {
    if es != [] {
      FirstInterval(cfg, start, es[..|es| - 1]);
      IntervalStep(cfg, Run(cfg, Init(cfg, start), es[..|es| - 1]), es[|es| - 1]);
    }
  }

  lemma IntervalOutcome(cfg: Settings, b: Breaker, success: bool, now: int)
    requires cfg.Usable()
    ensures var after := if success then OnSuccess(cfg, b, now) else OnFailure(cfg, b, now);
            && after.generation >= b.generation
            && (after.generation == b.generation ==>
                  (after.state, after.mark, after.expiry) == (b.state, b.mark, b.expiry))
  {
  }

  lemma IntervalStep(cfg: Settings, b: Breaker, e: Event)
    requires cfg.Usable() && !e.ManualReset?
    ensures var after := Apply(cfg, b, e);
            && after.generation >= b.generation
            && (after.generation == b.generation && b.state.Closed? && e.now <= b.expiry ==>
                  (after.state, after.mark, after.expiry) == (b.state, b.mark, b.expiry))
  {
    if e.Complete? {
      IntervalOutcome(cfg, CurrentState(cfg, b, e.now), e.success, e.now);
    }
  }

  /** The counters of a Closed breaker are cleared exactly when an interval has fully passed since
      it started afresh: up to then they count every outcome, with the next look later they count
      none, while the window keeps its outcomes; and the next interval begins then. */
  lemma IntervalClearsCounters(cfg: Settings, start: int, es: seq<Event>, now: int)
    requires cfg.Usable() && NoReset(es) && AllBy(es, start + cfg.interval)
    requires Run(cfg, Init(cfg, start), es).generation == 0
    ensures var b := Run(cfg, Init(cfg, start), es);
            var c := Apply(cfg, b, Observe(now));
            && b.counts == CountsOf(Successes(b.era))
            && c.era == b.era && c.state.Closed?
            && if cfg.interval > 0 && now > start + cfg.interval
               then c.counts == CountsOf([]) && c.expiry == now + cfg.interval
               else c == b
  {
    FirstInterval(cfg, start, es);
    InitInv(cfg, start);
    RunKeepsInv(cfg, Init(cfg, start), es);
    var b := Run(cfg, Init(cfg, start), es);
    assert b.era[0..] == b.era;
    CountsFoldTheLog([]);
  }

  // ----- Tripping -----

  /** With a count window an accepted Closed outcome opens the breaker exactly when the
      retained outcomes number at least MinimumCalls and enough of them failed. */
  lemma TripIsExact(cfg: Settings, b: Breaker, success: bool, now: int)
    requires cfg.Usable() && b.state.Closed?
    requires cfg.window.Some? && cfg.window.value.kind.ByCount?
    ensures var w := cfg.window.value;
            var kept := LastN(Failures(b.era + [Outcome(success, SecondOf(now))]), w.size);
            Apply(cfg, b, Complete(b.generation, success, now)).state.Open? <==>
            |kept| >= w.minimumCalls && FailedShare(CountTrue(kept), |kept|, w.threshold)
  {
    var w := cfg.window.value;
    var kept := LastN(Failures(b.era + [Outcome(success, SecondOf(now))]), w.size);
    QuotientIsShare(CountTrue(kept), |kept|, w.threshold);
    var c := CurrentState(cfg, b, now);
    assert c.era == b.era && c.generation == b.generation && c.state.Closed?;
    assert Accept(c, success, now).era == b.era + [Outcome(success, SecondOf(now))];
  }

  /** A Closed breaker with a count window never sits on a window that trips. */
  lemma ClosedMeansQuiet(cfg: Settings, start: int, es: seq<Event>)
    requires cfg.Usable() && cfg.window.Some? && cfg.window.value.kind.ByCount?
    ensures var b := Run(cfg, Init(cfg, start), es);
            var w := cfg.window.value;
            var kept := LastN(Failures(b.era), w.size);
            b.state.Closed? ==>
              |kept| < w.minimumCalls || !FailedShare(CountTrue(kept), |kept|, w.threshold)
  {
    var b := Run(cfg, Init(cfg, start), es);
    InitInv(cfg, start);
    RunKeepsInv(cfg, Init(cfg, start), es);
    if b.state.Closed? {
      var w := cfg.window.value;
      assert !WindowTrips(w, b.era, 0);
      var kept := LastN(Failures(b.era), w.size);
      if |kept| > 0 {
        QuotientIsShare(CountTrue(kept), |kept|, w.threshold);
      }
    }
  }

  /** Events in which only failures come back under generation g; requests, looks at the state and
      outcomes of older generations may come in between. */
  predicate OnlyFailures(es: seq<Event>, g: int) {
    forall i :: 0 <= i < |es| ==> Unhelpful(es[i], g)
  }

  predicate Unhelpful(e: Event, g: int) {
    match e
    case Complete(generation, success, _) => generation < g || (generation == g && !success)
    case ManualReset(_) => false
    case _ => true
  }

  function FailuresUnder(es: seq<Event>, g: int): nat {
    if es == [] then 0
    else FailuresUnder(es[..|es| - 1], g) + (if es[|es| - 1].Complete? && es[|es| - 1].generation == g then 1 else 0)
  }

  /** Such an event opens the circuit or leaves it Closed, a failure longer when it was one. */
  lemma UnhelpfulStep(cfg: Settings, b: Breaker, e: Event)
    requires cfg.Usable() && b.state.Closed? && Unhelpful(e, b.generation)
    ensures var after := Apply(cfg, b, e);
            if after.generation == b.generation
            then
              && after.state.Closed?
              && |after.era| == |b.era| + FailuresUnder([e], b.generation)
              && b.era <= after.era
              && forall i :: |b.era| <= i < |after.era| ==> !after.era[i].success
            else after.generation == b.generation + 1 && after.state.Open?
  {
    assert [e][..0] == [];
  }

  lemma FailuresSnoc(es: seq<Event>, g: int)
    requires es != []
    ensures FailuresUnder(es, g) == FailuresUnder(es[..|es| - 1], g) + FailuresUnder([es[|es| - 1]], g)
  {
    assert [es[|es| - 1]][..0] == [];
  }

  /** While such events leave the breaker Closed the failures pile up at the end of the log. */
  lemma {:induction false} FailuresPileUp(cfg: Settings, b: Breaker, es: seq<Event>)
    requires cfg.Usable() && b.state.Closed? && OnlyFailures(es, b.generation)
    ensures Run(cfg, b, es).generation >= b.generation
    ensures var after := Run(cfg, b, es);
            after.generation == b.generation ==>
              && after.state.Closed?
              && |after.era| == |b.era| + FailuresUnder(es, b.generation)
              && forall i :: |b.era| <= i < |after.era| ==> !after.era[i].success
  {
    if es != [] {
      var front, e := es[..|es| - 1], es[|es| - 1];
      FailuresPileUp(cfg, b, front);
      var before := Run(cfg, b, front);
      assert Unhelpful(e, b.generation);
      GenerationStep(cfg, before, e);
      if before.generation == b.generation {
        UnhelpfulStep(cfg, before, e);
        FailuresSnoc(es, b.generation);
      }
    }
  }

  lemma FullOfFailuresTrips(w: WindowSettings, era: seq<Outcome>, now: int)
    requires UsableWindow(w) && w.kind.ByCount? && |era| >= w.size
    requires forall i :: |era| - w.size <= i < |era| ==> !era[i].success
    ensures WindowTrips(w, era, now)
  {
    var kept := LastN(Failures(era), w.size);
    CountTrueAll(kept);
    QuotientIsShare(w.size, w.size, w.threshold);
    assert w.threshold * w.size as real <= 1.0 * w.size as real;
  }

  /** The first event that ends the Closed regime opens the circuit. */
  lemma {:induction false} FirstOpening(cfg: Settings, b: Breaker, es: seq<Event>) returns (k: nat)
    requires cfg.Usable() && b.state.Closed? && OnlyFailures(es, b.generation)
    requires Run(cfg, b, es).generation != b.generation
    ensures k <= |es|
    ensures var after := Run(cfg, b, es[..k]);
            after.state.Open? && after.generation == b.generation + 1
  {
    var front, e := es[..|es| - 1], es[|es| - 1];
    FailuresPileUp(cfg, b, front);
    var before := Run(cfg, b, front);
    if before.generation == b.generation {
      assert Unhelpful(e, b.generation);
      UnhelpfulStep(cfg, before, e);
      k := |es|;
      assert es[..k] == es;
    } else {
      k := FirstOpening(cfg, b, front);
      assert es[..k] == front[..k];
    }
  }

  /** The window is reachable: SlidingWindowSize failures reported to a Closed breaker with no
      success between them open it, whatever was in the window before and whatever requests,
      looks at the state and stale outcomes come in between. */
  lemma ConsecutiveFailuresOpen(cfg: Settings, b: Breaker, es: seq<Event>) returns (k: nat)
    requires cfg.Usable() && Inv(cfg, b) && b.state.Closed? && OnlyFailures(es, b.generation)
    requires cfg.window.Some? && cfg.window.value.kind.ByCount?
    requires FailuresUnder(es, b.generation) >= cfg.window.value.size
    ensures k <= |es|
    ensures var after := Run(cfg, b, es[..k]);
            after.state.Open? && after.generation == b.generation + 1
  {
    FailuresPileUp(cfg, b, es);
    var after := Run(cfg, b, es);
    if after.generation == b.generation {
      RunKeepsInv(cfg, b, es);
      FullOfFailuresTrips(cfg.window.value, after.era, 0);
    }
    k := FirstOpening(cfg, b, es);
  }

  /** Without a window, and with the shipped consecutive predicate, a Closed breaker opens
      exactly on the failure that completes n in a row since the counters were cleared. */
  lemma ConsecutivePolicyIsExact(cfg: Settings, b: Breaker, n: int, success: bool, now: int)
    requires cfg.Usable() && Inv(cfg, b) && b.state.Closed?
    requires cfg.window.None?
    requires forall log {:trigger CountsOf(log)} ::
               cfg.readyToTrip(CountsOf(log)) == TripOnConsecutiveFailures(n)(CountsOf(log))
    ensures var c := CurrentState(cfg, b, now);
            var log := Successes(c.era[c.mark..]) + [success];
            var streak := ClampToUint32(n);
            Apply(cfg, b, Complete(b.generation, success, now)).state.Open? <==>
            streak <= |log| && forall i :: |log| - streak <= i < |log| ==> !log[i]
  {
    CurrentStateKeepsInv(cfg, b, now);
    var c := CurrentState(cfg, b, now);
    var log := Successes(c.era[c.mark..]) + [success];
    CountsFoldTheLog(Successes(c.era[c.mark..]));
    ConsecutivePredicateMeaning(n, log);
    assert success ==> log[|log| - 1];
    PolicyDecides(cfg, c, success, now, CountsOf(log));
  }

  lemma PolicyDecides(cfg: Settings, c: Breaker, success: bool, now: int, counts: Counts)
    requires cfg.Usable() && cfg.window.None? && c.state.Closed?
    requires counts == Accept(c, success, now).counts
    ensures var after := if success then OnSuccess(cfg, c, now) else OnFailure(cfg, c, now);
            after.state.Open? <==> !success && cfg.readyToTrip(counts)
  {
  }
}
