// circuitbreaker/breaker.go with a time window: when it opens, counted from the outcomes
// themselves. The clock of a run does not step back.
module TimeTripping {
  import opened Basics
  import opened BreakerCounts
  import opened TimeWindows
  import opened BreakerMachine

  predicate WithTimeWindow(cfg: Settings) {
    cfg.Usable() && cfg.window.Some? && cfg.window.value.kind.ByTime?
  }

  /** The outcomes of the last size seconds up to now number at least MinimumCalls, and the
      threshold share of them failed. */
  predicate EnoughFailed(w: WindowSettings, era: seq<Outcome>, second: int) {
    var lo := second - w.size + 1;
    && Recorded(era, lo, second, false) >= w.minimumCalls
    && FailedShare(Recorded(era, lo, second, true), Recorded(era, lo, second, false), w.threshold)
  }

  lemma TripsOnHistory(w: WindowSettings, era: seq<Outcome>, now: int)
    requires UsableWindow(w) && w.kind.ByTime? && NothingLost(era, w.size, SecondOf(now))
    ensures WindowTrips(w, era, now) <==> EnoughFailed(w, era, SecondOf(now))
  {
    var second := SecondOf(now);
    WindowRefinesHistory(era, w.size, second);
    var calls := Recorded(era, second - w.size + 1, second, false);
    var failures := Recorded(era, second - w.size + 1, second, true);
    assert WindowStats(era, w.size, second) == (calls, failures);
    if calls >= w.minimumCalls {
      QuotientIsShare(failures, calls, w.threshold);
    }
  }

  // ----- Runs on a steady clock -----

  ghost predicate Steady(start: int, es: seq<Event>) {
    && (forall i :: 0 <= i < |es| ==> start <= es[i].now)
    && (forall i, j :: 0 <= i < j < |es| ==> es[i].now <= es[j].now)
  }

  function LastTime(start: int, es: seq<Event>): int {
    if es == [] then start else es[|es| - 1].now
  }

  /** The log came in order, up to now. */
  ghost predicate InOrder(era: seq<Outcome>, now: int) {
    NonDecreasing(era) && RecordedBy(era, SecondOf(now))
  }

  lemma LaterIsInOrder(era: seq<Outcome>, now: int, later: int)
    requires InOrder(era, now) && now <= later
    ensures InOrder(era, later)
    ensures forall success :: InOrder(era + [Outcome(success, SecondOf(later))], later)
  {
  }

  /** A locked section keeps the log, starts a new one, or adds the outcome. */
  lemma LogStep(cfg: Settings, b: Breaker, success: bool, now: int)
    requires cfg.Usable()
    ensures CurrentState(cfg, b, now).era == b.era || CurrentState(cfg, b, now).era == []
    ensures OnSuccess(cfg, b, now).era in [b.era, [], b.era + [Outcome(true, SecondOf(now))]]
    ensures OnFailure(cfg, b, now).era in [b.era, [], b.era + [Outcome(false, SecondOf(now))]]
  {
  }

  lemma ApplyInOrder(cfg: Settings, b: Breaker, e: Event, now: int)
    requires cfg.Usable() && InOrder(b.era, now) && now <= e.now
    ensures InOrder(Apply(cfg, b, e).era, e.now)
  {
    LaterIsInOrder(b.era, now, e.now);
    LogStep(cfg, b, true, e.now);
    match e
    case Complete(generation, success, _) =>
      var c := CurrentState(cfg, b, e.now);
      LaterIsInOrder(c.era, e.now, e.now);
      LogStep(cfg, c, success, e.now);
    case _ =>
  }

  lemma {:induction false} RunInOrder(cfg: Settings, b: Breaker, es: seq<Event>, start: int)
    requires cfg.Usable() && InOrder(b.era, start) && Steady(start, es)
    ensures InOrder(Run(cfg, b, es).era, LastTime(start, es))
  {
    if es != [] {
      var front, e := es[..|es| - 1], es[|es| - 1];
      RunInOrder(cfg, b, front, start);
      ApplyInOrder(cfg, Run(cfg, b, front), e, LastTime(start, front));
    }
  }

  /** With a time window an accepted Closed outcome opens the circuit exactly when enough of the
      outcomes of the current era in the last size seconds failed, this one included: on any
      clock, unless an outcome among them has lost its bucket. */
  lemma TimeTripUnlessLost(cfg: Settings, b: Breaker, success: bool, now: int)
    requires WithTimeWindow(cfg) && b.state.Closed?
    requires NothingLost(b.era + [Outcome(success, SecondOf(now))], cfg.window.value.size, SecondOf(now))
    ensures Apply(cfg, b, Complete(b.generation, success, now)).state.Open?
       <==> EnoughFailed(cfg.window.value, b.era + [Outcome(success, SecondOf(now))], SecondOf(now))
  {
    var era := b.era + [Outcome(success, SecondOf(now))];
    TripsOnHistory(cfg.window.value, era, now);
    var c := CurrentState(cfg, b, now);
    assert c.era == b.era && c.generation == b.generation && c.state.Closed?;
    assert Accept(c, success, now).era == era;
  }

  lemma TripsInOrder(cfg: Settings, b: Breaker, success: bool, last: int, now: int)
    requires WithTimeWindow(cfg) && b.state.Closed? && InOrder(b.era, last) && last <= now
    ensures Apply(cfg, b, Complete(b.generation, success, now)).state.Open?
       <==> EnoughFailed(cfg.window.value, b.era + [Outcome(success, SecondOf(now))], SecondOf(now))
  {
    LaterIsInOrder(b.era, last, now);
    SteadyClockLosesNothing(b.era + [Outcome(success, SecondOf(now))], cfg.window.value.size, SecondOf(now));
    TimeTripUnlessLost(cfg, b, success, now);
  }

  /** So after any run from New on a clock that does not step back it is exact. */
  lemma TimeTripIsExact(cfg: Settings, start: int, es: seq<Event>, success: bool, now: int)
    requires WithTimeWindow(cfg) && Steady(start, es) && LastTime(start, es) <= now
    requires Run(cfg, Init(cfg, start), es).state.Closed?
    ensures var b := Run(cfg, Init(cfg, start), es);
            Apply(cfg, b, Complete(b.generation, success, now)).state.Open?
            <==> EnoughFailed(cfg.window.value, b.era + [Outcome(success, SecondOf(now))], SecondOf(now))
  {
    RunInOrder(cfg, Init(cfg, start), es, start);
    TripsInOrder(cfg, Run(cfg, Init(cfg, start), es), success, LastTime(start, es), now);
  }

  // ----- Enough failures within one window -----

  /** The successes of the log later than second since. */
  function SuccessesSince(era: seq<Outcome>, since: int): nat {
    if era == [] then 0
    else
      SuccessesSince(era[..|era| - 1], since)
      + (if era[|era| - 1].success && era[|era| - 1].second > since then 1 else 0)
  }

  lemma {:induction false} NoMoreSuccesses(era: seq<Outcome>, lo: int, hi: int, since: int)
    requires since < lo
    ensures Recorded(era, lo, hi, false) <= Recorded(era, lo, hi, true) + SuccessesSince(era, since)
  {
    if era != [] {
      NoMoreSuccesses(era[..|era| - 1], lo, hi, since);
    }
  }

  /** k failures in lo..hi are added to era. */
  ghost predicate FailuresAdded(era: seq<Outcome>, after: seq<Outcome>, k: nat, lo: int, hi: int) {
    && |after| == |era| + k
    && era <= after
    && forall i :: |era| <= i < |after| ==> !after[i].success && lo <= after[i].second <= hi
  }

  lemma {:induction false} FailuresAreCounted(era: seq<Outcome>, after: seq<Outcome>, k: nat, lo: int, hi: int,
                                              from: int, since: int)
    requires FailuresAdded(era, after, k, lo, hi) && from <= lo
    ensures Recorded(after, from, hi, true) >= k
    ensures SuccessesSince(after, since) == SuccessesSince(era, since)
  {
    if k == 0 {
      assert after == era;
    } else {
      assert FailuresAdded(era, after[..|after| - 1], k - 1, lo, hi);
      FailuresAreCounted(era, after[..|after| - 1], k - 1, lo, hi, from, since);
    }
  }

  /** More failures with no more successes keep the share. */
  lemma ShareGrows(k: int, failures: int, successes: int, calls: int, ratio: real)
    requires FailedShare(k, k + successes, ratio) && 0 <= k <= failures && calls <= failures + successes
    requires 0.0 < ratio <= 1.0
    ensures FailedShare(failures, calls, ratio)
  {
    var more := (failures - k) as real;
    assert (1.0 - ratio) * more >= 0.0;
    assert ratio * (failures + successes) as real == ratio * (k + successes) as real + ratio * more;
    assert ratio * (failures + successes - calls) as real >= 0.0;
    assert ratio * (failures + successes - calls) as real
        == ratio * (failures + successes) as real - ratio * calls as real;
  }

  /** k failures from the second from on are MinimumCalls, and the threshold share of themselves
      and the successes of the log that are less than a window older. */
  predicate Enough(w: WindowSettings, k: nat, era: seq<Outcome>, from: int) {
    k >= w.minimumCalls && FailedShare(k, k + SuccessesSince(era, from - w.size), w.threshold)
  }

  lemma EnoughOfThem(w: WindowSettings, era: seq<Outcome>, after: seq<Outcome>, k: nat, from: int, second: int)
    requires UsableWindow(w) && FailuresAdded(era, after, k, from, second) && second < from + w.size
    requires Enough(w, k, era, from)
    ensures EnoughFailed(w, after, second)
  {
    var lo := second - w.size + 1;
    FailuresAreCounted(era, after, k, from, second, lo, from - w.size);
    NoMoreSuccesses(after, lo, second, from - w.size);
    FailuresAreCalls(after, lo, second);
    ShareGrows(k, Recorded(after, lo, second, true), SuccessesSince(era, from - w.size),
               Recorded(after, lo, second, false), w.threshold);
  }

  lemma {:induction false} FailuresAreCalls(era: seq<Outcome>, lo: int, hi: int)
    ensures Recorded(era, lo, hi, true) <= Recorded(era, lo, hi, false)
  {
    if era != [] {
      FailuresAreCalls(era[..|era| - 1], lo, hi);
    }
  }

  /** Only failures come back under generation g, in order and within one window that begins at
      the second from. */
  ghost predicate Burst(es: seq<Event>, g: int, start: int, from: int, size: nat) {
    && OnlyFailures(es, g)
    && Steady(start, es)
    && forall i :: 0 <= i < |es| ==> from <= SecondOf(es[i].now) < from + size
  }

  lemma BurstFront(es: seq<Event>, g: int, start: int, from: int, size: nat)
    requires Burst(es, g, start, from, size) && es != []
    ensures Burst(es[..|es| - 1], g, start, from, size)
    ensures var e := es[|es| - 1];
            && Unhelpful(e, g) && from <= SecondOf(e.now) < from + size
            && LastTime(start, es[..|es| - 1]) <= e.now
  {
  }

  /** While such events leave the breaker Closed their failures pile up in the window. */
  lemma {:induction false} FailuresInWindow(cfg: Settings, b: Breaker, es: seq<Event>, start: int, from: int)
    requires WithTimeWindow(cfg) && b.state.Closed? && Burst(es, b.generation, start, from, cfg.window.value.size)
    ensures Run(cfg, b, es).generation >= b.generation
    ensures var after := Run(cfg, b, es);
            after.generation == b.generation ==>
              && after.state.Closed?
              && FailuresAdded(b.era, after.era, FailuresUnder(es, b.generation), from, SecondOf(LastTime(start, es)))
  {
    if es != [] {
      var front, e := es[..|es| - 1], es[|es| - 1];
      BurstFront(es, b.generation, start, from, cfg.window.value.size);
      FailuresInWindow(cfg, b, front, start, from);
      var before := Run(cfg, b, front);
      GenerationStep(cfg, before, e);
      if before.generation == b.generation {
        UnhelpfulStep(cfg, before, e);
        FailuresSnoc(es, b.generation);
        AddedAt(cfg, before, e);
      }
    }
  }

  /** Where the step adds a failure, it carries the second of the event. */
  lemma AddedAt(cfg: Settings, b: Breaker, e: Event)
    requires cfg.Usable() && b.state.Closed? && Unhelpful(e, b.generation)
    ensures var after := Apply(cfg, b, e);
            after.generation == b.generation ==>
              after.era == b.era || after.era == b.era + [Outcome(false, SecondOf(e.now))]
  {
  }

  /** The failure that completes what is needed ends the regime. */
  lemma LastFailureOpens(cfg: Settings, b: Breaker, before: Breaker, e: Event, last: int, k: nat, from: int)
    requires WithTimeWindow(cfg) && before.state.Closed? && InOrder(before.era, last) && last <= e.now
    requires e.Complete? && e.generation == before.generation && !e.success
    requires FailuresAdded(b.era, before.era, k, from, SecondOf(last))
    requires from <= SecondOf(e.now) < from + cfg.window.value.size
    requires Enough(cfg.window.value, k + 1, b.era, from)
    ensures Apply(cfg, before, e).state.Open?
  {
    var after := before.era + [Outcome(false, SecondOf(e.now))];
    assert FailuresAdded(b.era, after, k + 1, from, SecondOf(e.now));
    EnoughOfThem(cfg.window.value, b.era, after, k + 1, from, SecondOf(e.now));
    TripsInOrder(cfg, before, false, last, e.now);
  }

  lemma SameCount(e: Event, g: int)
    ensures FailuresUnder([e], g) == if e.Complete? && e.generation == g then 1 else 0
  {
    assert [e][..0] == [];
  }

  /** Where a run of such events that has kept the regime stands before its last, a failure. */
  lemma BeforeTheLast(cfg: Settings, b: Breaker, es: seq<Event>, start: int, from: int) returns (k: nat)
    requires WithTimeWindow(cfg) && b.state.Closed? && InOrder(b.era, start) && es != []
    requires Burst(es, b.generation, start, from, cfg.window.value.size)
    requires var e := es[|es| - 1]; e.Complete? && e.generation == b.generation
    requires Run(cfg, b, es[..|es| - 1]).generation == b.generation
    ensures var before, last := Run(cfg, b, es[..|es| - 1]), LastTime(start, es[..|es| - 1]);
            && before.state.Closed? && InOrder(before.era, last)
            && FailuresAdded(b.era, before.era, k, from, SecondOf(last))
            && FailuresUnder(es, b.generation) == k + 1
  {
    var front := es[..|es| - 1];
    BurstFront(es, b.generation, start, from, cfg.window.value.size);
    FailuresInWindow(cfg, b, front, start, from);
    FailuresSnoc(es, b.generation);
    SameCount(es[|es| - 1], b.generation);
    RunInOrder(cfg, b, front, start);
    k := FailuresUnder(front, b.generation);
  }

  /** The failure that completes what is needed opens the circuit. */
  lemma LastOfBurstOpens(cfg: Settings, b: Breaker, es: seq<Event>, start: int, from: int)
    requires WithTimeWindow(cfg) && b.state.Closed? && InOrder(b.era, start) && es != []
    requires Burst(es, b.generation, start, from, cfg.window.value.size)
    requires Enough(cfg.window.value, FailuresUnder(es, b.generation), b.era, from)
    requires var e := es[|es| - 1]; e.Complete? && e.generation == b.generation
    requires Run(cfg, b, es[..|es| - 1]).generation == b.generation
    ensures Apply(cfg, Run(cfg, b, es[..|es| - 1]), es[|es| - 1]).state.Open?
  {
    var front, e := es[..|es| - 1], es[|es| - 1];
    var k := BeforeTheLast(cfg, b, es, start, from);
    BurstFront(es, b.generation, start, from, cfg.window.value.size);
    LastFailureOpens(cfg, b, Run(cfg, b, front), e, LastTime(start, front), k, from);
  }

  lemma {:induction false} RegimeEnds(cfg: Settings, b: Breaker, es: seq<Event>, start: int, from: int)
    requires WithTimeWindow(cfg) && b.state.Closed? && InOrder(b.era, start)
    requires Burst(es, b.generation, start, from, cfg.window.value.size)
    requires Enough(cfg.window.value, FailuresUnder(es, b.generation), b.era, from)
    ensures Run(cfg, b, es).generation > b.generation
  {
    var front, e := es[..|es| - 1], es[|es| - 1];
    BurstFront(es, b.generation, start, from, cfg.window.value.size);
    FailuresInWindow(cfg, b, front, start, from);
    GenerationStep(cfg, Run(cfg, b, front), e);
    if !(e.Complete? && e.generation == b.generation) {
      FailuresSnoc(es, b.generation);
      SameCount(e, b.generation);
      RegimeEnds(cfg, b, front, start, from);
    } else if Run(cfg, b, front).generation == b.generation {
      LastOfBurstOpens(cfg, b, es, start, from);
    }
  }

  /** The time window is reachable: failures within one window, at least MinimumCalls of them and
      the threshold share of themselves and the successes less than a window older, open a Closed
      circuit, whatever requests, looks at the state and stale outcomes come in between. */
  lemma FailuresInAWindowOpen(cfg: Settings, b: Breaker, es: seq<Event>, start: int, from: int) returns (k: nat)
    requires WithTimeWindow(cfg) && b.state.Closed? && InOrder(b.era, start)
    requires Burst(es, b.generation, start, from, cfg.window.value.size)
    requires Enough(cfg.window.value, FailuresUnder(es, b.generation), b.era, from)
    ensures k <= |es|
    ensures var after := Run(cfg, b, es[..k]);
            after.state.Open? && after.generation == b.generation + 1
  {
    RegimeEnds(cfg, b, es, start, from);
    k := FirstOpening(cfg, b, es);
  }
}
