// adaptive/adaptive.go over runs: how the limit moves in every interleaving, what one sample does
// that nobody disturbs, and how many successes it takes AIMD to raise the limit.
module AdaptiveRuns {
  import opened Basics
  import opened Modular
  import opened AdaptiveLimiter

  // ----- How the limit moves -----

  predicate AskedBy(cfg: Config, cur: int, next: int, minRTT: int, emaRTT: int, root: real) {
    && emaRTT > 0
    && if cfg.algorithm.Vegas? then next == VegasTarget(cfg, cur, minRTT, emaRTT)
       else IsRoot(root, cur) && next == GradientTarget(cfg, cur, minRTT, emaRTT, root)
  }

  /** Some latency sample asks to go from cur to next. */
  ghost predicate Asked(cfg: Config, cur: int, next: int) {
    exists minRTT, emaRTT, root :: AskedBy(cfg, cur, next, minRTT, emaRTT, root)
  }

  /** Each algorithm takes its own path, and what a thread is about to store is what its law asks
      for of the limit it loaded. */
  ghost predicate ByTheLaw(cfg: Config, pc: Thread) {
    match pc
    case TuneSwapping(cur, next) => !cfg.algorithm.AIMD? && Asked(cfg, cur, next)
    case FailSwapping(cur, next) => next == Max(cfg.minLimit, cur / 2)
    case _ =>
      if pc.CountingSuccess? || pc.ClearingSuccesses? || pc.RaiseLoading? || pc.RaiseSwapping?
      then cfg.algorithm.AIMD?
      else OnSuccessPath(pc) ==> !cfg.algorithm.AIMD?
  }

  ghost predicate LawInv(cfg: Config, s: State) {
    forall t :: t in s.threads ==> ByTheLaw(cfg, s.threads[t])
  }

  lemma SampleFollowsTheLaw(cfg: Config, s: State, t: nat, root: real)
    requires t in s.threads && ByTheLaw(cfg, s.threads[t]) && s.threads[t].ReadingLimit?
    ensures ByTheLaw(cfg, StepSample(cfg, s, t, s.threads[t], root).threads[t])
  {
    var ReadingLimit(minRTT, emaRTT) := s.threads[t];
    if emaRTT > 0 && (cfg.algorithm.Gradient2? ==> IsRoot(root, s.limit)) {
      var target := if cfg.algorithm.Vegas? then VegasTarget(cfg, s.limit, minRTT, emaRTT)
                    else GradientTarget(cfg, s.limit, minRTT, emaRTT, root);
      assert AskedBy(cfg, s.limit, target, minRTT, emaRTT, root);
    }
  }

  lemma ThreadFollowsTheLaw(cfg: Config, s: State, a: Action, t: nat)
    requires LawInv(cfg, s) && t in Apply(cfg, s, a).threads
    ensures ByTheLaw(cfg, Apply(cfg, s, a).threads[t])
  {
    if t in s.threads {
      assert ByTheLaw(cfg, s.threads[t]);
      if a.Advance? && a.t == t && s.threads[t].ReadingLimit? {
        SampleFollowsTheLaw(cfg, s, t, a.root);
      }
    }
  }

  lemma {:induction false} RunFollowsTheLaw(cfg: Config, actions: seq<Action>)
    ensures LawInv(cfg, Run(cfg, Init(cfg), actions))
  {
    if actions != [] {
      var front, a := actions[..|actions| - 1], actions[|actions| - 1];
      RunFollowsTheLaw(cfg, front);
      forall t | t in Run(cfg, Init(cfg), actions).threads
        ensures ByTheLaw(cfg, Run(cfg, Init(cfg), actions).threads[t])
      {
        ThreadFollowsTheLaw(cfg, Run(cfg, Init(cfg), front), a, t);
      }
    }
  }

  /** In every interleaving, lost swaps included, a step that moves the limit halves it for a
      failure, adds one under AIMD, or takes it where a latency sample asks it to go from where it
      is: no step acts on a limit that is no longer there. */
  lemma LimitMovesByLaw(cfg: Config, actions: seq<Action>, a: Action)
    ensures var s := Run(cfg, Init(cfg), actions);
            var next := Apply(cfg, s, a).limit;
            next == s.limit ||
            (a.Advance? && a.t in s.threads &&
             match s.threads[a.t]
             case FailSwapping(_, _) => next == Max(cfg.minLimit, s.limit / 2)
             case RaiseSwapping(_) => cfg.algorithm.AIMD? && next == s.limit + 1
             case TuneSwapping(_, _) => !cfg.algorithm.AIMD? && Asked(cfg, s.limit, next)
             case _ => false)
  {
    RunFollowsTheLaw(cfg, actions);
    var s := Run(cfg, Init(cfg), actions);
    if a.Advance? && a.t in s.threads {
      assert ByTheLaw(cfg, s.threads[a.t]);
    }
  }

  // ----- A thread on its own -----

  function Iterate<S>(f: S -> S, s: S, k: nat): S {
    if k == 0 then s else f(Iterate(f, s, k - 1))
  }

  lemma {:induction false} IterateAdds<S>(f: S -> S, s: S, j: nat, k: nat)
    ensures Iterate(f, Iterate(f, s, j), k) == Iterate(f, s, j + k)
  {
    if k > 0 {
      IterateAdds(f, s, j, k - 1);
    }
  }

  function StepOf(cfg: Config, t: nat, root: real): State -> State {
    (s: State) => Apply(cfg, s, Advance(t, root))
  }

  /** k steps of t with nothing in between. */
  function Alone(cfg: Config, s: State, t: nat, root: real, k: nat): State {
    Iterate(StepOf(cfg, t, root), s, k)
  }

  lemma AloneAdds(cfg: Config, s: State, t: nat, root: real, j: nat, k: nat)
    ensures Alone(cfg, Alone(cfg, s, t, root, j), t, root, k) == Alone(cfg, s, t, root, j + k)
  {
    IterateAdds(StepOf(cfg, t, root), s, j, k);
  }

  lemma StepAlone(cfg: Config, s: State, t: nat, root: real)
    ensures Alone(cfg, s, t, root, 1) == Apply(cfg, s, Advance(t, root))
  {
    assert Iterate(StepOf(cfg, t, root), s, 0) == s;
  }

  lemma TwoAlone(cfg: Config, s: State, t: nat, root: real)
    ensures Alone(cfg, s, t, root, 2) == Apply(cfg, Apply(cfg, s, Advance(t, root)), Advance(t, root))
  {
    StepAlone(cfg, s, t, root);
    StepAlone(cfg, Alone(cfg, s, t, root, 1), t, root);
    AloneAdds(cfg, s, t, root, 1, 1);
  }

  lemma ThreeAlone(cfg: Config, s: State, t: nat, root: real)
    ensures Alone(cfg, s, t, root, 3)
         == Apply(cfg, Apply(cfg, Apply(cfg, s, Advance(t, root)), Advance(t, root)), Advance(t, root))
  {
    TwoAlone(cfg, s, t, root);
    StepAlone(cfg, Alone(cfg, s, t, root, 2), t, root);
    AloneAdds(cfg, s, t, root, 2, 1);
  }

  /** A call that arrives alone is let in exactly when fewer calls than the limit are in flight. */
  lemma AdmittedExactly(cfg: Config, s: State, t: nat, root: real)
    requires t !in s.threads
    ensures var u := Alone(cfg, Apply(cfg, s, Begin(t)), t, root, 3);
            if s.inFlight < s.limit
            then u == s.(threads := s.threads[t := Operating], inFlight := s.inFlight + 1)
            else u == s.(threads := s.threads[t := Refused])
  {
    ThreeAlone(cfg, Apply(cfg, s, Begin(t)), t, root);
    var loaded := Goto(s, t, LoadingLimit(s.inFlight));
    assert Apply(cfg, Apply(cfg, s, Begin(t)), Advance(t, root)) == loaded;
    var checked := Goto(s, t, if s.inFlight >= s.limit then Refused else Acquiring(s.inFlight));
    assert Apply(cfg, loaded, Advance(t, root)) == checked;
  }

  function Baseline(minRTT: int, rtt: int): int {
    if minRTT == 0 then rtt else Min(minRTT, rtt)
  }

  lemma BaselineAlone(cfg: Config, s: State, t: nat, rtt: int, root: real) returns (k: nat)
    requires t in s.threads && s.threads[t] == MinLoading(rtt)
    ensures Alone(cfg, s, t, root, k) == Goto(s, t, EmaLoading(rtt)).(minRTT := Baseline(s.minRTT, rtt))
  {
    if s.minRTT != 0 && rtt >= s.minRTT {
      k := 1;
      StepAlone(cfg, s, t, root);
    } else {
      k := 2;
      TwoAlone(cfg, s, t, root);
      assert Apply(cfg, s, Advance(t, root)) == Goto(s, t, MinSwapping(rtt, s.minRTT));
    }
  }

  lemma AverageAlone(cfg: Config, s: State, t: nat, rtt: int, root: real)
    requires t in s.threads && s.threads[t] == EmaLoading(rtt)
    ensures Alone(cfg, s, t, root, 2) == Goto(s, t, Sampling).(emaRTT := NextEma(cfg, s.emaRTT, rtt))
  {
    TwoAlone(cfg, s, t, root);
    var swapping := Goto(s, t, EmaSwapping(rtt, s.emaRTT, NextEma(cfg, s.emaRTT, rtt)));
    assert Apply(cfg, s, Advance(t, root)) == swapping;
    assert swapping.threads[t := Sampling] == s.threads[t := Sampling];
  }

  lemma ReadingAlone(cfg: Config, s: State, t: nat, root: real)
    requires t in s.threads && s.threads[t] == Sampling
    requires s.minRTT != 0 && s.emaRTT > 0 && s.samples + 1 >= MinSamples(cfg)
    ensures Alone(cfg, s, t, root, 3)
         == Goto(s, t, ReadingLimit(s.minRTT, s.emaRTT)).(samples := s.samples + 1)
  {
    ThreeAlone(cfg, s, t, root);
    var sampled := Goto(s, t, ReadingMin).(samples := s.samples + 1);
    assert Apply(cfg, s, Advance(t, root)) == sampled;
    var based := Goto(s, t, ReadingEma(s.minRTT)).(samples := s.samples + 1);
    assert Apply(cfg, sampled, Advance(t, root)) == based;
  }

  function Target(cfg: Config, limit: int, minRTT: int, emaRTT: int, root: real): int
    requires emaRTT > 0
  {
    if cfg.algorithm.Vegas? then VegasTarget(cfg, limit, minRTT, emaRTT)
    else GradientTarget(cfg, limit, minRTT, emaRTT, root)
  }

  lemma TuningAlone(cfg: Config, s: State, t: nat, root: real) returns (k: nat)
    requires t in s.threads && s.threads[t].ReadingLimit? && s.threads[t].emaRTT > 0
    requires cfg.algorithm.Gradient2? ==> IsRoot(root, s.limit)
    ensures Alone(cfg, s, t, root, k)
         == Goto(s, t, Leaving).(limit := Target(cfg, s.limit, s.threads[t].minRTT, s.threads[t].emaRTT, root))
  {
    var target := Target(cfg, s.limit, s.threads[t].minRTT, s.threads[t].emaRTT, root);
    if target == s.limit {
      k := 1;
      StepAlone(cfg, s, t, root);
    } else {
      k := 2;
      TwoAlone(cfg, s, t, root);
      assert Apply(cfg, s, Advance(t, root)) == Goto(s, t, TuneSwapping(s.limit, target));
    }
  }

  /** From the average on: the sample is counted, and once enough are in the limit moves. */
  lemma CountedAlone(cfg: Config, s: State, t: nat, root: real) returns (k: nat)
    requires t in s.threads && s.threads[t] == Sampling && s.minRTT != 0 && s.emaRTT > 0
    requires cfg.algorithm.Gradient2? ==> IsRoot(root, s.limit)
    ensures Alone(cfg, s, t, root, k)
         == Goto(s, t, Leaving).(samples := s.samples + 1,
                                 limit := if s.samples + 1 < MinSamples(cfg) then s.limit
                                          else Target(cfg, s.limit, s.minRTT, s.emaRTT, root))
  {
    if s.samples + 1 < MinSamples(cfg) {
      k := 1;
      StepAlone(cfg, s, t, root);
    } else {
      ReadingAlone(cfg, s, t, root);
      var read := Alone(cfg, s, t, root, 3);
      var j := TuningAlone(cfg, read, t, root);
      AloneAdds(cfg, s, t, root, 3, j);
      k := 3 + j;
      assert read.threads[t := Leaving] == s.threads[t := Leaving];
    }
  }

  /** Up to the average: the sample lowers the baseline and is averaged in. */
  lemma AveragedAlone(cfg: Config, s: State, t: nat, rtt: int, root: real) returns (k: nat)
    requires t in s.threads && s.threads[t] == MinLoading(rtt)
    ensures Alone(cfg, s, t, root, k)
         == Goto(s, t, Sampling).(minRTT := Baseline(s.minRTT, rtt), emaRTT := NextEma(cfg, s.emaRTT, rtt))
  {
    var i := BaselineAlone(cfg, s, t, rtt, root);
    var based := Alone(cfg, s, t, root, i);
    AverageAlone(cfg, based, t, rtt, root);
    AloneAdds(cfg, s, t, root, i, 2);
    k := i + 2;
    assert based.threads[t := Sampling] == s.threads[t := Sampling];
  }

  lemma SampleIsAbove(cfg: Config, s: State, t: nat, rtt: int)
    requires cfg.Usable() && RTTInv(cfg, s) && t in s.threads && s.threads[t] == MinLoading(rtt)
    ensures NextEma(cfg, s.emaRTT, rtt) >= Baseline(s.minRTT, rtt) > 0
  {
    assert SampleOK(cfg, s, s.threads[t]);
    NextEmaStaysAbove(cfg, s.emaRTT, rtt, Baseline(s.minRTT, rtt));
  }

  lemma ReturnBringsASample(cfg: Config, s: State, t: nat, rtt: int) returns (back: State)
    requires cfg.Usable() && !cfg.algorithm.AIMD? && RTTInv(cfg, s) && t in s.threads && s.threads[t] == Operating
    requires rtt > 0
    ensures back == Apply(cfg, s, Return(t, true, rtt)) == Goto(s, t, MinLoading(rtt))
    ensures NextEma(cfg, s.emaRTT, rtt) >= Baseline(s.minRTT, rtt) > 0
  {
    back := Apply(cfg, s, Return(t, true, rtt));
    ApplyKeepsRTT(cfg, s, Return(t, true, rtt));
    SampleIsAbove(cfg, back, t, rtt);
  }

  function SamplesNeeded(cfg: Config): int {
    match cfg.algorithm
    case AIMD => 0
    case Vegas => cfg.vegasMinSamples
    case Gradient2 => cfg.gradientMinSamples
  }

  /** What a success with a latency does when nobody disturbs it, under the other two algorithms: it
      lowers the baseline, is averaged in, and once enough samples are in moves the limit to where
      the two ask it to go. */
  lemma UndisturbedSample(cfg: Config, s: State, t: nat, rtt: int, root: real) returns (k: nat)
    requires cfg.Usable() && !cfg.algorithm.AIMD? && RTTInv(cfg, s) && t in s.threads && s.threads[t] == Operating
    requires rtt > 0 && (cfg.algorithm.Gradient2? ==> IsRoot(root, s.limit))
    ensures var minRTT, emaRTT := Baseline(s.minRTT, rtt), NextEma(cfg, s.emaRTT, rtt);
            && emaRTT >= minRTT > 0
            && Alone(cfg, Apply(cfg, s, Return(t, true, rtt)), t, root, k)
               == Goto(s, t, Leaving).(minRTT := minRTT, emaRTT := emaRTT, samples := s.samples + 1,
                                       limit := if s.samples + 1 < SamplesNeeded(cfg) then s.limit
                                                else Target(cfg, s.limit, minRTT, emaRTT, root))
  {
    var back := ReturnBringsASample(cfg, s, t, rtt);
    var i := AveragedAlone(cfg, back, t, rtt, root);
    var averaged := Alone(cfg, back, t, root, i);
    var j := CountedAlone(cfg, averaged, t, root);
    AloneAdds(cfg, back, t, root, i, j);
    k := i + j;
    assert averaged.threads[t := Leaving] == s.threads[t := Leaving];
  }

  /** The average moves towards the sample by its weight, an eighth for Vegas and the configured
      share for Gradient2, and rounds down. */
  lemma EmaIsWeighted(cfg: Config, cur: int, rtt: int)
    requires cfg.Usable() && cur >= 0 && rtt > 0
    ensures cur == 0 ==> NextEma(cfg, cur, rtt) == rtt
    ensures cur > 0 ==>
              var share := if cfg.algorithm.Vegas? then 0.125 else cfg.gradientSmoothing;
              var mean := cur as real + share * (rtt - cur) as real;
              NextEma(cfg, cur, rtt) as real <= mean < NextEma(cfg, cur, rtt) as real + 1.0
  {
    if cur > 0 && !cfg.algorithm.Vegas? {
      var share := cfg.gradientSmoothing;
      WeightedMean(cur as real, rtt as real, share);
    }
  }

  lemma WeightedMean(a: real, b: real, share: real)
    ensures a * (1.0 - share) + b * share == a + share * (b - a)
  {
    assert a * (1.0 - share) == a - a * share;
    assert share * (b - a) == b * share - a * share;
  }

  lemma FailingAlone(cfg: Config, s: State, t: nat, root: real) returns (k: nat)
    requires t in s.threads && s.threads[t] == FailClearing
    ensures Alone(cfg, s, t, root, k)
         == Goto(s, t, Leaving).(successes := 0, limit := Max(cfg.minLimit, s.limit / 2))
  {
    var cleared := Goto(s, t, FailLoading).(successes := 0);
    var next := Max(cfg.minLimit, s.limit / 2);
    if next == s.limit {
      k := 2;
      TwoAlone(cfg, s, t, root);
      assert Apply(cfg, s, Advance(t, root)) == cleared;
    } else {
      k := 3;
      ThreeAlone(cfg, s, t, root);
      assert Apply(cfg, s, Advance(t, root)) == cleared;
      var swapping := Goto(s, t, FailSwapping(s.limit, next)).(successes := 0);
      assert Apply(cfg, cleared, Advance(t, root)) == swapping;
    }
    assert cleared.threads[t := Leaving] == s.threads[t := Leaving];
  }

  lemma RaisingAlone(cfg: Config, s: State, t: nat, root: real) returns (k: nat)
    requires t in s.threads && s.threads[t] == RaiseLoading
    ensures Alone(cfg, s, t, root, k)
         == Goto(s, t, Leaving).(limit := if s.limit < cfg.maxLimit then s.limit + 1 else s.limit)
  {
    if s.limit < cfg.maxLimit {
      k := 2;
      TwoAlone(cfg, s, t, root);
      assert Apply(cfg, s, Advance(t, root)) == Goto(s, t, RaiseSwapping(s.limit));
    } else {
      k := 1;
      StepAlone(cfg, s, t, root);
    }
  }

  lemma CountingAlone(cfg: Config, s: State, t: nat, root: real) returns (k: nat)
    requires t in s.threads && s.threads[t] == CountingSuccess
    ensures Alone(cfg, s, t, root, k)
         == if s.successes + 1 < cfg.successThreshold then Goto(s, t, Leaving).(successes := s.successes + 1)
            else Goto(s, t, Leaving).(successes := 0, limit := if s.limit < cfg.maxLimit then s.limit + 1 else s.limit)
  {
    if s.successes + 1 < cfg.successThreshold {
      k := 1;
      StepAlone(cfg, s, t, root);
    } else {
      TwoAlone(cfg, s, t, root);
      assert Apply(cfg, s, Advance(t, root)) == Goto(s, t, ClearingSuccesses).(successes := s.successes + 1);
      var raising := Alone(cfg, s, t, root, 2);
      assert raising == Goto(s, t, RaiseLoading).(successes := 0);
      var j := RaisingAlone(cfg, raising, t, root);
      AloneAdds(cfg, s, t, root, 2, j);
      k := 2 + j;
    }
  }

  /** What a call does to the limiter when it comes back and nobody disturbs it: a failure halves
      the limit and starts the count of consecutive successes over; a success counts, and the one
      that reaches SuccessThreshold raises the limit and starts over, under AIMD; and under the
      other two algorithms a latency that is not positive is no sample. */
  lemma UndisturbedReturn(cfg: Config, s: State, t: nat, ok: bool, rtt: int, root: real) returns (k: nat)
    requires t in s.threads && s.threads[t] == Operating && (!ok || cfg.algorithm.AIMD? || rtt <= 0)
    ensures Alone(cfg, Apply(cfg, s, Return(t, ok, rtt)), t, root, k)
         == if !ok then Goto(s, t, Leaving).(successes := 0, limit := Max(cfg.minLimit, s.limit / 2))
            else if !cfg.algorithm.AIMD? then Goto(s, t, Leaving)
            else if s.successes + 1 < cfg.successThreshold then Goto(s, t, Leaving).(successes := s.successes + 1)
            else Goto(s, t, Leaving).(successes := 0, limit := if s.limit < cfg.maxLimit then s.limit + 1 else s.limit)
  {
    var back := Apply(cfg, s, Return(t, ok, rtt));
    assert back.threads[t := Leaving] == s.threads[t := Leaving];
    if !ok {
      k := FailingAlone(cfg, back, t, root);
    } else if cfg.algorithm.AIMD? {
      k := CountingAlone(cfg, back, t, root);
    } else {
      k := 0;
    }
  }
}
