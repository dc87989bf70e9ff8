// adaptive/adaptive.go and adaptive/config.go: the adaptive concurrency limiter under
// interleaving. Every atomic load, add, store and compare-and-swap is one step of one
// Execute; a compare-and-swap that loses goes back to its load.
module AdaptiveLimiter {
  import opened Basics
  import opened Modular

  datatype Algorithm = AIMD | Vegas | Gradient2

  datatype Config = Config(
    algorithm: Algorithm,
    initialLimit: int,
    minLimit: int,
    maxLimit: int,
    successThreshold: int,
    vegasAlpha: int,
    vegasBeta: int,
    vegasMinSamples: int,
    gradientMinSamples: int,
    gradientSmoothing: real)
  {
    predicate Usable() {
      && 1 <= minLimit <= initialLimit <= maxLimit
      && successThreshold >= 1
      && 1 <= vegasAlpha < vegasBeta
      && vegasMinSamples >= 1 && gradientMinSamples >= 1
      && 0.0 < gradientSmoothing <= 1.0
    }
  }

  /** The three limits, clamped in the order of setDefaults. */
  method ClampLimits(c: Config) returns (initialLimit: int, minLimit: int, maxLimit: int)
    ensures 1 <= minLimit <= initialLimit <= maxLimit
    ensures 1 <= c.minLimit <= c.initialLimit <= c.maxLimit ==>
              (initialLimit, minLimit, maxLimit) == (c.initialLimit, c.minLimit, c.maxLimit)
    ensures minLimit == Max(c.minLimit, 1)
    ensures maxLimit == Max(if c.maxLimit >= 1 then c.maxLimit else 200, minLimit)
    ensures initialLimit == Min(Max(if c.initialLimit >= 1 then c.initialLimit else 10, minLimit), maxLimit)
  {
    initialLimit, minLimit, maxLimit := c.initialLimit, c.minLimit, c.maxLimit;
    if minLimit <= 0 {
      minLimit := 1;
    }
    if maxLimit <= 0 {
      maxLimit := 200;
    }
    if maxLimit < minLimit {
      maxLimit := minLimit;
    }
    if initialLimit <= 0 {
      initialLimit := 10;
    }
    if initialLimit < minLimit {
      initialLimit := minLimit;
    }
    if initialLimit > maxLimit {
      initialLimit := maxLimit;
    }
  }

  /** Whatever was configured, the limiter starts usable; a usable configuration is kept, and
      where bounds conflict MinLimit wins over MaxLimit and both over InitialLimit. */
  method SetDefaults(c: Config) returns (d: Config)
    ensures d.Usable()
    ensures c.Usable() ==> d == c
    ensures d.algorithm == c.algorithm
    ensures d.minLimit == Max(c.minLimit, 1)
    ensures d.maxLimit == Max(if c.maxLimit >= 1 then c.maxLimit else 200, d.minLimit)
    ensures d.initialLimit == Min(Max(if c.initialLimit >= 1 then c.initialLimit else 10, d.minLimit), d.maxLimit)
    ensures d.successThreshold == if c.successThreshold >= 1 then c.successThreshold else 10
    ensures d.vegasAlpha == if c.vegasAlpha >= 1 then c.vegasAlpha else 3
    ensures d.vegasBeta == if c.vegasBeta > d.vegasAlpha then c.vegasBeta else 2 * d.vegasAlpha
    ensures d.vegasMinSamples == if c.vegasMinSamples >= 1 then c.vegasMinSamples else 10
    ensures d.gradientMinSamples == if c.gradientMinSamples >= 1 then c.gradientMinSamples else 10
    ensures d.gradientSmoothing == if 0.0 < c.gradientSmoothing <= 1.0 then c.gradientSmoothing else 0.2
  {
    var Config(algorithm, _, _, _, successThreshold, alpha, beta, vegasSamples, gradientSamples, smoothing) := c;
    var initialLimit, minLimit, maxLimit := ClampLimits(c);
    if successThreshold <= 0 {
      successThreshold := 10;
    }
    if alpha <= 0 {
      alpha := 3;
    }
    if beta <= alpha {
      beta := alpha * 2;
    }
    if beta <= 0 {
      beta := 6;
    }
    if vegasSamples <= 0 {
      vegasSamples := 10;
    }
    if gradientSamples <= 0 {
      gradientSamples := 10;
    }
    if smoothing <= 0.0 || smoothing > 1.0 {
      smoothing := 0.2;
    }
    d := Config(algorithm, initialLimit, minLimit, maxLimit, successThreshold,
                alpha, beta, vegasSamples, gradientSamples, smoothing);
  }

  // ----- The control arithmetic -----

  /** Halving on failure, with a floor. */
  function AfterFailure(cfg: Config, limit: int): int {
    Max(limit / 2, cfg.minLimit)
  }

  function NextEma(cfg: Config, cur: int, rtt: int): int {
    if cur == 0 then rtt
    else if cfg.algorithm.Vegas? then (cur * 7 + rtt) / 8
    else (cur as real * (1.0 - cfg.gradientSmoothing) + rtt as real * cfg.gradientSmoothing).Floor
  }

  /** Go's integer division truncates toward zero. */
  function GoDiv(a: int, b: int): int
    requires b > 0
  {
    if a >= 0 then a / b else -((-a) / b)
  }

  /** The limit a Vegas sample asks for. */
  function VegasTarget(cfg: Config, limit: int, minRTT: int, emaRTT: int): int
    requires emaRTT > 0
  {
    var queue := GoDiv(limit * (emaRTT - minRTT), emaRTT);
    if queue < cfg.vegasAlpha then (if limit < cfg.maxLimit then limit + 1 else limit)
    else if queue > cfg.vegasBeta then (if limit > cfg.minLimit then limit - 1 else limit)
    else limit
  }

  /** Stands for math.Sqrt: a Gradient2 step is taken with the root of the limit it read. */
  predicate IsRoot(root: real, limit: int) {
    root >= 0.0 && root * root == limit as real
  }

  /** The baseline's share of the average, kept between a half and one. */
  function Gradient(minRTT: int, emaRTT: int): (g: real)
    requires emaRTT > 0
    ensures 0.5 <= g <= 1.0
  {
    var ratio := minRTT as real / emaRTT as real;
    if ratio < 0.5 then 0.5 else if ratio > 1.0 then 1.0 else ratio
  }

  function Clamp(cfg: Config, target: int): int {
    var floored := if target < cfg.minLimit then cfg.minLimit else target;
    if floored > cfg.maxLimit then cfg.maxLimit else floored
  }

  /** The limit a Gradient2 sample asks for; root stands for the square root of limit. */
  function GradientTarget(cfg: Config, limit: int, minRTT: int, emaRTT: int, root: real): int
    requires emaRTT > 0
  {
    Clamp(cfg, (limit as real * Gradient(minRTT, emaRTT) + root).Floor)
  }

  // ----- Threads -----

  datatype Thread =
    // tryAcquire
    | LoadingInFlight
    | LoadingLimit(cur: int)
    | Acquiring(cur: int)               // cur is below the limit just loaded
    | Refused
    // holding an in-flight slot
    | Operating
    | CountingSuccess                   // aimdOnSuccess
    | ClearingSuccesses
    | RaiseLoading
    | RaiseSwapping(cur: int)
    | MinLoading(rtt: int)              // vegasOnSuccess, gradient2OnSuccess
    | MinSwapping(rtt: int, cur: int)
    | EmaLoading(rtt: int)
    | EmaSwapping(rtt: int, cur: int, next: int)
    | Sampling
    | ReadingMin
    | ReadingEma(minRTT: int)
    | ReadingLimit(minRTT: int, emaRTT: int)
    | TuneSwapping(cur: int, next: int)
    | FailClearing                      // onFailure
    | FailLoading
    | FailSwapping(cur: int, next: int)
    | Leaving                           // about to give the slot back
    | Left

  datatype State = State(
    limit: int,
    inFlight: int,
    successes: int,
    minRTT: int,
    emaRTT: int,
    samples: int,
    threads: map<nat, Thread>)

  datatype Action =
    | Begin(t: nat)
    | Return(t: nat, ok: bool, rtt: int)
    | Advance(t: nat, root: real)

  function Init(cfg: Config): State {
    State(cfg.initialLimit, 0, 0, 0, 0, 0, map[])
  }

  function Goto(s: State, t: nat, pc: Thread): State {
    s.(threads := s.threads[t := pc])
  }

  function Apply(cfg: Config, s: State, a: Action): State {
    match a
    case Begin(t) => if t in s.threads then s else Goto(s, t, LoadingInFlight)
    case Return(t, ok, rtt) =>
      if t in s.threads && s.threads[t].Operating? then
        Goto(s, t, if !ok then FailClearing
                   else if cfg.algorithm.AIMD? then CountingSuccess
                   else if rtt <= 0 then Leaving else MinLoading(rtt))
      else s
    case Advance(t, root) => if t in s.threads then Step(cfg, s, t, root) else s
  }

  function Step(cfg: Config, s: State, t: nat, root: real): State
    requires t in s.threads
  {
    var pc := s.threads[t];
    if pc.LoadingInFlight? || pc.LoadingLimit? || pc.Acquiring? then StepAcquire(s, t, pc)
    else if pc.MinLoading? || pc.MinSwapping? || pc.EmaLoading? || pc.EmaSwapping? then StepRTT(cfg, s, t, pc)
    else if pc.Sampling? || pc.ReadingMin? || pc.ReadingEma? || pc.ReadingLimit? then StepSample(cfg, s, t, pc, root)
    else StepLimit(cfg, s, t, pc)
  }

  function StepAcquire(s: State, t: nat, pc: Thread): State {
    match pc
    case LoadingInFlight => Goto(s, t, LoadingLimit(s.inFlight))
    case LoadingLimit(cur) => Goto(s, t, if cur >= s.limit then Refused else Acquiring(cur))
    case Acquiring(cur) =>
      if s.inFlight == cur then Goto(s, t, Operating).(inFlight := cur + 1) else Goto(s, t, LoadingInFlight)
    case _ => s
  }

  function StepRTT(cfg: Config, s: State, t: nat, pc: Thread): State {
    match pc
    case MinLoading(rtt) =>
      Goto(s, t, if s.minRTT != 0 && rtt >= s.minRTT then EmaLoading(rtt) else MinSwapping(rtt, s.minRTT))
    case MinSwapping(rtt, cur) =>
      if s.minRTT == cur then Goto(s, t, EmaLoading(rtt)).(minRTT := rtt) else Goto(s, t, MinLoading(rtt))
    case EmaLoading(rtt) => Goto(s, t, EmaSwapping(rtt, s.emaRTT, NextEma(cfg, s.emaRTT, rtt)))
    case EmaSwapping(rtt, cur, next) =>
      if s.emaRTT == cur then Goto(s, t, Sampling).(emaRTT := next) else Goto(s, t, EmaLoading(rtt))
    case _ => s
  }

  function MinSamples(cfg: Config): int {
    if cfg.algorithm.Vegas? then cfg.vegasMinSamples else cfg.gradientMinSamples
  }

  function StepSample(cfg: Config, s: State, t: nat, pc: Thread, root: real): State {
    match pc
    case Sampling =>
      Goto(s, t, if s.samples + 1 < MinSamples(cfg) then Leaving else ReadingMin).(samples := s.samples + 1)
    case ReadingMin => Goto(s, t, ReadingEma(s.minRTT))
    case ReadingEma(minRTT) =>
      Goto(s, t, if minRTT == 0 || s.emaRTT == 0 then Leaving else ReadingLimit(minRTT, s.emaRTT))
    case ReadingLimit(minRTT, emaRTT) =>
      if emaRTT <= 0 || (cfg.algorithm.Gradient2? && !IsRoot(root, s.limit)) then s else
        var target := if cfg.algorithm.Vegas? then VegasTarget(cfg, s.limit, minRTT, emaRTT)
                      else GradientTarget(cfg, s.limit, minRTT, emaRTT, root);
        Goto(s, t, if target == s.limit then Leaving else TuneSwapping(s.limit, target))
    case _ => s
  }

  function StepLimit(cfg: Config, s: State, t: nat, pc: Thread): State {
    match pc
    case CountingSuccess =>
      Goto(s, t, if s.successes + 1 < cfg.successThreshold then Leaving else ClearingSuccesses)
        .(successes := s.successes + 1)
    case ClearingSuccesses => Goto(s, t, RaiseLoading).(successes := 0)
    case RaiseLoading => Goto(s, t, if s.limit >= cfg.maxLimit then Leaving else RaiseSwapping(s.limit))
    case RaiseSwapping(cur) =>
      if s.limit == cur then Goto(s, t, Leaving).(limit := cur + 1) else Goto(s, t, RaiseLoading)
    case TuneSwapping(cur, next) =>
      if s.limit == cur then Goto(s, t, Leaving).(limit := next) else Goto(s, t, Leaving)
    case FailClearing => Goto(s, t, FailLoading).(successes := 0)
    case FailLoading =>
      var next := AfterFailure(cfg, s.limit);
      Goto(s, t, if next == s.limit then Leaving else FailSwapping(s.limit, next))
    case FailSwapping(cur, next) =>
      if s.limit == cur then Goto(s, t, Leaving).(limit := next) else Goto(s, t, FailLoading)
    case Leaving => Goto(s, t, Left).(inFlight := s.inFlight - 1)
    case _ => s
  }

  function Run(cfg: Config, s: State, actions: seq<Action>): State {
    if actions == [] then s else Apply(cfg, Run(cfg, s, actions[..|actions| - 1]), actions[|actions| - 1])
  }

  // ----- Invariants -----

  /** Admitted and not finished. */
  predicate InFlight(pc: Thread) {
    !(pc.LoadingInFlight? || pc.LoadingLimit? || pc.Acquiring? || pc.Refused? || pc.Left?)
  }

  /** A limit a thread is about to store lies within the bounds. */
  predicate LimitOK(cfg: Config, pc: Thread) {
    match pc
    case Acquiring(cur) => cur < cfg.maxLimit
    case RaiseSwapping(cur) => cfg.minLimit <= cur < cfg.maxLimit
    case TuneSwapping(_, next) => cfg.minLimit <= next <= cfg.maxLimit
    case FailSwapping(_, next) => cfg.minLimit <= next <= cfg.maxLimit
    case _ => true
  }

  ghost predicate LimitInv(cfg: Config, s: State) {
    && cfg.minLimit <= s.limit <= cfg.maxLimit
    && (forall t :: t in s.threads ==> LimitOK(cfg, s.threads[t]))
  }

  ghost predicate SlotInv(cfg: Config, s: State) {
    s.inFlight == Tally(s.threads, InFlight) && s.inFlight <= cfg.maxLimit
  }

  /** A sample on its way into the averages is positive and, once past the baseline, not below it. */
  predicate SampleOK(cfg: Config, s: State, pc: Thread) {
    match pc
    case MinLoading(rtt) => rtt > 0
    case MinSwapping(rtt, cur) => rtt > 0 && (cur == 0 || rtt < cur)
    case EmaLoading(rtt) => 0 < s.minRTT <= rtt
    case EmaSwapping(rtt, cur, next) => 0 < s.minRTT <= rtt && next == NextEma(cfg, cur, rtt)
    case Sampling => 0 < s.emaRTT
    case _ => true
  }

  ghost predicate RTTInv(cfg: Config, s: State) {
    && s.minRTT >= 0 && s.samples >= 0
    && (s.emaRTT != 0 ==> 0 < s.minRTT <= s.emaRTT)
    && (s.samples > 0 ==> s.emaRTT > 0)
    && (forall t :: t in s.threads ==> SampleOK(cfg, s, s.threads[t]))
  }

  ghost predicate Inv(cfg: Config, s: State) {
    LimitInv(cfg, s) && SlotInv(cfg, s) && RTTInv(cfg, s)
  }

  /** The moving average of samples not below the baseline is not below it, rounding included. */
  lemma NextEmaStaysAbove(cfg: Config, cur: int, rtt: int, low: int)
    requires cfg.Usable() && 0 < low <= rtt && (cur == 0 || low <= cur)
    ensures NextEma(cfg, cur, rtt) >= low
  {
    if cur != 0 && !cfg.algorithm.Vegas? {
      var alpha := cfg.gradientSmoothing;
      var mean := cur as real * (1.0 - alpha) + rtt as real * alpha;
      assert (cur - low) as real * (1.0 - alpha) >= 0.0;
      assert (rtt - low) as real * alpha >= 0.0;
      assert mean - low as real == (cur - low) as real * (1.0 - alpha) + (rtt - low) as real * alpha;
    }
  }

  lemma TargetsStayInBounds(cfg: Config, limit: int, minRTT: int, emaRTT: int, root: real)
    requires cfg.Usable() && cfg.minLimit <= limit <= cfg.maxLimit && emaRTT > 0
    ensures cfg.minLimit <= VegasTarget(cfg, limit, minRTT, emaRTT) <= cfg.maxLimit
    ensures cfg.minLimit <= GradientTarget(cfg, limit, minRTT, emaRTT, root) <= cfg.maxLimit
  {
  }

  lemma SampleStepKeepsLimit(cfg: Config, s: State, t: nat, root: real)
    requires cfg.Usable() && LimitInv(cfg, s) && t in s.threads
    ensures LimitInv(cfg, StepSample(cfg, s, t, s.threads[t], root))
  {
    match s.threads[t]
    case ReadingLimit(minRTT, emaRTT) =>
      if emaRTT > 0 {
        TargetsStayInBounds(cfg, s.limit, minRTT, emaRTT, root);
      }
    case _ =>
  }

  lemma LimitStepKeepsLimit(cfg: Config, s: State, t: nat)
    requires cfg.Usable() && LimitInv(cfg, s) && t in s.threads
    ensures LimitInv(cfg, StepLimit(cfg, s, t, s.threads[t]))
  {
    assert LimitOK(cfg, s.threads[t]);
  }

  lemma ApplyKeepsLimit(cfg: Config, s: State, a: Action)
    requires cfg.Usable() && LimitInv(cfg, s)
    ensures LimitInv(cfg, Apply(cfg, s, a))
  {
    if a.Advance? && a.t in s.threads {
      SampleStepKeepsLimit(cfg, s, a.t, a.root);
      LimitStepKeepsLimit(cfg, s, a.t);
    }
  }

  lemma GotoSlots(s: State, t: nat, pc: Thread)
    ensures Tally(s.threads[t := pc], InFlight)
            == Tally(s.threads, InFlight)
               - (if t in s.threads && InFlight(s.threads[t]) then 1 else 0) + (if InFlight(pc) then 1 else 0)
  {
    TallyUpdate(s.threads, t, pc, InFlight);
  }

  /** A thread moves and the counter follows exactly its entering or leaving flight. */
  lemma ThreadMoves(cfg: Config, s: State, t: nat, after: State)
    requires SlotInv(cfg, s) && t in after.threads
    requires after.threads == s.threads[t := after.threads[t]]
    requires after.inFlight == s.inFlight - (if t in s.threads && InFlight(s.threads[t]) then 1 else 0)
                                          + (if InFlight(after.threads[t]) then 1 else 0)
    requires after.inFlight <= cfg.maxLimit
    ensures SlotInv(cfg, after)
  {
    GotoSlots(s, t, after.threads[t]);
  }

  lemma AcquireStepKeepsSlots(cfg: Config, s: State, t: nat)
    requires LimitInv(cfg, s) && SlotInv(cfg, s) && t in s.threads
    ensures SlotInv(cfg, StepAcquire(s, t, s.threads[t]))
  {
    var after := StepAcquire(s, t, s.threads[t]);
    assert LimitOK(cfg, s.threads[t]);
    if after != s {
      ThreadMoves(cfg, s, t, after);
    }
  }

  lemma RTTStepKeepsSlots(cfg: Config, s: State, t: nat)
    requires SlotInv(cfg, s) && t in s.threads
    ensures SlotInv(cfg, StepRTT(cfg, s, t, s.threads[t]))
  {
    var after := StepRTT(cfg, s, t, s.threads[t]);
    if after != s {
      ThreadMoves(cfg, s, t, after);
    }
  }

  lemma SampleStepKeepsSlots(cfg: Config, s: State, t: nat, root: real)
    requires SlotInv(cfg, s) && t in s.threads
    ensures SlotInv(cfg, StepSample(cfg, s, t, s.threads[t], root))
  {
    var after := StepSample(cfg, s, t, s.threads[t], root);
    if after != s {
      ThreadMoves(cfg, s, t, after);
    }
  }

  lemma LimitStepKeepsSlots(cfg: Config, s: State, t: nat)
    requires SlotInv(cfg, s) && t in s.threads
    ensures SlotInv(cfg, StepLimit(cfg, s, t, s.threads[t]))
  {
    var after := StepLimit(cfg, s, t, s.threads[t]);
    if after != s {
      ThreadMoves(cfg, s, t, after);
    }
  }

  lemma ApplyKeepsSlots(cfg: Config, s: State, a: Action)
    requires cfg.Usable() && LimitInv(cfg, s) && SlotInv(cfg, s)
    ensures SlotInv(cfg, Apply(cfg, s, a))
  {
    if a.Advance? {
      if a.t in s.threads {
        AcquireStepKeepsSlots(cfg, s, a.t);
        RTTStepKeepsSlots(cfg, s, a.t);
        SampleStepKeepsSlots(cfg, s, a.t, a.root);
        LimitStepKeepsSlots(cfg, s, a.t);
      }
    } else if Apply(cfg, s, a) != s {
      ThreadMoves(cfg, s, a.t, Apply(cfg, s, a));
    }
  }

  /** The averages change in one step only by a thread's own swap, downwards for the baseline. */
  lemma RTTStepKeepsRTT(cfg: Config, s: State, t: nat)
    requires cfg.Usable() && RTTInv(cfg, s) && t in s.threads
    ensures RTTInv(cfg, StepRTT(cfg, s, t, s.threads[t]))
  {
    var after := StepRTT(cfg, s, t, s.threads[t]);
    assert SampleOK(cfg, s, s.threads[t]);
    if s.threads[t].EmaSwapping? && s.emaRTT == s.threads[t].cur {
      NextEmaStaysAbove(cfg, s.emaRTT, s.threads[t].rtt, s.minRTT);
    }
    forall u | u in after.threads
      ensures SampleOK(cfg, after, after.threads[u])
    {
      assert SampleOK(cfg, s, s.threads[u]);
    }
  }

  /** A step that leaves the averages alone and puts no new sample on its way. */
  lemma OtherStepKeepsRTT(cfg: Config, s: State, t: nat, after: State)
    requires RTTInv(cfg, s) && t in after.threads
    requires (after.minRTT, after.emaRTT) == (s.minRTT, s.emaRTT)
    requires after.samples == s.samples || (after.samples == s.samples + 1 && s.emaRTT > 0)
    requires after.threads == s.threads[t := after.threads[t]]
    requires SampleOK(cfg, after, after.threads[t])
    ensures RTTInv(cfg, after)
  {
    forall u | u in after.threads
      ensures SampleOK(cfg, after, after.threads[u])
    {
      assert u == t || SampleOK(cfg, s, s.threads[u]);
    }
  }

  lemma AcquireStepKeepsRTT(cfg: Config, s: State, t: nat)
    requires RTTInv(cfg, s) && t in s.threads
    ensures RTTInv(cfg, StepAcquire(s, t, s.threads[t]))
  {
    var after := StepAcquire(s, t, s.threads[t]);
    if after != s {
      OtherStepKeepsRTT(cfg, s, t, after);
    }
  }

  lemma SampleStepKeepsRTT(cfg: Config, s: State, t: nat, root: real)
    requires RTTInv(cfg, s) && t in s.threads
    ensures RTTInv(cfg, StepSample(cfg, s, t, s.threads[t], root))
  {
    var after := StepSample(cfg, s, t, s.threads[t], root);
    assert SampleOK(cfg, s, s.threads[t]);
    if after != s {
      OtherStepKeepsRTT(cfg, s, t, after);
    }
  }

  lemma LimitStepKeepsRTT(cfg: Config, s: State, t: nat)
    requires RTTInv(cfg, s) && t in s.threads
    ensures RTTInv(cfg, StepLimit(cfg, s, t, s.threads[t]))
  {
    var after := StepLimit(cfg, s, t, s.threads[t]);
    if after != s {
      OtherStepKeepsRTT(cfg, s, t, after);
    }
  }

  lemma ApplyKeepsRTT(cfg: Config, s: State, a: Action)
    requires cfg.Usable() && RTTInv(cfg, s)
    ensures RTTInv(cfg, Apply(cfg, s, a))
  {
    if a.Advance? {
      if a.t in s.threads {
        AcquireStepKeepsRTT(cfg, s, a.t);
        RTTStepKeepsRTT(cfg, s, a.t);
        SampleStepKeepsRTT(cfg, s, a.t, a.root);
        LimitStepKeepsRTT(cfg, s, a.t);
      }
    } else if Apply(cfg, s, a) != s {
      OtherStepKeepsRTT(cfg, s, a.t, Apply(cfg, s, a));
    }
  }

  lemma {:induction false} RunKeepsInv(cfg: Config, actions: seq<Action>)
    requires cfg.Usable()
    ensures Inv(cfg, Run(cfg, Init(cfg), actions))
  {
    if actions == [] {
      TallyZero(Init(cfg).threads, InFlight);
    } else {
      var s := Run(cfg, Init(cfg), actions[..|actions| - 1]);
      RunKeepsInv(cfg, actions[..|actions| - 1]);
      ApplyKeepsLimit(cfg, s, actions[|actions| - 1]);
      ApplyKeepsSlots(cfg, s, actions[|actions| - 1]);
      ApplyKeepsRTT(cfg, s, actions[|actions| - 1]);
    }
  }

  // ----- What every interleaving guarantees -----

  /** For all three algorithms the limit stays within its bounds, and the in-flight counter is
      the number of admitted calls not yet finished, never above MaxLimit. */
  lemma LimitIsBounded(cfg: Config, actions: seq<Action>)
    requires cfg.Usable()
    ensures var s := Run(cfg, Init(cfg), actions);
            && cfg.minLimit <= s.limit <= cfg.maxLimit
            && s.inFlight == Tally(s.threads, InFlight) <= cfg.maxLimit
            && ((forall t :: t in s.threads ==> !InFlight(s.threads[t])) ==> s.inFlight == 0)
  {
    RunKeepsInv(cfg, actions);
    TallyZero(Run(cfg, Init(cfg), actions).threads, InFlight);
  }

  /** Once a latency has been sampled the average never falls below the positive baseline,
      despite every rounding and every lost swap. */
  lemma AverageStaysAboveBaseline(cfg: Config, actions: seq<Action>)
    requires cfg.Usable() && Run(cfg, Init(cfg), actions).samples > 0
    ensures var s := Run(cfg, Init(cfg), actions);
            s.emaRTT >= s.minRTT > 0
  {
    RunKeepsInv(cfg, actions);
  }

  // ----- Failures in a row -----

  function Pow2(k: nat): (p: nat)
    ensures p >= 1
  {
    if k == 0 then 1 else 2 * Pow2(k - 1)
  }

  function AfterFailures(cfg: Config, limit: int, k: nat): int {
    if k == 0 then limit else AfterFailure(cfg, AfterFailures(cfg, limit, k - 1))
  }

  lemma HalvingTwice(n: nat, p: nat)
    requires p >= 1
    ensures n / p / 2 == n / (2 * p)
  {
    var q, r := n / p, n % p;
    var h, b := q / 2, q % 2;
    assert n == (2 * h + b) * p + r;
    assert n == h * (2 * p) + (b * p + r);
    assert 0 <= b * p + r < 2 * p;
    QuotientIs(n, 2 * p, h, b * p + r);
  }

  lemma QuotientIs(n: nat, d: nat, q: int, r: int)
    requires d >= 1 && n == q * d + r && 0 <= r < d
    ensures n / d == q
  {
    var diff := n / d - q;
    assert diff * d == r - n % d;
    SmallLaps(diff, d);
  }

  /** k failures in a row leave the limit at its k-fold half, or at MinLimit. */
  lemma {:induction false} FailuresHalve(cfg: Config, limit: int, k: nat)
    requires cfg.Usable() && limit >= cfg.minLimit
    ensures AfterFailures(cfg, limit, k) == Max(cfg.minLimit, limit / Pow2(k))
  {
    if k > 0 {
      FailuresHalve(cfg, limit, k - 1);
      HalvingTwice(limit, Pow2(k - 1));
      var before := limit / Pow2(k - 1);
      assert Pow2(k) == 2 * Pow2(k - 1);
      assert before < cfg.minLimit ==> before / 2 <= cfg.minLimit / 2;
    }
  }

  // ----- Failures in every interleaving -----

  /** The thread is on its way to raise the limit, or to move it by a latency sample. */
  predicate OnSuccessPath(pc: Thread) {
    || pc.CountingSuccess? || pc.ClearingSuccesses? || pc.RaiseLoading? || pc.RaiseSwapping?
    || pc.MinLoading? || pc.MinSwapping? || pc.EmaLoading? || pc.EmaSwapping?
    || pc.Sampling? || pc.ReadingMin? || pc.ReadingEma? || pc.ReadingLimit? || pc.TuneSwapping?
  }

  /** The call was admitted, and its outcome has had its effect on the limit. */
  predicate Settled(pc: Thread) {
    pc.Leaving? || pc.Left?
  }

  /** What a failing thread is about to store is the halving of what it loaded. */
  predicate HalvingOK(cfg: Config, pc: Thread) {
    pc.FailSwapping? ==> pc.next == AfterFailure(cfg, pc.cur)
  }

  ghost predicate Halving(cfg: Config, s: State) {
    forall t :: t in s.threads ==> HalvingOK(cfg, s.threads[t])
  }

  ghost predicate NoSuccessPending(s: State) {
    forall t :: t in s.threads ==> !OnSuccessPath(s.threads[t])
  }

  predicate OnlyFailures(actions: seq<Action>) {
    forall i :: 0 <= i < |actions| && actions[i].Return? ==> !actions[i].ok
  }

  lemma ThreadKeepsHalving(cfg: Config, s: State, a: Action, t: nat)
    requires Halving(cfg, s) && t in Apply(cfg, s, a).threads
    ensures HalvingOK(cfg, Apply(cfg, s, a).threads[t])
  {
    if t in s.threads {
      assert HalvingOK(cfg, s.threads[t]);
    }
  }

  lemma {:induction false} RunKeepsHalving(cfg: Config, actions: seq<Action>)
    ensures Halving(cfg, Run(cfg, Init(cfg), actions))
  {
    if actions != [] {
      var front := actions[..|actions| - 1];
      RunKeepsHalving(cfg, front);
      forall t | t in Run(cfg, Init(cfg), actions).threads
        ensures HalvingOK(cfg, Run(cfg, Init(cfg), actions).threads[t])
      {
        ThreadKeepsHalving(cfg, Run(cfg, Init(cfg), front), actions[|actions| - 1], t);
      }
    }
  }

  /** One step of a thread that is not on a success path: it settles and halves the limit (or the
      limit is at its floor), or does neither. */
  lemma FallingStep(cfg: Config, s: State, t: nat, root: real)
    requires t in s.threads && !OnSuccessPath(s.threads[t]) && HalvingOK(cfg, s.threads[t])
    ensures var after := Step(cfg, s, t, root);
            && t in after.threads && after.threads == s.threads[t := after.threads[t]]
            && !OnSuccessPath(after.threads[t])
            && (Settled(s.threads[t]) ==> Settled(after.threads[t]))
            && after.limit == if Settled(after.threads[t]) && !Settled(s.threads[t])
                              then AfterFailure(cfg, s.limit) else s.limit
  {
    assert s.threads == s.threads[t := s.threads[t]];
  }

  /** The same for any action that brings no success. */
  lemma FallingAction(cfg: Config, s: State, a: Action)
    requires Halving(cfg, s) && NoSuccessPending(s) && (a.Return? ==> !a.ok)
    ensures var after := Apply(cfg, s, a);
            && NoSuccessPending(after)
            && Tally(after.threads, Settled) - Tally(s.threads, Settled) in {0, 1}
            && after.limit == if Tally(after.threads, Settled) == Tally(s.threads, Settled)
                              then s.limit else AfterFailure(cfg, s.limit)
  {
    var after := Apply(cfg, s, a);
    if a.t in s.threads {
      assert !OnSuccessPath(s.threads[a.t]) && HalvingOK(cfg, s.threads[a.t]);
      if a.Advance? {
        FallingStep(cfg, s, a.t, a.root);
      }
    }
    if after != s {
      TallyUpdate(s.threads, a.t, after.threads[a.t], Settled);
      assert after.threads == s.threads[a.t := after.threads[a.t]];
    }
  }

  lemma {:induction false} FailuresFrom(cfg: Config, s: State, actions: seq<Action>)
    requires cfg.Usable() && Halving(cfg, s) && NoSuccessPending(s) && OnlyFailures(actions)
    ensures var t := Run(cfg, s, actions);
            && Halving(cfg, t) && NoSuccessPending(t)
            && Tally(t.threads, Settled) >= Tally(s.threads, Settled)
            && t.limit == AfterFailures(cfg, s.limit, Tally(t.threads, Settled) - Tally(s.threads, Settled))
  {
    if actions != [] {
      var front, a := actions[..|actions| - 1], actions[|actions| - 1];
      FailuresFrom(cfg, s, front);
      var t := Run(cfg, s, front);
      forall u | u in Apply(cfg, t, a).threads
        ensures HalvingOK(cfg, Apply(cfg, t, a).threads[u])
      {
        ThreadKeepsHalving(cfg, t, a, u);
      }
      FallingAction(cfg, t, a);
    }
  }

  /** From any reachable state in which no success is on its way, and in every interleaving that
      brings only failures, lost swaps included: when k more calls have had their effect, the
      limit is max(MinLimit, limit / 2^k). */
  lemma FailuresInARow(cfg: Config, before: seq<Action>, actions: seq<Action>)
    requires cfg.Usable() && NoSuccessPending(Run(cfg, Init(cfg), before)) && OnlyFailures(actions)
    ensures var s := Run(cfg, Init(cfg), before);
            var t := Run(cfg, s, actions);
            && Tally(t.threads, Settled) >= Tally(s.threads, Settled)
            && t.limit == Max(cfg.minLimit, s.limit / Pow2(Tally(t.threads, Settled) - Tally(s.threads, Settled)))
  {
    var s := Run(cfg, Init(cfg), before);
    RunKeepsInv(cfg, before);
    RunKeepsHalving(cfg, before);
    FailuresFrom(cfg, s, actions);
    var t := Run(cfg, s, actions);
    FailuresHalve(cfg, s.limit, Tally(t.threads, Settled) - Tally(s.threads, Settled));
  }
}
