// adaptive/adaptive.go, aimdOnSuccess under interleaving: how many successes raise the limit.
// The add to the success counter and its clearing are two steps, so other successes can be
// counted in between.
module AdaptiveAIMD {
  import opened Basics
  import opened Modular
  import opened AdaptiveLimiter
  import AdaptiveRuns

  predicate IsClearing(pc: Thread) {
    pc.ClearingSuccesses?
  }

  predicate IsRaising(pc: Thread) {
    pc.RaiseLoading? || pc.RaiseSwapping?
  }

  predicate OnFailurePath(pc: Thread) {
    pc.FailClearing? || pc.FailLoading? || pc.FailSwapping?
  }

  /** The paths of the other two algorithms. */
  predicate OnLatencyPath(pc: Thread) {
    || pc.MinLoading? || pc.MinSwapping? || pc.EmaLoading? || pc.EmaSwapping?
    || pc.Sampling? || pc.ReadingMin? || pc.ReadingEma? || pc.ReadingLimit? || pc.TuneSwapping?
  }

  predicate MayAdd(pc: Thread) {
    !OnFailurePath(pc) && !OnLatencyPath(pc)
  }

  ghost predicate AllMayAdd(s: State) {
    forall t :: t in s.threads ==> MayAdd(s.threads[t])
  }

  ghost predicate NoFailurePending(s: State) {
    forall t :: t in s.threads ==> !OnFailurePath(s.threads[t])
  }

  predicate OnlySuccesses(actions: seq<Action>) {
    forall i :: 0 <= i < |actions| && actions[i].Return? ==> actions[i].ok
  }

  /** Nobody is between counting a success and having raised the limit for it. */
  predicate Settled(s: State) {
    Tally(s.threads, IsClearing) == 0 && Tally(s.threads, IsRaising) == 0
  }

  // ----- What a run of successes does -----

  predicate Counts(s: State, a: Action) {
    a.Advance? && a.t in s.threads && s.threads[a.t].CountingSuccess?
  }

  predicate Clears(s: State, a: Action) {
    a.Advance? && a.t in s.threads && s.threads[a.t].ClearingSuccesses?
  }

  /** The successes counted, the times the counter was cleared (each time on the way to a raise),
      and how far below SuccessThreshold - 1 the cleared counters were in all. */
  datatype Ledger = Ledger(counted: nat, cleared: nat, short: nat)

  function Kept(cfg: Config, successes: int): int {
    Min(successes, cfg.successThreshold - 1)
  }

  function Book(cfg: Config, s: State, actions: seq<Action>): Ledger
    requires cfg.successThreshold >= 1
  {
    if actions == [] then Ledger(0, 0, 0)
    else
      var before, a := Run(cfg, s, actions[..|actions| - 1]), actions[|actions| - 1];
      var Ledger(counted, cleared, short) := Book(cfg, s, actions[..|actions| - 1]);
      if Counts(before, a) then Ledger(counted + 1, cleared, short)
      else if Clears(before, a) then
        Ledger(counted, cleared + 1, short + (cfg.successThreshold - 1 - Kept(cfg, before.successes)))
      else Ledger(counted, cleared, short)
  }

  /** The successes counted so far pay SuccessThreshold for every clearing, but for what clearings
      that came too early were short of; and every clearing raises the limit by one or meets
      MaxLimit. */
  ghost predicate Balances(cfg: Config, s: State, t: State, book: Ledger) {
    && t.successes >= 0
    && s.successes + book.counted + book.short
       == book.cleared * cfg.successThreshold + Tally(t.threads, IsClearing) + Kept(cfg, t.successes)
    && (Tally(t.threads, IsClearing) == 0 ==> t.successes < cfg.successThreshold)
    && t.limit == Min(cfg.maxLimit, s.limit + book.cleared - Tally(t.threads, IsRaising))
  }

  ghost predicate Balanced(cfg: Config, s: State, t: State, book: Ledger) {
    && Balances(cfg, s, t, book)
    && AllMayAdd(t)
    && LimitInv(cfg, t)
  }

  lemma Moves(s: State, t: nat, after: State)
    requires t in after.threads && after.threads == s.threads[t := after.threads[t]]
    ensures Tally(after.threads, IsClearing)
         == Tally(s.threads, IsClearing) - (if t in s.threads && IsClearing(s.threads[t]) then 1 else 0)
            + (if IsClearing(after.threads[t]) then 1 else 0)
    ensures Tally(after.threads, IsRaising)
         == Tally(s.threads, IsRaising) - (if t in s.threads && IsRaising(s.threads[t]) then 1 else 0)
            + (if IsRaising(after.threads[t]) then 1 else 0)
  {
    TallyUpdate(s.threads, t, after.threads[t], IsClearing);
    TallyUpdate(s.threads, t, after.threads[t], IsRaising);
  }

  /** What the step of a thread moves. */
  lemma StepMoves(cfg: Config, s: State, t: nat, root: real)
    requires t in s.threads && cfg.algorithm.AIMD? && MayAdd(s.threads[t])
    ensures var after := Step(cfg, s, t, root);
            && t in after.threads && after.threads == s.threads[t := after.threads[t]]
            && MayAdd(after.threads[t])
            && (s.threads[t].CountingSuccess? ==>
                  && after.successes == s.successes + 1 && after.limit == s.limit && !IsRaising(after.threads[t])
                  && (IsClearing(after.threads[t]) <==> s.successes + 1 >= cfg.successThreshold))
            && (s.threads[t].ClearingSuccesses? ==>
                  after.successes == 0 && after.limit == s.limit && after.threads[t].RaiseLoading?)
            && (!s.threads[t].CountingSuccess? && !s.threads[t].ClearingSuccesses? ==>
                  after.successes == s.successes && !IsClearing(after.threads[t]))
            && (IsRaising(s.threads[t]) && !IsRaising(after.threads[t]) ==>
                  after.limit == s.limit + 1 || (after.limit == s.limit >= cfg.maxLimit))
            && (!IsRaising(s.threads[t]) || IsRaising(after.threads[t]) ==> after.limit == s.limit)
            && (!s.threads[t].ClearingSuccesses? && !IsRaising(s.threads[t]) ==> !IsRaising(after.threads[t]))
  {
    assert s.threads == s.threads[t := s.threads[t]];
  }

  /** Counting and clearing under any algorithm, failures included: only a caller on its way to
      clear it leaves the counter at the threshold. */
  ghost predicate CounterInv(cfg: Config, s: State) {
    s.successes >= 0 && (Tally(s.threads, IsClearing) == 0 ==> s.successes < cfg.successThreshold)
  }

  lemma StepKeepsCounter(cfg: Config, s: State, t: nat, root: real)
    requires cfg.Usable() && t in s.threads && s.successes >= 0
    ensures var after := Step(cfg, s, t, root);
            && t in after.threads && after.threads == s.threads[t := after.threads[t]]
            && (IsClearing(s.threads[t]) && !IsClearing(after.threads[t]) ==> after.successes == 0)
            && (after.successes == s.successes || after.successes == 0
                || (after.successes == s.successes + 1 && !IsClearing(s.threads[t])
                    && (IsClearing(after.threads[t]) <==> after.successes >= cfg.successThreshold)))
  {
    assert s.threads == s.threads[t := s.threads[t]];
  }

  lemma ActionKeepsCounter(cfg: Config, s: State, a: Action)
    requires cfg.Usable() && CounterInv(cfg, s)
    ensures CounterInv(cfg, Apply(cfg, s, a))
  {
    var after := Apply(cfg, s, a);
    if a.Advance? && a.t in s.threads {
      StepKeepsCounter(cfg, s, a.t, a.root);
    }
    if after != s {
      Moves(s, a.t, after);
    }
  }

  lemma {:induction false} RunKeepsCounter(cfg: Config, actions: seq<Action>)
    requires cfg.Usable()
    ensures CounterInv(cfg, Run(cfg, Init(cfg), actions))
  {
    if actions == [] {
      TallyZero(Init(cfg).threads, IsClearing);
    } else {
      RunKeepsCounter(cfg, actions[..|actions| - 1]);
      ActionKeepsCounter(cfg, Run(cfg, Init(cfg), actions[..|actions| - 1]), actions[|actions| - 1]);
    }
  }

  lemma CountingBalances(cfg: Config, s: State, t: State, a: Action, book: Ledger)
    requires cfg.Usable() && cfg.algorithm.AIMD? && Balanced(cfg, s, t, book) && Counts(t, a)
    ensures Balances(cfg, s, Apply(cfg, t, a), book.(counted := book.counted + 1))
  {
    StepMoves(cfg, t, a.t, a.root);
    Moves(t, a.t, Apply(cfg, t, a));
  }

  lemma ClearingBalances(cfg: Config, s: State, t: State, a: Action, book: Ledger)
    requires cfg.Usable() && cfg.algorithm.AIMD? && Balanced(cfg, s, t, book) && Clears(t, a)
    ensures var short := cfg.successThreshold - 1 - Kept(cfg, t.successes);
            short >= 0 &&
            Balances(cfg, s, Apply(cfg, t, a), Ledger(book.counted, book.cleared + 1, book.short + short))
  {
    StepMoves(cfg, t, a.t, a.root);
    Moves(t, a.t, Apply(cfg, t, a));
    assert (book.cleared + 1) * cfg.successThreshold == book.cleared * cfg.successThreshold + cfg.successThreshold;
  }

  lemma OtherStepBalances(cfg: Config, s: State, t: State, a: Action, book: Ledger)
    requires cfg.Usable() && cfg.algorithm.AIMD? && Balanced(cfg, s, t, book)
    requires a.Advance? && a.t in t.threads && !Counts(t, a) && !Clears(t, a)
    ensures Balances(cfg, s, Apply(cfg, t, a), book)
  {
    StepMoves(cfg, t, a.t, a.root);
    Moves(t, a.t, Apply(cfg, t, a));
    ApplyKeepsLimit(cfg, t, a);
  }

  /** A call that begins or comes back with a success moves no counter. */
  lemma ArrivalBalances(cfg: Config, s: State, t: State, a: Action, book: Ledger)
    requires cfg.Usable() && cfg.algorithm.AIMD? && Balanced(cfg, s, t, book)
    requires !a.Advance? && (a.Return? ==> a.ok)
    ensures Balances(cfg, s, Apply(cfg, t, a), book)
  {
    var after := Apply(cfg, t, a);
    if after != t {
      Moves(t, a.t, after);
    }
  }

  lemma ActionKeepsThreads(cfg: Config, t: State, a: Action)
    requires cfg.Usable() && cfg.algorithm.AIMD? && AllMayAdd(t) && LimitInv(cfg, t) && (a.Return? ==> a.ok)
    ensures AllMayAdd(Apply(cfg, t, a)) && LimitInv(cfg, Apply(cfg, t, a))
  {
    ApplyKeepsLimit(cfg, t, a);
    if a.Advance? && a.t in t.threads {
      StepMoves(cfg, t, a.t, a.root);
    }
  }

  lemma {:induction false} SuccessesBalance(cfg: Config, s: State, actions: seq<Action>)
    requires cfg.Usable() && cfg.algorithm.AIMD? && OnlySuccesses(actions)
    requires Settled(s) && AllMayAdd(s) && LimitInv(cfg, s) && CounterInv(cfg, s)
    ensures Balanced(cfg, s, Run(cfg, s, actions), Book(cfg, s, actions))
  {
    if actions != [] {
      var front, a := actions[..|actions| - 1], actions[|actions| - 1];
      SuccessesBalance(cfg, s, front);
      var t, book := Run(cfg, s, front), Book(cfg, s, front);
      ActionKeepsThreads(cfg, t, a);
      if Counts(t, a) {
        CountingBalances(cfg, s, t, a, book);
      } else if Clears(t, a) {
        ClearingBalances(cfg, s, t, a, book);
      } else if a.Advance? && a.t in t.threads {
        OtherStepBalances(cfg, s, t, a, book);
      } else if !a.Advance? {
        ArrivalBalances(cfg, s, t, a, book);
      }
    }
  }

  lemma ReachableMayAdd(cfg: Config, before: seq<Action>)
    requires cfg.Usable() && cfg.algorithm.AIMD? && NoFailurePending(Run(cfg, Init(cfg), before))
    ensures AllMayAdd(Run(cfg, Init(cfg), before))
  {
    AdaptiveRuns.RunFollowsTheLaw(cfg, before);
    var s := Run(cfg, Init(cfg), before);
    forall t | t in s.threads
      ensures MayAdd(s.threads[t])
    {
      assert AdaptiveRuns.ByTheLaw(cfg, s.threads[t]);
    }
  }

  /** Without a failure on its way, from any reachable settled state to any later one and in every
      interleaving that brings only successes, lost swaps included: the limit has risen by one per
      clearing up to MaxLimit, and there is a clearing for every SuccessThreshold successes counted,
      and more than that exactly when the counter was cleared too early by more than it now holds. */
  lemma SuccessesAreConserved(cfg: Config, before: seq<Action>, actions: seq<Action>)
    requires cfg.Usable() && cfg.algorithm.AIMD? && OnlySuccesses(actions)
    requires var s := Run(cfg, Init(cfg), before); NoFailurePending(s) && Settled(s)
    requires Settled(Run(cfg, Run(cfg, Init(cfg), before), actions))
    ensures var s := Run(cfg, Init(cfg), before);
            var t := Run(cfg, s, actions);
            var book := Book(cfg, s, actions);
            var due := (s.successes + book.counted) / cfg.successThreshold;
            && t.limit == Min(cfg.maxLimit, s.limit + book.cleared)
            && book.cleared * cfg.successThreshold + t.successes == s.successes + book.counted + book.short
            && 0 <= t.successes < cfg.successThreshold
            && book.cleared >= due
            && (book.cleared == due <==> book.short <= t.successes)
  {
    var s := Run(cfg, Init(cfg), before);
    RunKeepsInv(cfg, before);
    RunKeepsCounter(cfg, before);
    ReachableMayAdd(cfg, before);
    SuccessesBalance(cfg, s, actions);
    var book := Book(cfg, s, actions);
    QuotientCompares(s.successes + book.counted, cfg.successThreshold, book.cleared,
                     Run(cfg, s, actions).successes - book.short);
  }

  lemma QuotientCompares(n: int, d: int, q: int, r: int)
    requires d >= 1 && n == q * d + r && r < d
    ensures q >= n / d && (q == n / d <==> r >= 0)
  {
    var k := n / d - q;
    assert k * d == r - n % d;
    Laps(k, d);
  }

  lemma Laps(k: int, d: int)
    requires d >= 1
    ensures k >= 1 ==> k * d >= d
    ensures k <= -1 ==> k * d <= -d
  {
  }

  // ----- When it is exact -----

  /** No success is counted while another is between its count and its clearing. */
  ghost predicate Unhurried(cfg: Config, s: State, actions: seq<Action>) {
    forall i :: 0 <= i < |actions| && Counts(Run(cfg, s, actions[..i]), actions[i]) ==>
      Tally(Run(cfg, s, actions[..i]).threads, IsClearing) == 0
  }

  lemma UnhurriedFront(cfg: Config, s: State, actions: seq<Action>)
    requires Unhurried(cfg, s, actions) && actions != []
    ensures Unhurried(cfg, s, actions[..|actions| - 1])
    ensures var t := Run(cfg, s, actions[..|actions| - 1]);
            Counts(t, actions[|actions| - 1]) ==> Tally(t.threads, IsClearing) == 0
  {
    var front := actions[..|actions| - 1];
    forall i | 0 <= i < |front| && Counts(Run(cfg, s, front[..i]), front[i])
      ensures Tally(Run(cfg, s, front[..i]).threads, IsClearing) == 0
    {
      assert front[..i] == actions[..i];
    }
    assert actions[..|actions| - 1] == front;
  }

  /** One caller at a time clears, and finds exactly the threshold in the counter. */
  ghost predicate OneAtATime(cfg: Config, t: State, book: Ledger) {
    && book.short == 0
    && Tally(t.threads, IsClearing) <= 1
    && (Tally(t.threads, IsClearing) == 1 ==> t.successes == cfg.successThreshold)
  }

  lemma StepOneAtATime(cfg: Config, t: State, a: Action, book: Ledger)
    requires cfg.Usable() && cfg.algorithm.AIMD? && AllMayAdd(t) && CounterInv(cfg, t) && OneAtATime(cfg, t, book)
    requires Counts(t, a) ==> Tally(t.threads, IsClearing) == 0
    ensures var after := Apply(cfg, t, a);
            && Tally(after.threads, IsClearing) <= 1
            && (Tally(after.threads, IsClearing) == 1 ==> after.successes == cfg.successThreshold)
    ensures Clears(t, a) ==> t.successes == cfg.successThreshold
  {
    var after := Apply(cfg, t, a);
    if Clears(t, a) {
      assert a.t in Where(t.threads, IsClearing);
    }
    if a.Advance? && a.t in t.threads {
      StepMoves(cfg, t, a.t, a.root);
    }
    if after != t {
      Moves(t, a.t, after);
    }
  }

  lemma {:induction false} UnhurriedIsNeverShort(cfg: Config, s: State, actions: seq<Action>)
    requires cfg.Usable() && cfg.algorithm.AIMD? && OnlySuccesses(actions) && Unhurried(cfg, s, actions)
    requires Settled(s) && AllMayAdd(s) && LimitInv(cfg, s) && CounterInv(cfg, s)
    ensures OneAtATime(cfg, Run(cfg, s, actions), Book(cfg, s, actions))
  {
    if actions != [] {
      var front, a := actions[..|actions| - 1], actions[|actions| - 1];
      UnhurriedFront(cfg, s, actions);
      UnhurriedIsNeverShort(cfg, s, front);
      SuccessesBalance(cfg, s, front);
      StepOneAtATime(cfg, Run(cfg, s, front), a, Book(cfg, s, front));
    }
  }

  /** As long as no success is counted between another's count and its clearing, whatever else is
      interleaved: every SuccessThreshold successes raise the limit by exactly one, up to MaxLimit. */
  lemma UnhurriedSuccessesAreExact(cfg: Config, before: seq<Action>, actions: seq<Action>)
    requires cfg.Usable() && cfg.algorithm.AIMD? && OnlySuccesses(actions)
    requires var s := Run(cfg, Init(cfg), before);
             NoFailurePending(s) && Settled(s) && Unhurried(cfg, s, actions) && Settled(Run(cfg, s, actions))
    ensures var s := Run(cfg, Init(cfg), before);
            var successes := s.successes + Book(cfg, s, actions).counted;
            && Run(cfg, s, actions).limit == Min(cfg.maxLimit, s.limit + successes / cfg.successThreshold)
            && Run(cfg, s, actions).successes == successes % cfg.successThreshold
  {
    ReachableIsNeverShort(cfg, before, actions);
    SuccessesAreConserved(cfg, before, actions);
    var s := Run(cfg, Init(cfg), before);
    WholeLaps(s.successes + Book(cfg, s, actions).counted, cfg.successThreshold, Book(cfg, s, actions).cleared,
              Run(cfg, s, actions).successes);
  }

  lemma WholeLaps(n: int, d: int, q: int, r: int)
    requires d >= 1 && n == q * d + r && 0 <= r < d
    ensures n % d == r && n / d == q
  {
    LapsAway(r, q, d);
    QuotientCompares(n, d, q, r);
  }

  lemma ReachableIsNeverShort(cfg: Config, before: seq<Action>, actions: seq<Action>)
    requires cfg.Usable() && cfg.algorithm.AIMD? && OnlySuccesses(actions)
    requires var s := Run(cfg, Init(cfg), before);
             NoFailurePending(s) && Settled(s) && Unhurried(cfg, s, actions)
    ensures Book(cfg, Run(cfg, Init(cfg), before), actions).short == 0
  {
    RunKeepsInv(cfg, before);
    RunKeepsCounter(cfg, before);
    ReachableMayAdd(cfg, before);
    UnhurriedIsNeverShort(cfg, Run(cfg, Init(cfg), before), actions);
  }

  // ----- When it is not -----

  ghost predicate Reachable(cfg: Config, s: State) {
    exists actions :: Run(cfg, Init(cfg), actions) == s
  }

  lemma RunSnoc(cfg: Config, s: State, actions: seq<Action>, a: Action)
    ensures Run(cfg, s, actions + [a]) == Apply(cfg, Run(cfg, s, actions), a)
  {
    assert (actions + [a])[..|actions|] == actions;
  }

  lemma ReachStep(cfg: Config, s: State, a: Action)
    requires Reachable(cfg, s)
    ensures Reachable(cfg, Apply(cfg, s, a))
  {
    var actions :| Run(cfg, Init(cfg), actions) == s;
    RunSnoc(cfg, Init(cfg), actions, a);
    assert Run(cfg, Init(cfg), actions + [a]) == Apply(cfg, s, a);
  }

  lemma {:induction false} ReachAlone(cfg: Config, s: State, t: nat, k: nat)
    requires Reachable(cfg, s)
    ensures Reachable(cfg, AdaptiveRuns.Alone(cfg, s, t, 0.0, k))
  {
    if k > 0 {
      ReachAlone(cfg, s, t, k - 1);
      ReachStep(cfg, AdaptiveRuns.Alone(cfg, s, t, 0.0, k - 1), Advance(t, 0.0));
    }
  }

  lemma Succeeds(cfg: Config, s: State, t: nat) returns (u: State)
    requires cfg.algorithm.AIMD? && Reachable(cfg, s) && t !in s.threads && s.inFlight < s.limit
    ensures Reachable(cfg, u)
    ensures u == s.(threads := s.threads[t := CountingSuccess], inFlight := s.inFlight + 1)
  {
    ReachStep(cfg, s, Begin(t));
    var begun := Apply(cfg, s, Begin(t));
    ReachAlone(cfg, begun, t, 3);
    AdaptiveRuns.AdmittedExactly(cfg, s, t, 0.0);
    var running := AdaptiveRuns.Alone(cfg, begun, t, 0.0, 3);
    ReachStep(cfg, running, Return(t, true, 1));
    u := Apply(cfg, running, Return(t, true, 1));
    assert u.threads == s.threads[t := CountingSuccess];
  }

  /** With a threshold of two and three calls that succeed: the first is counted, the other two
      about to be. */
  lemma TwoAreAboutToCount(cfg: Config) returns (s: State)
    requires cfg.Usable() && cfg.algorithm.AIMD? && cfg.successThreshold == 2 && cfg.initialLimit >= 3
    ensures Reachable(cfg, s)
    ensures s == State(cfg.initialLimit, 3, 1, 0, 0, 0,
                       map[0 := Leaving, 1 := CountingSuccess, 2 := CountingSuccess])
  {
    assert Run(cfg, Init(cfg), []) == Init(cfg);
    s := Succeeds(cfg, Init(cfg), 0);
    s := Succeeds(cfg, s, 1);
    s := Succeeds(cfg, s, 2);
    ReachStep(cfg, s, Advance(0, 0.0));
    s := Apply(cfg, s, Advance(0, 0.0));
    assert s.threads == map[0 := Leaving, 1 := CountingSuccess, 2 := CountingSuccess];
  }

  /** One step, and what it adds to the run and to the book. */
  lemma OneMore(cfg: Config, s: State, actions: seq<Action>, a: Action)
    requires cfg.Usable()
    ensures Run(cfg, s, actions + [a]) == Apply(cfg, Run(cfg, s, actions), a)
    ensures Book(cfg, s, actions + [a]).counted
         == Book(cfg, s, actions).counted + (if Counts(Run(cfg, s, actions), a) then 1 else 0)
  {
    assert (actions + [a])[..|actions|] == actions;
  }

  /** Both count before either clears, and so both clear. */
  lemma BothCount(cfg: Config, s: State, t: nat, u: nat) returns (actions: seq<Action>)
    requires cfg.Usable() && t in s.threads && u in s.threads && t != u
    requires s.threads[t].CountingSuccess? && s.threads[u].CountingSuccess?
    requires s.successes == cfg.successThreshold - 1
    ensures OnlySuccesses(actions) && Book(cfg, s, actions).counted == 2
    ensures Run(cfg, s, actions)
         == s.(threads := s.threads[t := RaiseLoading][u := RaiseLoading], successes := 0)
  {
    var first, second := Advance(t, 0.0), Advance(u, 0.0);
    OneMore(cfg, s, [], first);
    OneMore(cfg, s, [] + [first], second);
    OneMore(cfg, s, [] + [first] + [second], first);
    OneMore(cfg, s, [] + [first] + [second] + [first], second);
    actions := [] + [first] + [second] + [first] + [second];
    var counted := s.(threads := s.threads[t := ClearingSuccesses][u := ClearingSuccesses],
                      successes := cfg.successThreshold + 1);
    assert Run(cfg, s, [] + [first] + [second]) == counted;
    assert Run(cfg, s, [] + [first] + [second] + [first]).threads
        == s.threads[t := RaiseLoading][u := ClearingSuccesses];
  }

  lemma RaisesByOne(cfg: Config, s: State, actions: seq<Action>, t: nat) returns (more: seq<Action>)
    requires cfg.Usable() && OnlySuccesses(actions)
    requires var r := Run(cfg, s, actions); t in r.threads && r.threads[t].RaiseLoading? && r.limit < cfg.maxLimit
    ensures OnlySuccesses(more) && Book(cfg, s, more).counted == Book(cfg, s, actions).counted
    ensures var r := Run(cfg, s, actions);
            Run(cfg, s, more) == r.(threads := r.threads[t := Leaving], limit := r.limit + 1)
  {
    var r, step := Run(cfg, s, actions), Advance(t, 0.0);
    OneMore(cfg, s, actions, step);
    OneMore(cfg, s, actions + [step], step);
    more := actions + [step] + [step];
    assert Run(cfg, s, actions + [step]) == Goto(r, t, RaiseSwapping(r.limit));
    assert r.threads[t := RaiseSwapping(r.limit)][t := Leaving] == r.threads[t := Leaving];
  }

  /** The documented rule fails: a run in which three successes, of a threshold of two, raise the
      limit by two. */
  lemma HurriedSuccessesRaiseTwice(cfg: Config) returns (s: State, actions: seq<Action>)
    requires cfg.Usable() && cfg.algorithm.AIMD? && cfg.successThreshold == 2
    requires 3 <= cfg.initialLimit <= cfg.maxLimit - 2
    ensures Reachable(cfg, s) && s.limit == cfg.initialLimit && s.successes == 1
    ensures OnlySuccesses(actions) && Book(cfg, s, actions).counted == 2
    ensures Run(cfg, s, actions).limit == s.limit + 2
  {
    s := TwoAreAboutToCount(cfg);
    actions := BothCount(cfg, s, 1, 2);
    actions := RaisesByOne(cfg, s, actions, 1);
    actions := RaisesByOne(cfg, s, actions, 2);
  }
}
