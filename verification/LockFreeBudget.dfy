// budget/budget.go, executeLockFree: the no-window mode under interleaving. Each atomic
// load, add and compare-and-swap is one step of some Execute; Reset is not part of it.
module LockFreeBudget {
  import opened Basics
  import opened BudgetCost

  datatype Thread =
    | Loading                                   // about to read breached
    | Adding                                    // about to add 1 to calls
    | Operating                                 // running fn
    | ChargingTokens(charge: Cost)              // about to add the tokens
    | ChargingUSD(charge: Cost)                 // about to add the money
    | ReadingTokens                             // snapshot, first load
    | ReadingUSD(tokens: int)                   // snapshot, second load
    | ReadingCalls(tokens: int, usdMicros: int)   // snapshot, third load
    | Marking(ran: bool)                        // about to swap breached from false to true
    | Finished(ran: bool, refused: bool)

  /** started counts the runs of fn, fired the calls of OnExceeded; charges lists what Charge made
      of each run, with its thread, in the order the runs came back. */
  datatype State = State(
    max: Cost,
    tokens: int,
    usdMicros: int,
    calls: int,
    breached: bool,
    threads: map<nat, Thread>,
    started: nat,
    fired: nat,
    charges: seq<(nat, Cost)>)
  {
    function Counters(): Cost {
      Cost(tokens, usdMicros, calls)
    }
  }

  datatype Action =
    | Begin(t: nat)
    | Return(t: nat, charge: Cost)  // fn returned and Charge made this of it
    | Advance(t: nat)

  function Init(max: Cost): State {
    State(max, 0, 0, 0, false, map[], 0, 0, [])
  }

  function Goto(s: State, t: nat, pc: Thread): State {
    s.(threads := s.threads[t := pc])
  }

  function Apply(s: State, a: Action): State {
    match a
    case Begin(t) => if t in s.threads then s else Goto(s, t, Loading)
    case Return(t, charge) =>
      if t in s.threads && s.threads[t].Operating?
      then Goto(s, t, ChargingTokens(charge)).(charges := s.charges + [(t, charge)]) else s
    case Advance(t) => if t in s.threads then Step(s, t) else s
  }

  function Step(s: State, t: nat): State
    requires t in s.threads
  {
    match s.threads[t]
    case Loading => Goto(s, t, if s.breached then Finished(false, true) else Adding)
    case Adding =>
      var calls := s.calls + 1;
      if s.max.calls > 0 && calls > s.max.calls then Goto(s, t, Marking(false)).(calls := calls)
      else Goto(s, t, Operating).(calls := calls, started := s.started + 1)
    case Operating => s
    case ChargingTokens(charge) => Goto(s, t, ChargingUSD(charge)).(tokens := s.tokens + Applied(charge).tokens)
    case ChargingUSD(charge) => Goto(s, t, ReadingTokens).(usdMicros := s.usdMicros + Applied(charge).usdMicros)
    case ReadingTokens => Goto(s, t, ReadingUSD(s.tokens))
    case ReadingUSD(tokens) => Goto(s, t, ReadingCalls(tokens, s.usdMicros))
    case ReadingCalls(tokens, usdMicros) =>
      Goto(s, t, if Over(s.max, Cost(tokens, usdMicros, s.calls)) then Marking(true) else Finished(true, false))
    case Marking(ran) =>
      Goto(s, t, Finished(ran, true)).(breached := true, fired := s.fired + (if s.breached then 0 else 1))
    case Finished(_, _) => s
  }

  function Run(s: State, actions: seq<Action>): State {
    if actions == [] then s else Apply(Run(s, actions[..|actions| - 1]), actions[|actions| - 1])
  }

  // ----- Invariant -----

  /** What a thread has already read of the counters, at most what they are now. */
  predicate SnapshotOK(s: State, pc: Thread) {
    match pc
    case ReadingUSD(tokens) => tokens <= s.tokens
    case ReadingCalls(tokens, usdMicros) => tokens <= s.tokens && usdMicros <= s.usdMicros
    case Marking(_) => Over(s.max, s.Counters())
    case _ => true
  }

  predicate TokensOver(s: State, tokens: int) {
    Exceeds(tokens, s.max.tokens)
  }

  predicate USDOver(s: State, usdMicros: int) {
    Exceeds(usdMicros, s.max.usdMicros)
  }

  /** The thread is between an add and its markBreach: it has yet to load the counter that is
      over, or has loaded it over the ceiling, or is about to mark. */
  predicate WillMark(s: State, pc: Thread) {
    match pc
    case ChargingUSD(_) => TokensOver(s, s.tokens)
    case ReadingTokens => TokensOver(s, s.tokens) || USDOver(s, s.usdMicros)
    case ReadingUSD(tokens) => TokensOver(s, tokens) || USDOver(s, s.usdMicros)
    case ReadingCalls(tokens, usdMicros) => TokensOver(s, tokens) || USDOver(s, usdMicros)
    case Marking(_) => true
    case _ => false
  }

  ghost predicate SomebodyWillMark(s: State) {
    exists t :: t in s.threads && WillMark(s, s.threads[t])
  }

  ghost predicate CountInv(s: State) {
    && s.started <= s.calls
    && s.started == (if s.max.calls > 0 then Min(s.calls, s.max.calls) else s.calls)
    && s.fired == (if s.breached then 1 else 0)
  }

  ghost predicate BreachInv(s: State) {
    && (s.breached ==> Over(s.max, s.Counters()))
    && (forall t :: t in s.threads ==> SnapshotOK(s, s.threads[t]))
    && (Over(s.max, s.Counters()) ==> s.breached || SomebodyWillMark(s))
  }

  ghost predicate Inv(s: State) {
    CountInv(s) && BreachInv(s)
  }

  lemma OtherWitnessSurvives(s: State, t: nat, w: nat)
    requires t in s.threads && w in s.threads && w != t && WillMark(s, s.threads[w])
    ensures var after := Step(s, t);
            w in after.threads && after.threads[w] == s.threads[w] && WillMark(after, after.threads[w])
  {
  }

  lemma OwnWitnessSurvives(s: State, w: nat)
    requires w in s.threads && WillMark(s, s.threads[w]) && SnapshotOK(s, s.threads[w])
    ensures var after := Step(s, w);
            after.breached || (w in after.threads && WillMark(after, after.threads[w]))
  {
  }

  /** The witness of an unmarked breach survives every step, or marks it. */
  lemma WitnessSurvives(s: State, a: Action, w: nat)
    requires BreachInv(s) && w in s.threads && WillMark(s, s.threads[w])
    ensures var after := Apply(s, a);
            after.breached || (w in after.threads && WillMark(after, after.threads[w]))
  {
    if a.Advance? && a.t in s.threads {
      if a.t == w {
        OwnWitnessSurvives(s, w);
      } else {
        OtherWitnessSurvives(s, a.t, w);
      }
    }
  }

  /** A step that first takes a counter over its ceiling leaves its own thread as the witness. */
  lemma BreachHasAWitness(s: State, a: Action)
    requires BreachInv(s) && !Over(s.max, s.Counters())
    ensures Over(s.max, Apply(s, a).Counters()) ==> SomebodyWillMark(Apply(s, a))
  {
    if Over(s.max, Apply(s, a).Counters()) {
      assert a.Advance? && WillMark(Apply(s, a), Apply(s, a).threads[a.t]);
    }
  }

  lemma StepKeepsSnapshot(s: State, u: nat, t: nat)
    requires t in s.threads && u in s.threads && SnapshotOK(s, s.threads[t])
    ensures t in Step(s, u).threads && SnapshotOK(Step(s, u), Step(s, u).threads[t])
  {
    if t == u && s.threads[t].ReadingCalls? {
      assert s.threads[t].tokens <= s.tokens && s.threads[t].usdMicros <= s.usdMicros;
    }
  }

  lemma SnapshotStaysOK(s: State, a: Action, t: nat)
    requires forall u :: u in s.threads ==> SnapshotOK(s, s.threads[u])
    requires t in Apply(s, a).threads
    ensures SnapshotOK(Apply(s, a), Apply(s, a).threads[t])
  {
    if t in s.threads {
      assert SnapshotOK(s, s.threads[t]);
      if a.Advance? && a.t in s.threads {
        StepKeepsSnapshot(s, a.t, t);
      }
    }
  }

  lemma ApplyKeepsInv(s: State, a: Action)
    requires Inv(s)
    ensures Inv(Apply(s, a))
  {
    var after := Apply(s, a);
    forall t | t in after.threads
      ensures SnapshotOK(after, after.threads[t])
    {
      SnapshotStaysOK(s, a, t);
    }
    if a.Advance? && a.t in s.threads {
      assert SnapshotOK(s, s.threads[a.t]);
    }
    if !Over(s.max, s.Counters()) {
      BreachHasAWitness(s, a);
    } else if !s.breached {
      var w :| w in s.threads && WillMark(s, s.threads[w]);
      WitnessSurvives(s, a, w);
    }
  }

  lemma {:induction false} RunKeepsInv(max: Cost, actions: seq<Action>)
    ensures Inv(Run(Init(max), actions)) && Run(Init(max), actions).max == max
  {
    if actions != [] {
      RunKeepsInv(max, actions[..|actions| - 1]);
      ApplyKeepsInv(Run(Init(max), actions[..|actions| - 1]), actions[|actions| - 1]);
    }
  }

  // ----- What every interleaving guarantees -----

  /** fn starts at most Max.Calls times in all, and OnExceeded fires at most once: exactly once
      when the breach is marked. */
  lemma CallsAreCapped(max: Cost, actions: seq<Action>)
    ensures var s := Run(Init(max), actions);
            && (max.calls > 0 ==> s.started <= max.calls)
            && s.fired <= 1
            && (s.fired == 1 <==> s.breached)
  {
    RunKeepsInv(max, actions);
  }

  /** The thread has started fn. */
  predicate HasStarted(pc: Thread) {
    match pc
    case Loading => false
    case Adding => false
    case Marking(ran) => ran
    case Finished(ran, _) => ran
    case _ => true
  }

  lemma MoveCountsStart(s: State, t: nat, after: State)
    requires s.started == Tally(s.threads, HasStarted) && t in after.threads
    requires after.threads == s.threads[t := after.threads[t]]
    requires after.started == s.started - (if t in s.threads && HasStarted(s.threads[t]) then 1 else 0)
                                        + (if HasStarted(after.threads[t]) then 1 else 0)
    ensures after.started == Tally(after.threads, HasStarted)
  {
    TallyUpdate(s.threads, t, after.threads[t], HasStarted);
  }

  lemma StepCountsStart(s: State, a: Action)
    requires s.started == Tally(s.threads, HasStarted)
    ensures Apply(s, a).started == Tally(Apply(s, a).threads, HasStarted)
  {
    var after := Apply(s, a);
    if a.Advance? && a.t in s.threads {
      AdvanceStarts(s, a.t);
      MoveCountsStart(s, a.t, after);
    } else if after != s {
      MoveCountsStart(s, a.t, after);
    }
  }

  lemma AdvanceStarts(s: State, t: nat)
    requires t in s.threads
    ensures var after := Step(s, t);
            && t in after.threads && after.threads == s.threads[t := after.threads[t]]
            && after.started == s.started - (if HasStarted(s.threads[t]) then 1 else 0)
                                          + (if HasStarted(after.threads[t]) then 1 else 0)
  {
    assert s.threads == s.threads[t := s.threads[t]];
  }

  /** No Execute runs fn twice: the runs of fn are as many as the threads that have started it. */
  lemma {:induction false} RunsAreThreads(max: Cost, actions: seq<Action>)
    ensures var s := Run(Init(max), actions);
            s.started == Tally(s.threads, HasStarted)
  {
    if actions == [] {
      TallyZero(Init(max).threads, HasStarted);
    } else {
      RunsAreThreads(max, actions[..|actions| - 1]);
      StepCountsStart(Run(Init(max), actions[..|actions| - 1]), actions[|actions| - 1]);
    }
  }

  /** A breach is never invented, and never missed while nobody is still on the way to mark it. */
  lemma BreachIsExact(max: Cost, actions: seq<Action>)
    ensures var s := Run(Init(max), actions);
            && (s.breached ==> AnyExceeds(max, s.tokens, s.usdMicros, s.calls))
            && (AnyExceeds(max, s.tokens, s.usdMicros, s.calls) ==> s.breached || SomebodyWillMark(s))
            && ((forall t :: t in s.threads ==> s.threads[t].Finished?) ==>
                  (s.breached <==> AnyExceeds(max, s.tokens, s.usdMicros, s.calls)))
  {
    RunKeepsInv(max, actions);
  }

  /** Once breached, no Execute that has not yet looked at the flag runs fn: it is refused and
      charges nothing. */
  lemma {:induction false} BreachedRefuses(s: State, actions: seq<Action>, t: nat)
    requires s.breached && (t in s.threads ==> s.threads[t].Loading?)
    ensures var after := Run(s, actions);
            && after.breached
            && (t in after.threads ==> after.threads[t] in {Loading, Finished(false, true)})
  {
    if actions != [] {
      BreachedRefuses(s, actions[..|actions| - 1], t);
    }
  }

  // ----- Conservation -----

  /** The thread's fn has run and come back. */
  predicate CameBack(pc: Thread) {
    HasStarted(pc) && !pc.Operating?
  }

  /** The tokens, or the money, of the thread's charge are in the counter. */
  predicate TokensIn(pc: Thread) {
    CameBack(pc) && !pc.ChargingTokens?
  }

  predicate USDIn(pc: Thread) {
    TokensIn(pc) && !pc.ChargingUSD?
  }

  /** What the charges that are in have added, in one dimension. */
  function Added(charges: seq<(nat, Cost)>, threads: map<nat, Thread>, isIn: Thread -> bool, field: Cost -> int): int {
    if charges == [] then 0
    else
      var (t, charge) := charges[|charges| - 1];
      Added(charges[..|charges| - 1], threads, isIn, field)
      + (if t in threads && isIn(threads[t]) then field(charge) else 0)
  }

  function AllOf(charges: seq<(nat, Cost)>, field: Cost -> int): int {
    if charges == [] then 0 else AllOf(charges[..|charges| - 1], field) + field(charges[|charges| - 1].1)
  }

  ghost predicate ChargedBy(charges: seq<(nat, Cost)>, t: nat) {
    exists i :: 0 <= i < |charges| && charges[i].0 == t
  }

  /** Every run that came back is charged once, with what its thread carries. */
  ghost predicate ChargesOK(s: State) {
    && (forall i, j :: 0 <= i < j < |s.charges| ==> s.charges[i].0 != s.charges[j].0)
    && (forall i :: 0 <= i < |s.charges| ==>
          s.charges[i].0 in s.threads && CarriesOK(s.threads[s.charges[i].0], s.charges[i].1))
    && (forall t :: t in s.threads && CameBack(s.threads[t]) ==> ChargedBy(s.charges, t))
  }

  predicate CarriesOK(pc: Thread, charge: Cost) {
    && CameBack(pc)
    && (pc.ChargingTokens? || pc.ChargingUSD? ==> pc.charge == charge)
  }

  ghost predicate SumsOK(s: State) {
    && s.tokens == Added(s.charges, s.threads, TokensIn, Tokens)
    && s.usdMicros == Added(s.charges, s.threads, USDIn, USD)
  }

  lemma {:induction false} AddedElsewhere(charges: seq<(nat, Cost)>, threads: map<nat, Thread>, t: nat, pc: Thread,
                                          isIn: Thread -> bool, field: Cost -> int)
    requires forall i :: 0 <= i < |charges| ==> charges[i].0 != t
    ensures Added(charges, threads[t := pc], isIn, field) == Added(charges, threads, isIn, field)
  {
    if charges != [] {
      AddedElsewhere(charges[..|charges| - 1], threads, t, pc, isIn, field);
    }
  }

  lemma {:induction false} AddedMoves(charges: seq<(nat, Cost)>, threads: map<nat, Thread>, i: nat, pc: Thread,
                                      isIn: Thread -> bool, field: Cost -> int)
    requires i < |charges| && charges[i].0 in threads
    requires forall j :: 0 <= j < |charges| && j != i ==> charges[j].0 != charges[i].0
    ensures Added(charges, threads[charges[i].0 := pc], isIn, field)
            == Added(charges, threads, isIn, field)
               - (if isIn(threads[charges[i].0]) then field(charges[i].1) else 0)
               + (if isIn(pc) then field(charges[i].1) else 0)
  {
    var last := |charges| - 1;
    if i == last {
      AddedElsewhere(charges[..last], threads, charges[i].0, pc, isIn, field);
    } else {
      AddedMoves(charges[..last], threads, i, pc, isIn, field);
    }
  }

  lemma AddedSnoc(charges: seq<(nat, Cost)>, threads: map<nat, Thread>, t: nat, charge: Cost,
                  isIn: Thread -> bool, field: Cost -> int)
    requires t in threads && !isIn(threads[t])
    ensures Added(charges + [(t, charge)], threads, isIn, field) == Added(charges, threads, isIn, field)
  {
    assert (charges + [(t, charge)])[..|charges|] == charges;
  }

  lemma UnchargedMoves(s: State, t: nat, pc: Thread)
    requires ChargesOK(s) && !(t in s.threads && CameBack(s.threads[t]))
    ensures Added(s.charges, s.threads[t := pc], TokensIn, Tokens) == Added(s.charges, s.threads, TokensIn, Tokens)
    ensures Added(s.charges, s.threads[t := pc], USDIn, USD) == Added(s.charges, s.threads, USDIn, USD)
    ensures forall i :: 0 <= i < |s.charges| ==> s.charges[i].0 != t
  {
    forall i | 0 <= i < |s.charges|
      ensures s.charges[i].0 != t
    {
      assert CarriesOK(s.threads[s.charges[i].0], s.charges[i].1);
    }
    AddedElsewhere(s.charges, s.threads, t, pc, TokensIn, Tokens);
    AddedElsewhere(s.charges, s.threads, t, pc, USDIn, USD);
  }

  lemma ReturnKeepsCharges(s: State, t: nat, charge: Cost)
    requires ChargesOK(s) && t in s.threads && s.threads[t].Operating?
    requires forall i :: 0 <= i < |s.charges| ==> s.charges[i].0 != t
    ensures ChargesOK(Apply(s, Return(t, charge)))
  {
    var after := Apply(s, Return(t, charge));
    assert after.charges[|s.charges|] == (t, charge);
    forall u | u in after.threads && CameBack(after.threads[u])
      ensures ChargedBy(after.charges, u)
    {
      if u != t {
        var i :| 0 <= i < |s.charges| && s.charges[i].0 == u;
        assert after.charges[i].0 == u;
      }
    }
  }

  lemma ReturnConserves(s: State, t: nat, charge: Cost)
    requires ChargesOK(s) && SumsOK(s) && t in s.threads && s.threads[t].Operating?
    ensures ChargesOK(Apply(s, Return(t, charge))) && SumsOK(Apply(s, Return(t, charge)))
  {
    var threads := s.threads[t := ChargingTokens(charge)];
    UnchargedMoves(s, t, ChargingTokens(charge));
    AddedSnoc(s.charges, threads, t, charge, TokensIn, Tokens);
    AddedSnoc(s.charges, threads, t, charge, USDIn, USD);
    ReturnKeepsCharges(s, t, charge);
  }

  /** A step of a thread whose run has come back adds each part of its charge as it passes it. */
  lemma ChargedStep(s: State, t: nat, charge: Cost)
    requires t in s.threads && CarriesOK(s.threads[t], charge)
    ensures var after := Step(s, t);
            && t in after.threads && after.threads == s.threads[t := after.threads[t]] && after.charges == s.charges
            && CarriesOK(after.threads[t], charge)
            && after.tokens - s.tokens
               == (if TokensIn(after.threads[t]) then Tokens(charge) else 0)
                  - (if TokensIn(s.threads[t]) then Tokens(charge) else 0)
            && after.usdMicros - s.usdMicros
               == (if USDIn(after.threads[t]) then USD(charge) else 0)
                  - (if USDIn(s.threads[t]) then USD(charge) else 0)
  {
    assert s.threads == s.threads[t := s.threads[t]];
  }

  lemma UnchargedStep(s: State, t: nat)
    requires t in s.threads && !CameBack(s.threads[t])
    ensures var after := Step(s, t);
            && t in after.threads && after.threads == s.threads[t := after.threads[t]] && after.charges == s.charges
            && !CameBack(after.threads[t])
            && after.tokens == s.tokens && after.usdMicros == s.usdMicros
  {
    assert s.threads == s.threads[t := s.threads[t]];
  }

  /** Moving one thread keeps the list of charges in order. */
  lemma MoveKeepsCharges(s: State, after: State, t: nat)
    requires ChargesOK(s) && t in after.threads && after.charges == s.charges
    requires after.threads == s.threads[t := after.threads[t]]
    requires CameBack(after.threads[t]) ==> ChargedBy(s.charges, t)
    requires forall i :: 0 <= i < |s.charges| && s.charges[i].0 == t ==> CarriesOK(after.threads[t], s.charges[i].1)
    ensures ChargesOK(after)
  {
  }

  lemma ChargedStepConserves(s: State, t: nat)
    requires ChargesOK(s) && SumsOK(s) && t in s.threads && CameBack(s.threads[t])
    ensures ChargesOK(Step(s, t)) && SumsOK(Step(s, t))
  {
    var after := Step(s, t);
    var i :| 0 <= i < |s.charges| && s.charges[i].0 == t;
    ChargedStep(s, t, s.charges[i].1);
    AddedMoves(s.charges, s.threads, i, after.threads[t], TokensIn, Tokens);
    AddedMoves(s.charges, s.threads, i, after.threads[t], USDIn, USD);
    MoveKeepsCharges(s, after, t);
  }

  lemma UnchargedStepConserves(s: State, t: nat)
    requires ChargesOK(s) && SumsOK(s) && t in s.threads && !CameBack(s.threads[t])
    ensures ChargesOK(Step(s, t)) && SumsOK(Step(s, t))
  {
    var after := Step(s, t);
    UnchargedStep(s, t);
    UnchargedMoves(s, t, after.threads[t]);
    MoveKeepsCharges(s, after, t);
  }

  lemma ApplyConserves(s: State, a: Action)
    requires ChargesOK(s) && SumsOK(s)
    ensures ChargesOK(Apply(s, a)) && SumsOK(Apply(s, a))
  {
    match a
    case Begin(t) =>
      if t !in s.threads {
        UnchargedMoves(s, t, Loading);
      }
    case Return(t, charge) =>
      if t in s.threads && s.threads[t].Operating? {
        ReturnConserves(s, t, charge);
      }
    case Advance(t) =>
      if t in s.threads {
        if CameBack(s.threads[t]) {
          ChargedStepConserves(s, t);
        } else {
          UnchargedStepConserves(s, t);
        }
      }
  }

  lemma {:induction false} RunConserves(max: Cost, actions: seq<Action>)
    ensures ChargesOK(Run(Init(max), actions)) && SumsOK(Run(Init(max), actions))
  {
    if actions != [] {
      RunConserves(max, actions[..|actions| - 1]);
      ApplyConserves(Run(Init(max), actions[..|actions| - 1]), actions[|actions| - 1]);
    }
  }

  lemma {:induction false} EverythingIn(charges: seq<(nat, Cost)>, threads: map<nat, Thread>,
                                        isIn: Thread -> bool, field: Cost -> int)
    requires forall i :: 0 <= i < |charges| ==> charges[i].0 in threads && isIn(threads[charges[i].0])
    ensures Added(charges, threads, isIn, field) == AllOf(charges, field)
  {
    if charges != [] {
      EverythingIn(charges[..|charges| - 1], threads, isIn, field);
    }
  }

  /** The Executes that were counted: an add is a step of a thread that has seen no breach. */
  function PreCharges(s: State, actions: seq<Action>): nat {
    if actions == [] then 0
    else
      var before, a := Run(s, actions[..|actions| - 1]), actions[|actions| - 1];
      PreCharges(s, actions[..|actions| - 1])
      + (if a.Advance? && a.t in before.threads && before.threads[a.t].Adding? then 1 else 0)
  }

  lemma {:induction false} CallsAreCounted(max: Cost, actions: seq<Action>)
    ensures Run(Init(max), actions).calls == PreCharges(Init(max), actions)
  {
    if actions != [] {
      CallsAreCounted(max, actions[..|actions| - 1]);
    }
  }

  /** Nothing is lost, nothing counted twice and nothing mixed up in any interleaving: each counter
      is the sum of the positive charges of its kind that have got that far, and with every Execute
      finished of them all; calls are counted one by one before they run, and no charge adds any. */
  lemma ChargesAreConserved(max: Cost, actions: seq<Action>)
    ensures var s := Run(Init(max), actions);
            && s.tokens == Added(s.charges, s.threads, TokensIn, Tokens)
            && s.usdMicros == Added(s.charges, s.threads, USDIn, USD)
            && ((forall t :: t in s.threads ==> s.threads[t].Finished?) ==>
                  s.tokens == AllOf(s.charges, Tokens) && s.usdMicros == AllOf(s.charges, USD))
            && s.calls == PreCharges(Init(max), actions)
  {
    RunConserves(max, actions);
    CallsAreCounted(max, actions);
    var s := Run(Init(max), actions);
    if forall t :: t in s.threads ==> s.threads[t].Finished? {
      forall i | 0 <= i < |s.charges|
        ensures TokensIn(s.threads[s.charges[i].0]) && USDIn(s.threads[s.charges[i].0])
      {
        assert CarriesOK(s.threads[s.charges[i].0], s.charges[i].1);
      }
      EverythingIn(s.charges, s.threads, TokensIn, Tokens);
      EverythingIn(s.charges, s.threads, USDIn, USD);
    }
  }

  // ----- Who is told -----

  predicate CounterExceeds(s: State) {
    AnyExceeds(s.max, s.tokens, s.usdMicros, s.calls)
  }

  /** The thread has loaded, or has yet to load, a counter that is over; or it is past that. */
  predicate WillBeTold(s: State, pc: Thread) {
    match pc
    case ReadingTokens => CounterExceeds(s)
    case ReadingUSD(tokens) => AnyExceeds(s.max, tokens, s.usdMicros, s.calls)
    case ReadingCalls(tokens, usdMicros) => AnyExceeds(s.max, tokens, usdMicros, s.calls)
    case Marking(ran) => ran
    case Finished(ran, refused) => ran && refused
    case _ => false
  }

  /** ... and has loaded only what the counters were at the time. */
  predicate WasToldRightly(s: State, pc: Thread) {
    match pc
    case ReadingUSD(tokens) => tokens <= s.tokens
    case ReadingCalls(tokens, usdMicros) => tokens <= s.tokens && usdMicros <= s.usdMicros
    case Marking(_) => CounterExceeds(s)
    case Finished(ran, refused) => ran && refused ==> CounterExceeds(s)
    case _ => true
  }

  lemma CountersGrow(s: State, t: nat)
    requires t in s.threads
    ensures var after := Step(s, t);
            && after.max == s.max
            && s.tokens <= after.tokens && s.usdMicros <= after.usdMicros && s.calls <= after.calls
  {
  }

  lemma OwnToldStep(s: State, t: nat)
    requires t in s.threads
    ensures var after := Step(s, t);
            && t in after.threads
            && (WillBeTold(s, s.threads[t]) ==> WillBeTold(after, after.threads[t]))
            && (s.threads[t].Finished? ==> after.threads[t] == s.threads[t])
  {
  }

  lemma OwnToldRightly(s: State, t: nat)
    requires t in s.threads && WasToldRightly(s, s.threads[t])
    ensures var after := Step(s, t); t in after.threads && WasToldRightly(after, after.threads[t])
  {
    CountersGrow(s, t);
  }

  lemma ToldStep(s: State, a: Action, t: nat)
    requires t in s.threads
    ensures t in Apply(s, a).threads
    ensures WillBeTold(s, s.threads[t]) ==> WillBeTold(Apply(s, a), Apply(s, a).threads[t])
    ensures WasToldRightly(s, s.threads[t]) ==> WasToldRightly(Apply(s, a), Apply(s, a).threads[t])
    ensures Apply(s, a).max == s.max
  {
    if a.Advance? && a.t in s.threads {
      CountersGrow(s, a.t);
      if a.t == t {
        OwnToldStep(s, t);
        if WasToldRightly(s, s.threads[t]) {
          OwnToldRightly(s, t);
        }
      } else {
        assert Step(s, a.t).threads[t] == s.threads[t];
      }
    }
  }

  /** An Execute that has charged and is about to take its snapshot is told that the budget is
      exceeded if a counter is over then, and only if one is by the time it has finished:
      whatever else runs in between. */
  lemma {:induction false} SettlingIsTold(s: State, actions: seq<Action>, t: nat)
    requires t in s.threads && s.threads[t].ReadingTokens?
    ensures var after := Run(s, actions);
            && t in after.threads
            && (after.threads[t].Finished? && CounterExceeds(s) ==> after.threads[t] == Finished(true, true))
            && (after.threads[t] == Finished(true, true) ==> CounterExceeds(after))
  {
    RunIsTold(s, actions, t);
  }

  lemma {:induction false} RunIsTold(s: State, actions: seq<Action>, t: nat)
    requires t in s.threads && s.threads[t].ReadingTokens?
    ensures var after := Run(s, actions);
            && t in after.threads
            && (CounterExceeds(s) ==> WillBeTold(after, after.threads[t]))
            && WasToldRightly(after, after.threads[t])
  {
    if actions != [] {
      RunIsTold(s, actions[..|actions| - 1], t);
      ToldStep(Run(s, actions[..|actions| - 1]), actions[|actions| - 1], t);
    }
  }

  /** Two steps into an undisturbed Execute: it runs fn exactly when no breach is marked and one more
      call is within the ceiling. */
  lemma EnteredExactly(s: State, t: nat)
    requires t in s.threads && s.threads[t].Loading?
    ensures var after := Apply(Apply(s, Advance(t)), Advance(t));
            && t in after.threads
            && (after.threads[t] == Operating <==> !s.breached && !Exceeds(s.calls + 1, s.max.calls))
            && after.calls == s.calls + (if s.breached then 0 else 1)
  {
  }
}
