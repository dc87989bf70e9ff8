// circuitbreaker/breaker.go: the lock-free admission under interleaving. A locked section
// moves the breaker and then stores generation, expiry and state into the mirrors, one
// atomic store at a time; any number of readers load state, expiry, state and generation,
// one atomic load at a time, in between.
//
// A source section that synchronises twice (an interval reset followed by a trip) is two
// consecutive sections here, which allows more interleavings than the source.
module FastAdmission {
  import opened Basics
  import M = BreakerMachine

  /** Where the holder of the mutex stands in syncFastFields; raised says that its section has
      raised the generation it is about to store. */
  datatype Phase = Unlocked | BeforeGeneration(raised: bool) | BeforeExpiry | BeforeState

  /** regime is the generation whose Closed state the reader saw at its second state load. */
  datatype Reader =
    | LoadingState
    | LoadingExpiry
    | ReloadingState
    | LoadingGeneration(regime: int)
    | Admitted(regime: int, generation: int)
    | SlowPath

  /** regimes records the state each generation belonged to, and shown is the generation
      the value in fastState came from. */
  datatype Shared = Shared(
    locked: M.Breaker,
    fastState: M.State,
    fastExpiry: int,
    fastGen: int,
    phase: Phase,
    shown: int,
    regimes: map<int, M.State>,
    readers: map<nat, Reader>)

  datatype Action =
    | Section(event: M.Event)
    | Store
    | Arrive(reader: nat)
    | Load(reader: nat, now: int)

  function Init(cfg: M.Settings, now: int): Shared {
    var b := M.Init(cfg, now);
    Shared(b, b.state, b.expiry, b.generation, Unlocked, b.generation, map[b.generation := b.state], map[])
  }

  /** The next shared state; an action that is not enabled changes nothing. */
  function Apply(cfg: M.Settings, s: Shared, a: Action): Shared
    requires cfg.Usable()
  {
    match a
    case Section(e) =>
      if s.phase.Unlocked? && M.Honest(s.locked, e) then
        var b := M.Apply(cfg, s.locked, e);
        var same := (b.state, b.generation, b.expiry) == (s.locked.state, s.locked.generation, s.locked.expiry);
        s.(locked := b,
           phase := if same then Unlocked else BeforeGeneration(b.generation != s.locked.generation),
           regimes := s.regimes[b.generation := b.state])
      else s
    case Store =>
      (match s.phase
       case Unlocked => s
       case BeforeGeneration(_) => s.(fastGen := s.locked.generation, phase := BeforeExpiry)
       case BeforeExpiry => s.(fastExpiry := s.locked.expiry, phase := BeforeState)
       case BeforeState => s.(fastState := s.locked.state, shown := s.locked.generation, phase := Unlocked))
    case Arrive(r) =>
      if r in s.readers then s else s.(readers := s.readers[r := LoadingState])
    case Load(r, now) =>
      if r in s.readers then s.(readers := s.readers[r := NextLoad(cfg, s, s.readers[r], now)]) else s
  }

  function NextLoad(cfg: M.Settings, s: Shared, reader: Reader, now: int): Reader {
    match reader
    case LoadingState => if s.fastState.Closed? then LoadingExpiry else SlowPath
    case LoadingExpiry => if cfg.interval > 0 && now >= s.fastExpiry then SlowPath else ReloadingState
    case ReloadingState => if s.fastState.Closed? then LoadingGeneration(s.shown) else SlowPath
    case LoadingGeneration(regime) => Admitted(regime, s.fastGen)
    case Admitted(_, _) => reader
    case SlowPath => reader
  }

  function Run(cfg: M.Settings, s: Shared, actions: seq<Action>): Shared
    requires cfg.Usable()
  {
    if actions == [] then s else Apply(cfg, Run(cfg, s, actions[..|actions| - 1]), actions[|actions| - 1])
  }

  ghost predicate MirrorInv(s: Shared) {
    && s.shown <= s.fastGen == s.locked.generation - (if s.phase.BeforeGeneration? && s.phase.raised then 1 else 0)
    && (s.phase.Unlocked? ==>
          && (s.fastState, s.fastExpiry, s.fastGen) == (s.locked.state, s.locked.expiry, s.locked.generation)
          && s.shown == s.locked.generation)
    && (s.phase.BeforeState? ==> s.fastExpiry == s.locked.expiry)
  }

  ghost predicate RegimeInv(s: Shared) {
    && (forall g :: g in s.regimes ==> g <= s.locked.generation)
    && s.locked.generation in s.regimes && s.regimes[s.locked.generation] == s.locked.state
    && s.shown in s.regimes && s.regimes[s.shown] == s.fastState
  }

  ghost predicate ReaderInv(s: Shared, reader: Reader) {
    match reader
    case LoadingGeneration(regime) =>
      regime <= s.fastGen && regime in s.regimes && s.regimes[regime].Closed?
    case Admitted(regime, generation) =>
      && regime <= generation <= s.locked.generation
      && regime in s.regimes && s.regimes[regime].Closed?
    case _ => true
  }

  ghost predicate Inv(s: Shared) {
    && MirrorInv(s)
    && RegimeInv(s)
    && forall r :: r in s.readers ==> ReaderInv(s, s.readers[r])
  }

  lemma ApplyKeepsInv(cfg: M.Settings, s: Shared, a: Action)
    requires cfg.Usable() && Inv(s)
    ensures Inv(Apply(cfg, s, a))
  {
    if a.Section? && s.phase.Unlocked? && M.Honest(s.locked, a.event) {
      M.GenerationStep(cfg, s.locked, a.event);
      var after := Apply(cfg, s, a);
      forall r | r in after.readers
        ensures ReaderInv(after, after.readers[r])
      {
        assert ReaderInv(s, s.readers[r]);
      }
    } else if a.Load? && a.reader in s.readers {
      assert ReaderInv(s, s.readers[a.reader]);
    }
  }

  lemma {:induction false} RunKeepsInv(cfg: M.Settings, s: Shared, actions: seq<Action>)
    requires cfg.Usable() && Inv(s)
    ensures Inv(Run(cfg, s, actions))
  {
    if actions != [] {
      RunKeepsInv(cfg, s, actions[..|actions| - 1]);
      ApplyKeepsInv(cfg, Run(cfg, s, actions[..|actions| - 1]), actions[|actions| - 1]);
    }
  }

  /** In every interleaving the generation a fast admission carries is at least that of the
      Closed regime it observed, and when nothing moved in between it is that very regime. */
  lemma FastGenerationIsNeverStale(cfg: M.Settings, start: int, actions: seq<Action>, r: nat)
    requires cfg.Usable()
    requires var s := Run(cfg, Init(cfg, start), actions); r in s.readers && s.readers[r].Admitted?
    ensures var s := Run(cfg, Init(cfg, start), actions);
            var Admitted(regime, generation) := s.readers[r];
            && regime <= generation <= s.locked.generation
            && regime in s.regimes && s.regimes[regime].Closed?
            && (regime == s.locked.generation ==> generation == regime && s.locked.state.Closed?)
  {
    RunKeepsInv(cfg, Init(cfg, start), actions);
    var s := Run(cfg, Init(cfg, start), actions);
    assert ReaderInv(s, s.readers[r]);
  }

  /** Whenever the mutex is free the mirrors equal the locked fields, so a reader that runs
      its four loads there admits only what BeforeRequest would, and changes nothing. */
  lemma UndisturbedFastAdmitRefinesSlow(cfg: M.Settings, start: int, actions: seq<Action>, r: nat, now: int)
    requires cfg.Usable()
    requires var s := Run(cfg, Init(cfg, start), actions);
             s.phase.Unlocked? && r in s.readers && s.readers[r].LoadingState?
    ensures var s := Run(cfg, Init(cfg, start), actions);
            var l := Load(r, now);
            var t := Run(cfg, s, [l, l, l, l]);
            && t.locked == s.locked && r in t.readers
            && (t.readers[r].Admitted? ==>
                  M.BeforeRequest(cfg, s.locked, now) == (s.locked, M.Admitted(t.readers[r].generation)))
            && (t.readers[r].Admitted? <==> s.locked.state.Closed? && (cfg.interval == 0 || now < s.locked.expiry))
  {
    RunKeepsInv(cfg, Init(cfg, start), actions);
    var s := Run(cfg, Init(cfg, start), actions);
    var l := Load(r, now);
    FourSteps(cfg, s, l);
  }

  lemma FourSteps(cfg: M.Settings, s: Shared, a: Action)
    requires cfg.Usable()
    ensures Run(cfg, s, [a, a, a, a]) == Apply(cfg, Apply(cfg, Apply(cfg, Apply(cfg, s, a), a), a), a)
  {
    assert [a, a, a, a][..3] == [a, a, a] && [a, a, a][..2] == [a, a] && [a, a][..1] == [a] && [a][..0] == [];
    assert Run(cfg, s, [a]) == Apply(cfg, s, a);
    assert Run(cfg, s, [a, a]) == Apply(cfg, Run(cfg, s, [a]), a);
    assert Run(cfg, s, [a, a, a]) == Apply(cfg, Run(cfg, s, [a, a]), a);
  }

  /** The last load of a fast admission brings a generation other than that of the Closed regime
      the reader saw exactly when the breaker has left that regime and stored a later generation:
      a section that has raised the generation and not stored it yet does not count. */
  lemma LaterGenerationExactly(cfg: M.Settings, start: int, actions: seq<Action>, r: nat, now: int)
    requires cfg.Usable()
    requires var s := Run(cfg, Init(cfg, start), actions); r in s.readers && s.readers[r].LoadingGeneration?
    ensures var s := Run(cfg, Init(cfg, start), actions);
            var regime := s.readers[r].regime;
            var reader := Apply(cfg, s, Load(r, now)).readers[r];
            && reader.Admitted? && reader.regime == regime
            && (reader.generation != regime <==>
                  s.locked.generation > regime + (if s.phase.BeforeGeneration? && s.phase.raised then 1 else 0))
            && (s.phase.Unlocked? ==> reader.generation == s.locked.generation)
  {
    RunKeepsInv(cfg, Init(cfg, start), actions);
    var s := Run(cfg, Init(cfg, start), actions);
    assert ReaderInv(s, s.readers[r]);
  }

  // ----- A fast admission that decides a trial it was not admitted to -----

  /** Opens on one failure and closes on one successful trial. */
  ghost predicate Touchy(cfg: M.Settings) {
    && cfg.Usable() && cfg.maxRequests == 1 && cfg.interval == 0 && cfg.window.None?
    && forall c {:trigger cfg.readyToTrip(c)} :: cfg.readyToTrip(c)
  }

  ghost predicate Reachable(cfg: M.Settings, start: int, s: Shared)
    requires cfg.Usable()
  {
    exists actions :: Run(cfg, Init(cfg, start), actions) == s
  }

  lemma ReachStep(cfg: M.Settings, start: int, s: Shared, a: Action)
    requires cfg.Usable() && Reachable(cfg, start, s)
    ensures Reachable(cfg, start, Apply(cfg, s, a))
  {
    var actions :| Run(cfg, Init(cfg, start), actions) == s;
    var more := actions + [a];
    assert more[..|actions|] == actions;
    assert Run(cfg, Init(cfg, start), more) == Apply(cfg, s, a);
  }

  /** The three stores of one section. */
  lemma StoreAll(cfg: M.Settings, start: int, s: Shared) returns (t: Shared)
    requires cfg.Usable() && Reachable(cfg, start, s) && s.phase.BeforeGeneration?
    ensures Reachable(cfg, start, t)
    ensures t == s.(fastGen := s.locked.generation, fastExpiry := s.locked.expiry, fastState := s.locked.state,
                    shown := s.locked.generation, phase := Unlocked)
  {
    ReachStep(cfg, start, s, Store);
    t := Apply(cfg, s, Store);
    ReachStep(cfg, start, t, Store);
    t := Apply(cfg, t, Store);
    ReachStep(cfg, start, t, Store);
    t := Apply(cfg, t, Store);
  }

  /** A reader that has seen Closed twice and is about to load the generation. */
  lemma ReaderIsReady(cfg: M.Settings, start: int) returns (s: Shared)
    requires Touchy(cfg)
    ensures Reachable(cfg, start, s)
    ensures s == Init(cfg, start).(readers := map[0 := LoadingGeneration(0)])
  {
    s := Init(cfg, start);
    assert Run(cfg, s, []) == s;
    ReachStep(cfg, start, s, Arrive(0));
    s := Apply(cfg, s, Arrive(0));
    ReachStep(cfg, start, s, Load(0, start));
    s := Apply(cfg, s, Load(0, start));
    ReachStep(cfg, start, s, Load(0, start));
    s := Apply(cfg, s, Load(0, start));
    ReachStep(cfg, start, s, Load(0, start));
    s := Apply(cfg, s, Load(0, start));
    assert s.readers == map[0 := LoadingGeneration(0)];
  }

  /** Meanwhile a failure opens the circuit, and a look at the state after the Timeout turns it to
      Half-Open: nobody has been admitted to that trial. */
  lemma CircuitMovesOn(cfg: M.Settings, start: int, s: Shared) returns (t: Shared)
    requires Touchy(cfg) && Reachable(cfg, start, s)
    requires s == Init(cfg, start).(readers := map[0 := LoadingGeneration(0)])
    ensures Reachable(cfg, start, t)
    ensures t.locked.state.HalfOpen? && t.locked.generation == 2 && t.locked.era == []
    ensures t.locked.counts == M.Init(cfg, start).counts && t.locked.mark == 0
    ensures t.phase.Unlocked? && t.fastGen == 2 && t.readers == s.readers
  {
    var failure := Section(M.Complete(0, false, start));
    ReachStep(cfg, start, s, failure);
    t := Apply(cfg, s, failure);
    assert t.locked.state.Open? && t.locked.generation == 1 && t.locked.expiry == start + cfg.timeout;
    t := StoreAll(cfg, start, t);
    var look := Section(M.Observe(start + cfg.timeout + 1));
    ReachStep(cfg, start, t, look);
    t := Apply(cfg, t, look);
    assert t.locked.state.HalfOpen? && t.locked.generation == 2;
    t := StoreAll(cfg, start, t);
  }

  /** So a call can be let in by a Closed regime, carry the generation of a trial that admitted
      nobody, and decide it: its failure opens the circuit again and its success closes it. */
  lemma FastAdmissionCanDecideATrial(cfg: M.Settings, start: int, now: int) returns (s: Shared)
    requires Touchy(cfg)
    ensures Reachable(cfg, start, s)
    ensures s.readers == map[0 := Admitted(0, 2)] && s.locked.state.HalfOpen? && s.locked.generation == 2
    ensures M.Apply(cfg, s.locked, M.Complete(2, false, now)).state.Open?
    ensures M.Apply(cfg, s.locked, M.Complete(2, true, now)).state.Closed?
  {
    s := ReaderIsReady(cfg, start);
    s := CircuitMovesOn(cfg, start, s);
    ReachStep(cfg, start, s, Load(0, now));
    s := Apply(cfg, s, Load(0, now));
    assert s.readers == map[0 := Admitted(0, 2)];
  }
}
