// examples/circuitbreaker-redis/breaker.go: the two Lua scripts as atomic steps on one
// Redis hash, and any number of clients that interleave them. Times are milliseconds.
module RedisBreaker {
  import opened Basics
  import opened Errors
  import opened BreakerCounts
  import M = BreakerMachine

  datatype Limits = Limits(threshold: int, openMs: int, maxTrials: int) {
    // What Config.setDefaults establishes.
    predicate Usable() {
      threshold >= 1 && openMs >= 0 && maxTrials >= 1
    }
  }

  /** The five hash fields; the hash is absent until the first write, and after Reset. */
  datatype Fields = Fields(state: M.State, generation: int, expiry: int, consecFails: int, halfOpenAdmits: int)

  const DEFAULTS := Fields(M.Closed, 0, 0, 0, 0)

  datatype Verdict = Verdict(state: M.State, generation: int, allowed: bool, retryAfter: int)

  function AdmitStep(l: Limits, f: Fields, now: int): (Fields, Verdict) {
    var g := if f.state.Open? && now >= f.expiry
             then f.(state := M.HalfOpen, generation := f.generation + 1, halfOpenAdmits := 0) else f;
    match g.state
    case Closed => (g, Verdict(M.Closed, g.generation, true, 0))
    case Open => (g, Verdict(M.Open, g.generation, false, Max(0, g.expiry - now)))
    case HalfOpen =>
      if g.halfOpenAdmits < l.maxTrials
      then (g.(halfOpenAdmits := g.halfOpenAdmits + 1), Verdict(M.HalfOpen, g.generation, true, 0))
      else (g, Verdict(M.HalfOpen, g.generation, false, 0))
  }

  function RecordStep(l: Limits, f: Fields, admitGen: int, success: bool, now: int): Fields {
    if admitGen != f.generation then f else
      match f.state
      case Closed =>
        if success then f.(consecFails := 0)
        else if f.consecFails + 1 >= l.threshold then
          f.(state := M.Open, generation := f.generation + 1, expiry := now + l.openMs, consecFails := 0)
        else f.(consecFails := f.consecFails + 1)
      case HalfOpen =>
        if success then
          var left := f.halfOpenAdmits - 1;
          if left <= 0
          then f.(state := M.Closed, generation := f.generation + 1, consecFails := 0, halfOpenAdmits := 0)
          else f.(halfOpenAdmits := left)
        else
          Fields(M.Open, f.generation + 1, now + l.openMs, 0, 0)
      case Open => f
  }

  /** The hash as the scripts see and write it. */
  class Hash {
    var stored: Option<Fields>

    function View(): Fields
      reads this
    {
      match stored
      case None => DEFAULTS
      case Some(f) => f
    }

    constructor ()
      ensures View() == DEFAULTS
    {
      stored := None;
    }

    method AdmitScript(l: Limits, now: int) returns (v: Verdict)
      requires l.Usable()
      modifies this
      ensures (View(), v) == AdmitStep(l, old(View()), now)
    {
      var Fields(state, generation, expiry, consecFails, halfOpenAdmits) := View();
      if state == M.Open && now >= expiry {
        state := M.HalfOpen;
        generation := generation + 1;
        halfOpenAdmits := 0;
        stored := Some(Fields(state, generation, 0, consecFails, halfOpenAdmits));
      }
      var allowed, retryAfter := false, 0;
      if state == M.Closed {
        allowed := true;
      } else if state == M.Open {
        retryAfter := expiry - now;
        if retryAfter < 0 {
          retryAfter := 0;
        }
      } else if state == M.HalfOpen {
        if halfOpenAdmits < l.maxTrials {
          halfOpenAdmits := halfOpenAdmits + 1;
          stored := Some(Fields(state, generation, expiry, consecFails, halfOpenAdmits));
          allowed := true;
        }
      }
      v := Verdict(state, generation, allowed, retryAfter);
    }

    method RecordScript(l: Limits, admitGen: int, success: bool, now: int) returns (state: M.State, generation: int)
      modifies this
      ensures View() == RecordStep(l, old(View()), admitGen, success, now)
      ensures (state, generation) == (View().state, View().generation)
    {
      var expiry, consecFails, halfOpenAdmits;
      var f := View();
      state, generation, expiry := f.state, f.generation, f.expiry;
      consecFails, halfOpenAdmits := f.consecFails, f.halfOpenAdmits;
      if admitGen != generation {
        return;
      }
      if state == M.Closed {
        if success {
          consecFails := 0;
        } else {
          consecFails := consecFails + 1;
          if consecFails >= l.threshold {
            state := M.Open;
            generation := generation + 1;
            expiry := now + l.openMs;
            consecFails := 0;
          }
        }
      } else if state == M.HalfOpen {
        if success {
          halfOpenAdmits := halfOpenAdmits - 1;
          if halfOpenAdmits <= 0 {
            state := M.Closed;
            generation := generation + 1;
            consecFails := 0;
            halfOpenAdmits := 0;
          }
        } else {
          state := M.Open;
          generation := generation + 1;
          expiry := now + l.openMs;
          consecFails := 0;
          halfOpenAdmits := 0;
        }
      }
      stored := Some(Fields(state, generation, expiry, consecFails, halfOpenAdmits));
    }

    method Delete()
      modifies this
      ensures View() == DEFAULTS
    {
      stored := None;
    }
  }

  // ----- One client -----

  datatype FailMode = FailOpen | FailClosed

  /** What became of one Execute: whether fn ran, and the error the caller got. */
  datatype Outcome = Outcome(ran: bool, err: Option<Error>)

  const CIRCUIT_OPEN_ERROR := Error({CIRCUIT_OPEN}, false)

  class Client {
    const failMode: FailMode
    var lastState: M.State
    var changes: seq<(M.State, M.State)>  // the OnStateChange calls since the last Reset

    /** The observed changes form one path from Closed to lastState, with no empty step. */
    ghost predicate Valid()
      reads this
    {
      && (forall i :: 0 <= i < |changes| ==> changes[i].0 != changes[i].1)
      && (forall i :: 0 < i < |changes| ==> changes[i].0 == changes[i - 1].1)
      && (changes != [] ==> changes[0].0 == M.Closed)
      && lastState == if changes == [] then M.Closed else changes[|changes| - 1].1
    }

    constructor (mode: FailMode)
      ensures Valid() && failMode == mode && lastState == M.Closed
    {
      failMode, lastState, changes := mode, M.Closed, [];
    }

    method FireStateChangeIfChanged(newState: M.State)
      requires Valid()
      modifies this
      ensures Valid() && lastState == newState && old(changes) <= changes
    {
      var prev := lastState;
      lastState := newState;
      if prev == newState {
        return;
      }
      changes := changes + [(prev, newState)];
    }

    /** A script that fails for the client may have been lost on the way, or only its reply: the
        *Lands parameters say which. fnErr is what fn returns if it runs, and meanwhile the hash as
        the other clients leave it by then. The client runs the admission script once, records at
        most once, and only what it was admitted under. */
    method Execute(hash: Hash, l: Limits, ctxErr: Option<Error>, fnErr: Option<Error>, meanwhile: Fields,
                   admitFails: bool, admitLands: bool, recordFails: bool, recordLands: bool, now: int, later: int)
      returns (o: Outcome)
      requires Valid() && l.Usable()
      modifies this, hash
      ensures Valid() && old(changes) <= changes
      ensures ctxErr.Some? ==> o == Outcome(false, ctxErr) && hash.View() == old(hash.View())
      ensures ctxErr.None? && admitFails ==> lastState == old(lastState)
      ensures ctxErr.None? && admitFails && failMode.FailClosed? ==>
                && o == Outcome(false, Some(CIRCUIT_OPEN_ERROR))
                && hash.View() == if admitLands then AdmitStep(l, old(hash.View()), now).0 else old(hash.View())
      ensures ctxErr.None? && admitFails && failMode.FailOpen? ==>
                o == Outcome(true, fnErr) && hash.View() == meanwhile
      ensures ctxErr.None? && !admitFails ==>
                var (f, v) := AdmitStep(l, old(hash.View()), now);
                if !v.allowed
                then o == Outcome(false, Some(CIRCUIT_OPEN_ERROR)) && hash.View() == f && lastState == v.state
                else
                  && o == Outcome(true, fnErr)
                  && hash.View() == (if recordFails && !recordLands then meanwhile
                                     else RecordStep(l, meanwhile, v.generation, fnErr.None?, later))
                  && lastState == (if recordFails then v.state else hash.View().state)
    {
      if ctxErr.Some? {
        return Outcome(false, ctxErr);
      }
      var v := Verdict(M.Closed, 0, false, 0);
      if !admitFails || admitLands {
        v := hash.AdmitScript(l, now);
      }
      if admitFails {
        if failMode.FailClosed? {
          return Outcome(false, Some(CIRCUIT_OPEN_ERROR));
        }
        hash.stored := Some(meanwhile);
        return Outcome(true, fnErr);
      }
      FireStateChangeIfChanged(v.state);
      if !v.allowed {
        return Outcome(false, Some(CIRCUIT_OPEN_ERROR));
      }
      hash.stored := Some(meanwhile);
      if !recordFails || recordLands {
        var newState, _ := hash.RecordScript(l, v.generation, fnErr.None?, later);
        if !recordFails {
          FireStateChangeIfChanged(newState);
        }
      }
      o := Outcome(true, fnErr);
    }

    method Reset(hash: Hash)
      modifies this, hash
      ensures Valid() && lastState == M.Closed && hash.View() == DEFAULTS
    {
      hash.Delete();
      lastState, changes := M.Closed, [];
    }
  }

  // ----- Interleaved clients -----

  /** held holds the generation of every admission since the last Reset that a client may still
      record; stale holds those from before it. lost holds the admissions since the last Reset
      that nobody will ever record: of clients that died, of replies and records that got lost,
      and the slots State() takes, which never records. regimes remembers the state of every
      generation and log the outcomes recorded in this Closed one, both since the last Reset;
      touched says that a stale record has changed the hash since then. */
  datatype System = System(
    hash: Fields,
    held: multiset<int>,
    stale: multiset<int>,
    lost: multiset<int>,
    regimes: map<int, M.State>,
    log: seq<bool>,
    touched: bool)

  datatype Action =
    | AdmitAt(now: int)                                          // a client's admission
    | PollAt(now: int)                                           // State()
    | Lose(generation: int)                                      // a client will not record after all
    | RecordAt(generation: int, success: bool, now: int)
    | RecordStale(generation: int, success: bool, now: int)
    | ResetNow

  const START := System(DEFAULTS, multiset{}, multiset{}, multiset{}, map[0 := M.Closed], [], false)

  function Granted(v: Verdict): multiset<int> {
    if v.allowed then multiset{v.generation} else multiset{}
  }

  /** One script run, Reset or loss; a client records only an admission it holds, and only once. */
  function Apply(l: Limits, s: System, a: Action): System {
    match a
    case AdmitAt(now) =>
      var (f, v) := AdmitStep(l, s.hash, now);
      s.(hash := f, held := s.held + Granted(v), regimes := s.regimes[f.generation := f.state])
    case PollAt(now) =>
      var (f, v) := AdmitStep(l, s.hash, now);
      s.(hash := f, lost := s.lost + Granted(v), regimes := s.regimes[f.generation := f.state])
    case Lose(generation) =>
      if generation !in s.held then s
      else s.(held := s.held - multiset{generation}, lost := s.lost + multiset{generation})
    case RecordAt(generation, success, now) =>
      if generation !in s.held then s else
        var f := RecordStep(l, s.hash, generation, success, now);
        s.(hash := f,
           held := s.held - multiset{generation},
           regimes := s.regimes[f.generation := f.state],
           log := if f.generation != s.hash.generation then []
                  else if f.state.Closed? && generation == f.generation then s.log + [success]
                  else s.log)
    case RecordStale(generation, success, now) =>
      if generation !in s.stale then s else
        var f := RecordStep(l, s.hash, generation, success, now);
        s.(hash := f,
           stale := s.stale - multiset{generation},
           regimes := s.regimes[f.generation := f.state],
           touched := s.touched || f != s.hash)
    case ResetNow => START.(stale := s.stale + s.held)
  }

  function Run(l: Limits, s: System, actions: seq<Action>): System {
    if actions == [] then s else Apply(l, Run(l, s, actions[..|actions| - 1]), actions[|actions| - 1])
  }

  ghost predicate RegimeInv(s: System) {
    && 0 <= s.hash.generation
    && (s.hash.generation == 0 ==> s.hash.state.Closed?)
    && (s.hash.generation == 1 ==> s.hash.state.Open?)
    && (forall g :: g in s.regimes ==> g <= s.hash.generation)
    && s.hash.generation in s.regimes && s.regimes[s.hash.generation] == s.hash.state
    && (forall g :: g in s.held || g in s.lost ==> 0 <= g <= s.hash.generation && g != 1)
    && (forall g :: g in s.stale ==> 0 <= g && g != 1)
  }

  ghost predicate CounterInv(l: Limits, s: System) {
    match s.hash.state
    case Closed => s.hash.consecFails == TrailingRun(s.log, false) < l.threshold
    case Open => s.hash.generation !in s.held && s.hash.generation !in s.lost && s.hash.consecFails == 0
    case HalfOpen =>
      && s.hash.halfOpenAdmits == s.held[s.hash.generation] + s.lost[s.hash.generation]
      && 1 <= s.hash.halfOpenAdmits <= l.maxTrials
      && s.hash.consecFails == 0
  }

  ghost predicate Inv(l: Limits, s: System) {
    RegimeInv(s) && (!s.touched ==> CounterInv(l, s))
  }

  predicate NoReset(actions: seq<Action>) {
    forall i :: 0 <= i < |actions| ==> !actions[i].ResetNow?
  }

  /** One script run keeps the generation or raises it by one, and only a raise changes state. */
  predicate RaisesByOne(f: Fields, g: Fields) {
    g.generation == f.generation + (if g.state == f.state then 0 else 1)
  }

  lemma AdmitRaisesByOne(l: Limits, f: Fields, now: int)
    ensures RaisesByOne(f, AdmitStep(l, f, now).0)
  {
  }

  lemma RecordRaisesByOne(l: Limits, f: Fields, generation: int, success: bool, now: int)
    ensures RaisesByOne(f, RecordStep(l, f, generation, success, now))
  {
  }

  lemma GenerationStep(l: Limits, s: System, a: Action)
    requires !a.ResetNow?
    ensures RaisesByOne(s.hash, Apply(l, s, a).hash)
  {
    match a
    case AdmitAt(now) => AdmitRaisesByOne(l, s.hash, now);
    case PollAt(now) => AdmitRaisesByOne(l, s.hash, now);
    case Lose(_) =>
    case RecordAt(generation, success, now) => RecordRaisesByOne(l, s.hash, generation, success, now);
    case RecordStale(generation, success, now) => RecordRaisesByOne(l, s.hash, generation, success, now);
  }

  lemma PastRegimesStay(l: Limits, s: System, a: Action, g: int)
    requires !a.ResetNow? && g in s.regimes && g < s.hash.generation
    ensures g in Apply(l, s, a).regimes && Apply(l, s, a).regimes[g] == s.regimes[g]
  {
    GenerationStep(l, s, a);
    RegimesMove(l, s, a);
  }

  /** A step writes the regime of the generation it leaves, if any. */
  predicate WritesOneRegime(s: System, t: System) {
    t.regimes == s.regimes || t.regimes == s.regimes[t.hash.generation := t.hash.state]
  }

  lemma RecordMovesRegimes(l: Limits, s: System, generation: int, success: bool, now: int)
    ensures WritesOneRegime(s, Apply(l, s, RecordAt(generation, success, now)))
  {
    if generation in s.held {
      var f := RecordStep(l, s.hash, generation, success, now);
      assert Apply(l, s, RecordAt(generation, success, now)).regimes == s.regimes[f.generation := f.state];
    }
  }

  lemma StaleRecordMovesRegimes(l: Limits, s: System, generation: int, success: bool, now: int)
    ensures WritesOneRegime(s, Apply(l, s, RecordStale(generation, success, now)))
  {
  }

  lemma AdmissionMovesRegimes(l: Limits, s: System, now: int)
    ensures WritesOneRegime(s, Apply(l, s, AdmitAt(now))) && WritesOneRegime(s, Apply(l, s, PollAt(now)))
  {
  }

  lemma LossMovesNothing(l: Limits, s: System, generation: int)
    ensures Apply(l, s, Lose(generation)).regimes == s.regimes
  {
  }

  lemma RegimesMove(l: Limits, s: System, a: Action)
    requires !a.ResetNow?
    ensures WritesOneRegime(s, Apply(l, s, a))
  {
    match a
    case AdmitAt(now) => AdmissionMovesRegimes(l, s, now);
    case PollAt(now) => AdmissionMovesRegimes(l, s, now);
    case Lose(generation) => LossMovesNothing(l, s, generation);
    case RecordAt(generation, success, now) => RecordMovesRegimes(l, s, generation, success, now);
    case RecordStale(generation, success, now) => StaleRecordMovesRegimes(l, s, generation, success, now);
  }

  /** Who got the admission does not matter to the invariant. */
  predicate Admitting(a: Action) {
    a.AdmitAt? || a.PollAt?
  }

  lemma AdmitKeepsRegimes(l: Limits, s: System, a: Action)
    requires l.Usable() && RegimeInv(s) && Admitting(a)
    ensures RegimeInv(Apply(l, s, a))
  {
    AdmitRaisesByOne(l, s.hash, a.now);
    var t := Apply(l, s, a);
    GrantsOne(s.held, t.held, AdmitStep(l, s.hash, a.now).1);
    GrantsOne(s.lost, t.lost, AdmitStep(l, s.hash, a.now).1);
  }

  lemma GrantsOne(before: multiset<int>, after: multiset<int>, v: Verdict)
    requires after == before || after == before + Granted(v)
    ensures forall g :: g in after ==> g in before || g == v.generation
  {
  }

  /** What an admission leaves of the two counters, whoever got it. */
  lemma AdmitKeepsCounters(l: Limits, s: System, a: Action)
    requires l.Usable() && RegimeInv(s) && CounterInv(l, s) && Admitting(a)
    ensures CounterInv(l, Apply(l, s, a))
  {
    var t := Apply(l, s, a);
    assert t.log == s.log;
    if s.hash.state.Open? && t.hash.state.HalfOpen? {
      assert t.hash.generation !in s.held && t.hash.generation !in s.lost;
    }
  }

  lemma AdmitKeepsInv(l: Limits, s: System, a: Action)
    requires l.Usable() && Inv(l, s) && Admitting(a)
    ensures Inv(l, Apply(l, s, a))
  {
    AdmitKeepsRegimes(l, s, a);
    if !s.touched {
      AdmitKeepsCounters(l, s, a);
    }
  }

  lemma LossKeepsInv(l: Limits, s: System, generation: int)
    requires l.Usable() && Inv(l, s) && generation in s.held
    ensures Inv(l, Apply(l, s, Lose(generation)))
  {
    var t := Apply(l, s, Lose(generation));
    assert forall g :: g in t.held ==> g in s.held;
    assert forall g :: g in t.lost ==> g in s.lost || g == generation;
    assert forall g :: t.held[g] + t.lost[g] == s.held[g] + s.lost[g];
  }

  lemma RecordKeepsRegimes(l: Limits, s: System, generation: int, success: bool, now: int)
    requires l.Usable() && RegimeInv(s) && generation in s.held
    ensures RegimeInv(Apply(l, s, RecordAt(generation, success, now)))
  {
    var t := Apply(l, s, RecordAt(generation, success, now));
    assert forall g :: g in t.held ==> g in s.held;
  }

  lemma ClosedRecordKeepsCounters(l: Limits, s: System, success: bool, now: int)
    requires l.Usable() && CounterInv(l, s) && s.hash.state.Closed? && s.hash.generation in s.held
    requires forall g :: g in s.held || g in s.lost ==> g <= s.hash.generation
    ensures CounterInv(l, Apply(l, s, RecordAt(s.hash.generation, success, now)))
  {
    CountsFoldTheLog(s.log);
  }

  lemma TrialRecordKeepsCounters(l: Limits, s: System, success: bool, now: int)
    requires l.Usable() && CounterInv(l, s) && s.hash.state.HalfOpen? && s.hash.generation in s.held
    requires forall g :: g in s.held || g in s.lost ==> g <= s.hash.generation
    ensures CounterInv(l, Apply(l, s, RecordAt(s.hash.generation, success, now)))
  {
    assert TrailingRun([], false) == 0;
  }

  lemma LateRecordKeepsCounters(l: Limits, s: System, generation: int, success: bool, now: int)
    requires CounterInv(l, s) && generation != s.hash.generation
    ensures CounterInv(l, Apply(l, s, RecordAt(generation, success, now)))
  {
  }

  lemma RecordKeepsInv(l: Limits, s: System, generation: int, success: bool, now: int)
    requires l.Usable() && Inv(l, s) && generation in s.held
    ensures Inv(l, Apply(l, s, RecordAt(generation, success, now)))
  {
    RecordKeepsRegimes(l, s, generation, success, now);
    if !s.touched {
      if generation != s.hash.generation {
        LateRecordKeepsCounters(l, s, generation, success, now);
      } else if s.hash.state.Closed? {
        ClosedRecordKeepsCounters(l, s, success, now);
      } else if s.hash.state.HalfOpen? {
        TrialRecordKeepsCounters(l, s, success, now);
      }
    }
  }

  lemma StaleRecordKeepsInv(l: Limits, s: System, generation: int, success: bool, now: int)
    requires l.Usable() && Inv(l, s) && generation in s.stale
    ensures Inv(l, Apply(l, s, RecordStale(generation, success, now)))
  {
    var t := Apply(l, s, RecordStale(generation, success, now));
    assert forall g :: g in t.stale ==> g in s.stale;
  }

  lemma ResetKeepsInv(l: Limits, s: System)
    requires l.Usable() && Inv(l, s)
    ensures Inv(l, Apply(l, s, ResetNow))
  {
    var t := Apply(l, s, ResetNow);
    assert forall g :: g in t.stale ==> g in s.stale || g in s.held;
  }

  lemma ApplyKeepsInv(l: Limits, s: System, a: Action)
    requires l.Usable() && Inv(l, s)
    ensures Inv(l, Apply(l, s, a))
  {
    match a
    case AdmitAt(now) => AdmitKeepsInv(l, s, a);
    case PollAt(now) => AdmitKeepsInv(l, s, a);
    case Lose(generation) =>
      if generation in s.held {
        LossKeepsInv(l, s, generation);
      }
    case RecordAt(generation, success, now) =>
      if generation in s.held {
        RecordKeepsInv(l, s, generation, success, now);
      }
    case RecordStale(generation, success, now) =>
      if generation in s.stale {
        StaleRecordKeepsInv(l, s, generation, success, now);
      }
    case ResetNow => ResetKeepsInv(l, s);
  }

  /** Over every interleaving, Resets included: each generation has one state; and as long as no
      record from before the last Reset has changed the hash, in half-open the trial counter is
      the number of admissions of that generation not yet recorded, between 1 and MaxRequests,
      and in closed the failure counter is the trailing run, below the threshold. */
  lemma {:induction false} RunKeepsInv(l: Limits, actions: seq<Action>)
    requires l.Usable()
    ensures Inv(l, Run(l, START, actions))
  {
    if actions != [] {
      RunKeepsInv(l, actions[..|actions| - 1]);
      ApplyKeepsInv(l, Run(l, START, actions[..|actions| - 1]), actions[|actions| - 1]);
    }
  }

  /** Between Resets generations only grow, and while one lasts its state does. */
  lemma {:induction false} GenerationsOnlyGrow(l: Limits, s: System, actions: seq<Action>)
    requires l.Usable() && Inv(l, s) && NoReset(actions)
    ensures var t := Run(l, s, actions);
            && t.hash.generation >= s.hash.generation
            && (t.hash.generation == s.hash.generation ==> t.hash.state == s.hash.state)
            && forall g :: g in s.regimes && g < s.hash.generation ==> g in t.regimes && t.regimes[g] == s.regimes[g]
  {
    if actions != [] {
      GenerationsOnlyGrow(l, s, actions[..|actions| - 1]);
      GenerationStep(l, Run(l, s, actions[..|actions| - 1]), actions[|actions| - 1]);
      forall g | g in s.regimes && g < s.hash.generation
        ensures g in Run(l, s, actions).regimes && Run(l, s, actions).regimes[g] == s.regimes[g]
      {
        PastRegimesStay(l, Run(l, s, actions[..|actions| - 1]), actions[|actions| - 1], g);
      }
    }
  }

  /** A trial phase ends closed exactly when a success is recorded and no admission of its
      generation is left, held or lost; and open exactly on a recorded failure. */
  lemma TrialVerdict(l: Limits, actions: seq<Action>, success: bool, now: int)
    requires l.Usable()
    requires var s := Run(l, START, actions);
             s.hash.state.HalfOpen? && !s.touched && s.hash.generation in s.held
    ensures var s := Run(l, START, actions);
            var g := s.hash.generation;
            var t := Apply(l, s, RecordAt(g, success, now));
            && t.held[g] == s.held[g] - 1 && t.lost[g] == s.lost[g]
            && (t.hash.state.Closed? <==> success && t.held[g] == 0 && t.lost[g] == 0)
            && (t.hash.state.Open? <==> !success)
  {
    RunKeepsInv(l, actions);
  }

  // ----- Whether a trial can still end -----

  /** No Reset, and no client from before one. */
  predicate Undisturbed(actions: seq<Action>) {
    forall i :: 0 <= i < |actions| ==> !actions[i].ResetNow? && !actions[i].RecordStale?
  }

  /** Some continuation ends the trial of this generation in the given state. */
  ghost predicate CanEnd(l: Limits, s: System, state: M.State) {
    exists actions :: Undisturbed(actions) && EndsIn(Run(l, s, actions), s.hash.generation, state)
  }

  predicate EndsIn(t: System, generation: int, state: M.State) {
    generation + 1 in t.regimes && t.regimes[generation + 1] == state
  }

  /** A trial of generation g with at least one slot lost, or past it, opened. */
  ghost predicate StuckOrOpened(l: Limits, s: System, g: int, wedged: bool) {
    && Inv(l, s) && !s.touched
    && if s.hash.generation == g
       then s.hash.state.HalfOpen? && s.lost[g] >= (if wedged then l.maxTrials else 1)
            && (g + 1) !in s.regimes
       else !wedged && s.hash.generation > g && EndsIn(s, g, M.Open)
  }

  lemma StuckInTrial(l: Limits, s: System, a: Action, g: int, wedged: bool)
    requires l.Usable() && StuckOrOpened(l, s, g, wedged) && s.hash.generation == g && !a.ResetNow? && !a.RecordStale?
    requires Inv(l, Apply(l, s, a)) && RaisesByOne(s.hash, Apply(l, s, a).hash)
    ensures StuckOrOpened(l, Apply(l, s, a), g, wedged)
  {
  }

  lemma OpenedStays(l: Limits, s: System, a: Action, g: int)
    requires StuckOrOpened(l, s, g, false) && s.hash.generation > g && !a.ResetNow? && !a.RecordStale?
    requires Inv(l, Apply(l, s, a)) && RaisesByOne(s.hash, Apply(l, s, a).hash)
    ensures StuckOrOpened(l, Apply(l, s, a), g, false)
  {
    if s.hash.generation > g + 1 {
      PastRegimesStay(l, s, a, g + 1);
    } else if Apply(l, s, a).hash.generation == g + 1 {
      assert s.regimes[g + 1] == s.hash.state;
    }
  }

  lemma StuckStep(l: Limits, s: System, a: Action, g: int, wedged: bool)
    requires l.Usable() && StuckOrOpened(l, s, g, wedged) && !a.ResetNow? && !a.RecordStale?
    ensures StuckOrOpened(l, Apply(l, s, a), g, wedged)
  {
    ApplyKeepsInv(l, s, a);
    GenerationStep(l, s, a);
    if s.hash.generation == g {
      StuckInTrial(l, s, a, g, wedged);
    } else {
      OpenedStays(l, s, a, g);
    }
  }

  lemma {:induction false} StuckRun(l: Limits, s: System, actions: seq<Action>, g: int, wedged: bool)
    requires l.Usable() && StuckOrOpened(l, s, g, wedged) && Undisturbed(actions)
    ensures StuckOrOpened(l, Run(l, s, actions), g, wedged)
  {
    if actions != [] {
      StuckRun(l, s, actions[..|actions| - 1], g, wedged);
      StuckStep(l, Run(l, s, actions[..|actions| - 1]), actions[|actions| - 1], g, wedged);
    }
  }

  lemma RunSnoc(l: Limits, s: System, actions: seq<Action>, a: Action)
    ensures Run(l, s, actions + [a]) == Apply(l, Run(l, s, actions), a)
  {
    assert (actions + [a])[..|actions|] == actions;
  }

  /** On trial in generation g, nothing lost: every admission can still be recorded. */
  ghost predicate Resolvable(l: Limits, s: System, g: int) {
    && CounterInv(l, s) && s.hash.state.HalfOpen? && s.hash.generation == g
    && s.lost[g] == 0
  }

  lemma RecordedTrial(l: Limits, s: System, g: int)
    requires Resolvable(l, s, g)
    ensures var t := Apply(l, s, RecordAt(g, true, 0));
            if s.held[g] == 1 then EndsIn(t, g, M.Closed) else Resolvable(l, t, g) && t.held[g] == s.held[g] - 1
  {
  }

  lemma {:induction false} RecordAll(l: Limits, s: System, actions: seq<Action>, g: int) returns (more: seq<Action>)
    requires Undisturbed(actions) && Resolvable(l, Run(l, s, actions), g)
    ensures Undisturbed(more) && EndsIn(Run(l, s, more), g, M.Closed)
    decreases Run(l, s, actions).held[g]
  {
    RecordedTrial(l, Run(l, s, actions), g);
    RunSnoc(l, s, actions, RecordAt(g, true, 0));
    more := actions + [RecordAt(g, true, 0)];
    if Run(l, s, actions).held[g] > 1 {
      more := RecordAll(l, s, more, g);
    }
  }

  /** A trial can still close the circuit exactly when none of its slots is lost. */
  lemma TrialCanCloseExactly(l: Limits, before: seq<Action>)
    requires l.Usable()
    requires var s := Run(l, START, before); s.hash.state.HalfOpen? && !s.touched
    ensures var s := Run(l, START, before);
            CanEnd(l, s, M.Closed) <==> s.lost[s.hash.generation] == 0
  {
    RunKeepsInv(l, before);
    var s := Run(l, START, before);
    var g := s.hash.generation;
    if s.lost[g] == 0 {
      assert Run(l, s, []) == s;
      var actions := RecordAll(l, s, [], g);
    } else {
      forall actions | Undisturbed(actions)
        ensures !EndsIn(Run(l, s, actions), g, M.Closed)
      {
        StuckRun(l, s, actions, g, false);
      }
    }
  }

  lemma TrialAdmits(l: Limits, s: System)
    requires CounterInv(l, s) && s.hash.state.HalfOpen?
    requires s.hash.generation !in s.held && s.lost[s.hash.generation] < l.maxTrials
    ensures var t := Apply(l, s, AdmitAt(0));
            t.hash.state.HalfOpen? && t.hash.generation == s.hash.generation && s.hash.generation in t.held
  {
  }

  lemma TrialFails(l: Limits, s: System)
    requires s.hash.state.HalfOpen? && s.hash.generation in s.held
    ensures EndsIn(Apply(l, s, RecordAt(s.hash.generation, false, 0)), s.hash.generation, M.Open)
  {
  }

  lemma TrialCanFail(l: Limits, s: System) returns (actions: seq<Action>)
    requires CounterInv(l, s) && s.hash.state.HalfOpen? && s.lost[s.hash.generation] < l.maxTrials
    ensures Undisturbed(actions) && EndsIn(Run(l, s, actions), s.hash.generation, M.Open)
  {
    var g := s.hash.generation;
    var t := s;
    actions := [];
    if g !in s.held {
      TrialAdmits(l, s);
      RunSnoc(l, s, actions, AdmitAt(0));
      t, actions := Apply(l, s, AdmitAt(0)), actions + [AdmitAt(0)];
    }
    TrialFails(l, t);
    RunSnoc(l, s, actions, RecordAt(g, false, 0));
    actions := actions + [RecordAt(g, false, 0)];
  }

  lemma WedgedTrial(l: Limits, s: System)
    requires l.Usable() && Inv(l, s) && !s.touched && s.hash.state.HalfOpen?
    requires s.lost[s.hash.generation] >= l.maxTrials
    ensures !CanEnd(l, s, M.Closed) && !CanEnd(l, s, M.Open)
  {
    forall actions | Undisturbed(actions)
      ensures (s.hash.generation + 1) !in Run(l, s, actions).regimes
    {
      StuckRun(l, s, actions, s.hash.generation, true);
    }
  }

  /** It can still end at all exactly while fewer than MaxRequests of its slots are lost; once they
      all are, nothing ends it but a Reset, or a record from before one. */
  lemma TrialCanEndExactly(l: Limits, before: seq<Action>)
    requires l.Usable()
    requires var s := Run(l, START, before); s.hash.state.HalfOpen? && !s.touched
    ensures var s := Run(l, START, before);
            (CanEnd(l, s, M.Closed) || CanEnd(l, s, M.Open)) <==> s.lost[s.hash.generation] < l.maxTrials
  {
    RunKeepsInv(l, before);
    var s := Run(l, START, before);
    if s.lost[s.hash.generation] < l.maxTrials {
      var actions := TrialCanFail(l, s);
    } else {
      WedgedTrial(l, s);
    }
  }

  // ----- Records under older generations -----

  /** A record under an older generation moves nothing but the client's own ledger. */
  lemma StaleRecordChangesNothing(l: Limits, actions: seq<Action>, generation: int, success: bool, now: int)
    requires l.Usable() && generation < Run(l, START, actions).hash.generation
    ensures var s := Run(l, START, actions);
            var t := Apply(l, s, RecordAt(generation, success, now));
            t.hash == s.hash && t.regimes == s.regimes && t.log == s.log && t.touched == s.touched
  {
    RunKeepsInv(l, actions);
  }

  predicate Late(s: System, a: Action) {
    a.RecordAt? && a.generation < s.hash.generation
  }

  /** The run without the records that came back under an older generation. */
  function WithoutLate(l: Limits, s: System, actions: seq<Action>): (r: seq<Action>) {
    if actions == [] then []
    else
      var front, a := actions[..|actions| - 1], actions[|actions| - 1];
      WithoutLate(l, s, front) + (if Late(Run(l, s, front), a) then [] else [a])
  }

  /** The same to everybody who is not about to record under an older generation. */
  ghost predicate Same(s: System, t: System) {
    && (t.hash, t.stale, t.regimes, t.log, t.touched) == (s.hash, s.stale, s.regimes, s.log, s.touched)
    && forall g :: g >= s.hash.generation ==> s.held[g] == t.held[g] && s.lost[g] == t.lost[g]
  }

  lemma SameAdmit(l: Limits, s: System, t: System, a: Action)
    requires Same(s, t) && Admitting(a)
    ensures Same(Apply(l, s, a), Apply(l, t, a))
  {
    AdmitRaisesByOne(l, s.hash, a.now);
    var extra := Granted(AdmitStep(l, s.hash, a.now).1);
    forall g | g >= s.hash.generation
      ensures (s.held + extra)[g] == (t.held + extra)[g] && (s.lost + extra)[g] == (t.lost + extra)[g]
    {
    }
  }

  lemma SameLoss(l: Limits, s: System, t: System, generation: int)
    requires Same(s, t)
    ensures Same(Apply(l, s, Lose(generation)), Apply(l, t, Lose(generation)))
  {
    var u, v := Apply(l, s, Lose(generation)), Apply(l, t, Lose(generation));
    assert generation >= s.hash.generation ==> (generation in s.held <==> generation in t.held);
    forall g | g >= s.hash.generation
      ensures u.held[g] == v.held[g] && u.lost[g] == v.lost[g]
    {
    }
  }

  lemma SameRecord(l: Limits, s: System, t: System, generation: int, success: bool, now: int)
    requires Same(s, t) && generation >= s.hash.generation
    ensures Same(Apply(l, s, RecordAt(generation, success, now)), Apply(l, t, RecordAt(generation, success, now)))
  {
    RecordRaisesByOne(l, s.hash, generation, success, now);
    assert generation in s.held <==> generation in t.held;
    forall g | g >= s.hash.generation
      ensures (s.held - multiset{generation})[g] == (t.held - multiset{generation})[g]
    {
    }
  }

  lemma SameLateRecord(l: Limits, s: System, t: System, generation: int, success: bool, now: int)
    requires Same(s, t) && RegimeInv(s) && generation < s.hash.generation
    ensures Same(Apply(l, s, RecordAt(generation, success, now)), t)
  {
    assert s.regimes[s.hash.generation := s.hash.state] == s.regimes;
  }

  lemma SameStaleRecord(l: Limits, s: System, t: System, generation: int, success: bool, now: int)
    requires Same(s, t)
    ensures Same(Apply(l, s, RecordStale(generation, success, now)), Apply(l, t, RecordStale(generation, success, now)))
  {
    RecordRaisesByOne(l, s.hash, generation, success, now);
  }

  lemma SameStep(l: Limits, s: System, t: System, a: Action)
    requires Same(s, t) && RegimeInv(s) && !a.ResetNow?
    ensures if Late(s, a) then Same(Apply(l, s, a), t) else Same(Apply(l, s, a), Apply(l, t, a))
  {
    match a
    case AdmitAt(now) => SameAdmit(l, s, t, a);
    case PollAt(now) => SameAdmit(l, s, t, a);
    case Lose(generation) => SameLoss(l, s, t, generation);
    case RecordAt(generation, success, now) =>
      if Late(s, a) {
        SameLateRecord(l, s, t, generation, success, now);
      } else {
        SameRecord(l, s, t, generation, success, now);
      }
    case RecordStale(generation, success, now) => SameStaleRecord(l, s, t, generation, success, now);
  }

  /** Between Resets the records of older generations might as well never have come back: hash,
      regimes and log end up the same without them. */
  lemma {:induction false} LateRecordsNeverMatter(l: Limits, s: System, actions: seq<Action>)
    requires l.Usable() && Inv(l, s) && NoReset(actions)
    ensures Same(Run(l, s, actions), Run(l, s, WithoutLate(l, s, actions)))
    ensures Inv(l, Run(l, s, actions))
  {
    if actions != [] {
      var front, a := actions[..|actions| - 1], actions[|actions| - 1];
      LateRecordsNeverMatter(l, s, front);
      SameStep(l, Run(l, s, front), Run(l, s, WithoutLate(l, s, front)), a);
      ApplyKeepsInv(l, Run(l, s, front), a);
      if !Late(Run(l, s, front), a) {
        assert WithoutLate(l, s, actions)[..|WithoutLate(l, s, actions)| - 1] == WithoutLate(l, s, front);
      } else {
        assert WithoutLate(l, s, actions) == WithoutLate(l, s, front);
      }
    }
  }

  // ----- Open -----

  predicate AdmitsBefore(actions: seq<Action>, deadline: int) {
    forall i :: 0 <= i < |actions| && Admitting(actions[i]) ==> actions[i].now < deadline
  }

  lemma OpenStep(l: Limits, s: System, a: Action)
    requires s.hash.state.Open? && !a.ResetNow? && (Admitting(a) ==> a.now < s.hash.expiry)
    ensures var t := Apply(l, s, a);
            t.hash == s.hash && t.log == s.log && t.held + t.lost <= s.held + s.lost
  {
  }

  /** While open, however the clients interleave before the timeout has run since the trip, short
      of a Reset the hash stays as the trip left it and nobody is admitted. */
  lemma {:induction false} OpenUntilExpiry(l: Limits, s: System, actions: seq<Action>)
    requires s.hash.state.Open? && NoReset(actions) && AdmitsBefore(actions, s.hash.expiry)
    ensures var t := Run(l, s, actions);
            t.hash == s.hash && t.log == s.log && t.held + t.lost <= s.held + s.lost
  {
    if actions != [] {
      var front := actions[..|actions| - 1];
      OpenUntilExpiry(l, s, front);
      OpenStep(l, Run(l, s, front), actions[|actions| - 1]);
    }
  }

  /** The first admission after the timeout is granted, whatever happened before, and starts a
      trial phase with exactly one slot taken. */
  lemma ExpiryStartsATrial(l: Limits, s: System, actions: seq<Action>, now: int)
    requires l.Usable() && s.hash.state.Open?
    requires NoReset(actions) && AdmitsBefore(actions, s.hash.expiry) && now >= s.hash.expiry
    ensures var t := Run(l, s, actions);
            var u := Apply(l, t, AdmitAt(now));
            && u.hash.state.HalfOpen? && u.hash.halfOpenAdmits == 1
            && u.hash.generation == s.hash.generation + 1
            && u.held == t.held + multiset{u.hash.generation}
  {
    OpenUntilExpiry(l, s, actions);
  }

  // ----- Across Reset -----

  /** What the clients admitted since make of the hash. */
  predicate Plain(actions: seq<Action>) {
    forall i :: 0 <= i < |actions| ==> actions[i].AdmitAt? || actions[i].RecordAt?
  }

  lemma PlainStepIgnoresStale(l: Limits, s: System, stale: multiset<int>, a: Action)
    requires a.AdmitAt? || a.RecordAt?
    ensures Apply(l, s.(stale := stale), a) == Apply(l, s, a).(stale := stale)
  {
  }

  /** They never meet the admissions from before. */
  lemma {:induction false} PlainRunsIgnoreStale(l: Limits, s: System, stale: multiset<int>, actions: seq<Action>)
    requires Plain(actions)
    ensures Run(l, s.(stale := stale), actions) == Run(l, s, actions).(stale := stale)
  {
    if actions != [] {
      PlainRunsIgnoreStale(l, s, stale, actions[..|actions| - 1]);
      PlainStepIgnoresStale(l, Run(l, s, actions[..|actions| - 1]), stale, actions[|actions| - 1]);
    }
  }

  lemma FailedCall(l: Limits, t: System)
    requires l.Usable() && t.hash.state.Closed?
    ensures var u := Apply(l, Apply(l, t, AdmitAt(0)), RecordAt(t.hash.generation, false, 0));
            if t.hash.consecFails + 1 < l.threshold
            then u.hash == t.hash.(consecFails := t.hash.consecFails + 1)
            else u.hash.state.Open? && u.hash.generation == t.hash.generation + 1
  {
  }

  /** From a Closed generation enough failures lead to the next, which is Open. */
  lemma {:induction false} Trip(l: Limits, s: System, actions: seq<Action>) returns (more: seq<Action>)
    requires l.Usable() && Plain(actions)
    requires var t := Run(l, s, actions); t.hash.state.Closed? && t.hash.consecFails < l.threshold
    ensures Plain(more)
    ensures var t, u := Run(l, s, actions), Run(l, s, more);
            u.hash.state.Open? && u.hash.generation == t.hash.generation + 1
    decreases l.threshold - Run(l, s, actions).hash.consecFails
  {
    var t := Run(l, s, actions);
    var fail := RecordAt(t.hash.generation, false, 0);
    RunSnoc(l, s, actions, AdmitAt(0));
    RunSnoc(l, s, actions + [AdmitAt(0)], fail);
    FailedCall(l, t);
    more := actions + [AdmitAt(0)] + [fail];
    if t.hash.consecFails + 1 < l.threshold {
      more := Trip(l, s, more);
    }
  }

  /** A half-open hash with its one trial slot taken by an admission still held. */
  predicate OnTrial(t: System) {
    t.hash.state.HalfOpen? && t.hash.halfOpenAdmits == 1 && t.hash.generation in t.held
  }

  lemma TrialEnds(l: Limits, t: System, success: bool)
    requires OnTrial(t)
    ensures var u := Apply(l, t, RecordAt(t.hash.generation, success, 0));
            u.hash.state == (if success then M.Closed else M.Open) && u.hash.generation == t.hash.generation + 1
  {
  }

  lemma TrialBegins(l: Limits, t: System)
    requires l.Usable() && t.hash.state.Open?
    ensures var u := Apply(l, t, AdmitAt(t.hash.expiry));
            OnTrial(u) && u.hash.generation == t.hash.generation + 1
  {
  }

  lemma Retry(l: Limits, s: System, actions: seq<Action>) returns (more: seq<Action>)
    requires l.Usable() && Plain(actions) && Run(l, s, actions).hash.state.Open?
    ensures Plain(more)
    ensures OnTrial(Run(l, s, more)) && Run(l, s, more).hash.generation == Run(l, s, actions).hash.generation + 1
  {
    var expiry := Run(l, s, actions).hash.expiry;
    TrialBegins(l, Run(l, s, actions));
    RunSnoc(l, s, actions, AdmitAt(expiry));
    more := actions + [AdmitAt(expiry)];
  }

  lemma EndTrial(l: Limits, s: System, actions: seq<Action>, success: bool) returns (more: seq<Action>)
    requires Plain(actions) && OnTrial(Run(l, s, actions))
    ensures Plain(more)
    ensures Run(l, s, more).hash.state == (if success then M.Closed else M.Open)
    ensures Run(l, s, more).hash.generation == Run(l, s, actions).hash.generation + 1
  {
    var t := Run(l, s, actions);
    TrialEnds(l, t, success);
    RunSnoc(l, s, actions, RecordAt(t.hash.generation, success, 0));
    more := actions + [RecordAt(t.hash.generation, success, 0)];
  }

  /** The clients admitted since the Reset alone can bring the hash on trial in any positive even
      generation. */
  lemma {:induction false} TrialInGeneration(l: Limits, s: System, g: int) returns (actions: seq<Action>)
    requires l.Usable() && s.hash == DEFAULTS && g >= 2 && g % 2 == 0
    ensures Plain(actions)
    ensures var t := Run(l, s, actions); OnTrial(t) && t.hash.generation == g
  {
    if g == 2 {
      assert Run(l, s, []) == s;
      actions := Trip(l, s, []);
    } else {
      actions := TrialInGeneration(l, s, g - 2);
      actions := EndTrial(l, s, actions, false);
    }
    actions := Retry(l, s, actions);
  }

  /** And in any generation but the first Open one they can leave it where a record counts. */
  lemma RecordingGeneration(l: Limits, s: System, g: int) returns (actions: seq<Action>)
    requires l.Usable() && s.hash == DEFAULTS && g >= 0 && g != 1
    ensures Plain(actions)
    ensures var t := Run(l, s, actions); t.hash.generation == g && !t.hash.state.Open?
  {
    if g == 0 {
      actions := [];
    } else if g % 2 == 0 {
      actions := TrialInGeneration(l, s, g);
    } else {
      actions := TrialInGeneration(l, s, g - 1);
      actions := EndTrial(l, s, actions, true);
    }
  }

  /** Whatever happens from s on, the hash is what it would be if the clients from before the
      Reset never came back. */
  ghost predicate CleanFrom(l: Limits, s: System) {
    forall actions :: Run(l, s.(stale := multiset{}), actions).hash == Run(l, s, actions).hash
  }

  lemma FailureCounts(l: Limits, f: Fields, now: int)
    requires l.Usable() && !f.state.Open?
    ensures RecordStep(l, f, f.generation, false, now) != f
  {
  }

  /** An admission held across Reset has a continuation in which its record counts. */
  lemma StaleAdmissionMatters(l: Limits, s: System, g: int)
    requires l.Usable() && s.hash == DEFAULTS && g in s.stale && g >= 0 && g != 1
    ensures !CleanFrom(l, s)
  {
    var actions := RecordingGeneration(l, s, g);
    var record := RecordStale(g, false, 0);
    var clean := s.(stale := multiset{});
    PlainRunsIgnoreStale(l, s, multiset{}, actions);
    PlainRunsIgnoreStale(l, s, s.stale, actions);
    assert s.(stale := s.stale) == s;
    RunSnoc(l, s, actions, record);
    RunSnoc(l, clean, actions, record);
    FailureCounts(l, Run(l, s, actions).hash, 0);
    assert Run(l, clean, actions + [record]).hash != Run(l, s, actions + [record]).hash;
  }

  lemma EmptyMultiset(m: multiset<int>)
    requires forall g :: g !in m
    ensures m == multiset{}
  {
    assert forall g :: m[g] == 0;
  }

  lemma NothingHeld(l: Limits, s: System)
    requires s.held == multiset{} && s.stale == multiset{}
    ensures CleanFrom(l, Apply(l, s, ResetNow))
  {
    var r := Apply(l, s, ResetNow);
    assert r.(stale := multiset{}) == r;
  }

  /** Deleting the hash starts the generations over, so Reset cuts off the past exactly when no
      admission is held: every admission held across it, of whatever generation, can still
      decide over the breaker. */
  lemma ResetIsCleanExactly(l: Limits, actions: seq<Action>)
    requires l.Usable()
    ensures var s := Run(l, START, actions);
            CleanFrom(l, Apply(l, s, ResetNow)) <==> s.held == multiset{} && s.stale == multiset{}
  {
    RunKeepsInv(l, actions);
    var s := Run(l, START, actions);
    if g :| g in s.stale + s.held {
      assert g in s.stale || g in s.held;
      StaleAdmissionMatters(l, Apply(l, s, ResetNow), g);
    } else {
      assert forall g :: g in s.stale || g in s.held ==> g in s.stale + s.held;
      EmptyMultiset(s.stale);
      EmptyMultiset(s.held);
      NothingHeld(l, s);
    }
  }

  /** In the instant after Reset only generation 0 counts. */
  lemma RecordAcrossReset(l: Limits, generation: int, now: int)
    requires l.Usable() && generation >= 0
    ensures RecordStep(l, DEFAULTS, generation, false, now) != DEFAULTS <==> generation == 0
  {
  }

  lemma RunThree(l: Limits, s: System, a: Action, b: Action, c: Action)
    ensures Run(l, s, [a, b, c]) == Apply(l, Apply(l, Apply(l, s, a), b), c)
  {
    RunTwo(l, s, a, b);
    RunSnoc(l, s, [a, b], c);
    assert [a, b] + [c] == [a, b, c];
  }

  lemma RunTwo(l: Limits, s: System, a: Action, b: Action)
    ensures Run(l, s, [a, b]) == Apply(l, Apply(l, s, a), b)
  {
    RunSnoc(l, s, [], a);
    RunSnoc(l, s, [a], b);
    assert [] + [a] == [a] && [a] + [b] == [a, b];
  }

  lemma TwoAdmittedOneFailed(l: Limits)
    requires l == Limits(1, 30_000, 1)
    ensures var s := Apply(l, Apply(l, Apply(l, START, AdmitAt(0)), AdmitAt(0)), RecordAt(0, false, 1));
            s.hash == Fields(M.Open, 1, 30_001, 0, 0) && s.held == multiset{0}
  {
    var one := Apply(l, START, AdmitAt(0));
    assert one.hash == DEFAULTS && one.held == multiset{0};
    var two := Apply(l, one, AdmitAt(0));
    assert two.hash == DEFAULTS && two.held == multiset{0, 0};
  }

  /** Such an admission can be stale already when the Reset comes: here the failure recorded last
      was admitted before the breaker had opened once, and it opens the freshly reset breaker again. */
  lemma ResetRevivesAStaleAdmission()
    ensures var l := Limits(1, 30_000, 1);
            var s := Run(l, START, [AdmitAt(0), AdmitAt(0), RecordAt(0, false, 1)]);
            && s.hash.state.Open? && s.hash.generation == 1 && 0 in s.held
            && RecordStep(l, s.hash, 0, false, 2) == s.hash
            && Apply(l, Apply(l, s, ResetNow), RecordStale(0, false, 2)).hash.state.Open?
  {
    var l := Limits(1, 30_000, 1);
    RunThree(l, START, AdmitAt(0), AdmitAt(0), RecordAt(0, false, 1));
    TwoAdmittedOneFailed(l);
  }

  /** A look at State() leaves nothing behind that could come back: after one the Reset of a fresh
      breaker is clean. */
  lemma PollingLeavesResetClean(l: Limits, now: int)
    requires l.Usable()
    ensures CleanFrom(l, Apply(l, Apply(l, START, PollAt(now)), ResetNow))
  {
    NothingHeld(l, Apply(l, START, PollAt(now)));
  }

  // ----- How long it stays open -----

  lemma RecordOpens(l: Limits, f: Fields, generation: int, success: bool, now: int)
    requires !f.state.Open? && RecordStep(l, f, generation, success, now).state.Open?
    ensures !success && generation == f.generation
    ensures RecordStep(l, f, generation, success, now).expiry == now + l.openMs
    ensures RecordStep(l, f, generation, success, now).generation == f.generation + 1
  {
  }

  /** The hash opens only on a failure recorded under its own generation, and then until that
      record's time plus the configured duration. */
  lemma OpeningSetsExpiry(l: Limits, s: System, a: Action)
    requires !s.hash.state.Open? && Apply(l, s, a).hash.state.Open?
    ensures a.RecordAt? || a.RecordStale?
    ensures !a.success && a.generation == s.hash.generation
    ensures Apply(l, s, a).hash.expiry == a.now + l.openMs
    ensures Apply(l, s, a).hash.generation == s.hash.generation + 1
  {
    match a
    case RecordAt(generation, success, now) => RecordOpens(l, s.hash, generation, success, now);
    case RecordStale(generation, success, now) => RecordOpens(l, s.hash, generation, success, now);
    case _ =>
  }

  /** So once a record at some time opens it, short of a Reset nobody is admitted before that time
      plus openMs, and is told how long that is; and the first to come then starts a trial. */
  lemma OpenForItsDuration(l: Limits, s: System, a: Action, actions: seq<Action>, now: int)
    requires l.Usable() && !s.hash.state.Open? && Apply(l, s, a).hash.state.Open?
    requires a.RecordAt? || a.RecordStale?
    requires NoReset(actions) && AdmitsBefore(actions, a.now + l.openMs)
    ensures var t := Run(l, Apply(l, s, a), actions);
            var (f, v) := AdmitStep(l, t.hash, now);
            if now < a.now + l.openMs
            then f == t.hash && v == Verdict(M.Open, s.hash.generation + 1, false, a.now + l.openMs - now)
            else v == Verdict(M.HalfOpen, s.hash.generation + 2, true, 0) && f.halfOpenAdmits == 1
  {
    OpeningSetsExpiry(l, s, a);
    OpenUntilExpiry(l, Apply(l, s, a), actions);
  }

  /** A trial lets a client in exactly while fewer of its slots are taken, held or lost, than
      MaxRequests. */
  lemma TrialAdmitsExactly(l: Limits, actions: seq<Action>, now: int)
    requires l.Usable()
    requires var s := Run(l, START, actions); s.hash.state.HalfOpen? && !s.touched
    ensures var s := Run(l, START, actions);
            var g := s.hash.generation;
            AdmitStep(l, s.hash, now).1.allowed <==> s.held[g] + s.lost[g] < l.maxTrials
  {
    RunKeepsInv(l, actions);
  }
}
