// circuitbreaker/breaker.go: the breaker object. Every locked section moves the fields
// exactly as the machine of BreakerMachine.dfy says, and leaves the lock-free mirrors
// equal to the locked fields; the fast path then admits only what the slow path would.
module CircuitBreakers {
  import opened Basics
  import opened BreakerCounts
  import opened CountWindows
  import opened TimeWindows
  import M = BreakerMachine

  /** The slidingWindow interface with its two implementations, over one history. */
  class SlidingWindow {
    const settings: M.WindowSettings
    const count: CountWindow?
    const time: TimeWindow?
    ghost var history: seq<Outcome>
    ghost const Repr: set<object>

    ghost predicate Valid()
      reads this, Repr
    {
      && settings.size >= 1
      && this in Repr
      && (settings.kind.ByCount? ==>
            && count != null && {count, count.outcomes} <= Repr
            && count.Valid() && count.size == settings.size && count.history == M.Failures(history))
      && (settings.kind.ByTime? ==>
            && time != null && {time, time.buckets} <= Repr
            && time.Valid() && time.size == settings.size && time.history == history)
    }

    constructor (w: M.WindowSettings)
      requires w.size >= 1
      ensures Valid() && fresh(Repr) && settings == w && history == []
    {
      settings := w;
      history := [];
      if w.kind.ByCount? {
        var c := new CountWindow(w.size);
        count, time := c, null;
        Repr := {this, c, c.outcomes};
      } else {
        var t := new TimeWindow(w.size);
        count, time := null, t;
        Repr := {this, t, t.buckets};
      }
    }

    method Record(success: bool, now: int)
      requires Valid()
      modifies Repr
      ensures Valid() && history == old(history) + [Outcome(success, M.SecondOf(now))]
    {
      match settings.kind {
        case ByCount => count.Record(success);
        case ByTime => time.Record(success, M.SecondOf(now));
      }
      history := history + [Outcome(success, M.SecondOf(now))];
    }

    method Stats(now: int) returns (calls: nat, failures: nat)
      requires Valid()
      ensures (calls, failures) == M.StatsOf(settings, history, M.SecondOf(now))
    {
      match settings.kind {
        case ByCount => calls, failures := count.Stats();
        case ByTime => calls, failures := time.Stats(M.SecondOf(now));
      }
    }

    method Reset()
      requires Valid()
      modifies Repr
      ensures Valid() && history == []
    {
      match settings.kind {
        case ByCount => count.Reset();
        case ByTime => time.Reset();
      }
      history := [];
    }
  }

  /** The window the settings ask for, if any. */
  method NewSlidingWindow(cfg: M.Settings) returns (w: SlidingWindow?)
    requires cfg.Usable()
    ensures w != null <==> cfg.window.Some?
    ensures w != null ==> w.Valid() && fresh(w) && fresh(w.Repr) && w.settings == cfg.window.value && w.history == []
  {
    w := null;
    if cfg.window.Some? {
      w := new SlidingWindow(cfg.window.value);
    }
  }

  class CircuitBreaker {
    const cfg: M.Settings
    var state: M.State
    var generation: int
    var expiry: int
    const counters: Counters
    const window: SlidingWindow?  // null when no sliding window is configured

    // Mirrors of state, expiry and generation for the lock-free path.
    var fastState: M.State
    var fastExpiry: int
    var fastGen: int

    ghost var era: seq<Outcome>
    ghost var mark: nat
    ghost const Repr: set<object>

    ghost predicate Shape()
      reads this, Repr
    {
      && cfg.Usable()
      && this in Repr && counters in Repr
      && (window != null <==> cfg.window.Some?)
      && (window != null ==>
            && window in Repr && window.Repr <= Repr && this !in window.Repr && counters !in window.Repr
            && window.Valid() && window.settings == cfg.window.value)
    }

    // The locked fields and their ghost log agree.
    ghost predicate Consistent()
      reads this, Repr
    {
      && Shape()
      && (window != null ==> window.history == if state.Closed? then era else [])
    }

    // What holds whenever the mutex is free.
    ghost predicate Valid()
      reads this, Repr
    {
      && Consistent()
      && (fastState, fastExpiry, fastGen) == (state, expiry, generation)
    }

    ghost function View(): M.Breaker
      reads this, counters
    {
      M.Breaker(state, generation, counters.Snapshot(), expiry, era, mark)
    }

    constructor (config: M.Settings, now: int)
      requires config.Usable()
      ensures Valid() && fresh(Repr) && cfg == config
      ensures View() == M.Init(cfg, now)
    {
      cfg := config;
      state, generation, expiry := M.Closed, 0, now + config.interval;
      var c := new Counters();
      var w := NewSlidingWindow(config);
      ghost var parts: set<object> := {c};
      if w != null {
        parts := parts + {w} + w.Repr;
      }
      counters, window := c, w;
      fastState, fastExpiry, fastGen := M.Closed, now + config.interval, 0;
      era, mark := [], 0;
      Repr := {this} + parts;
      new;
      assert window != null ==> this !in window.Repr && counters !in window.Repr;
    }

    method SyncFastFields()
      requires Consistent()
      modifies this`fastState, this`fastExpiry, this`fastGen
      ensures Valid()
    {
      fastGen := generation;
      fastExpiry := expiry;
      fastState := state;
    }

    // Counters and window both start afresh with a new regime.
    method EnterRegime(newState: M.State)
      requires Consistent()
      modifies Repr
      ensures Consistent()
      ensures View() == M.Breaker(newState, old(generation) + 1, ZERO_COUNTS, old(expiry), [], 0)
    {
      state := newState;
      generation := generation + 1;
      era, mark := [], 0;
      counters.Reset();
      if window != null {
        window.Reset();
      }
    }

    method SetExpiry(at: int)
      requires Consistent()
      modifies this`expiry
      ensures Consistent()
      ensures View() == old(View()).(expiry := at)
    {
      expiry := at;
    }

    method SetState(newState: M.State, now: int)
      requires Consistent()
      requires state == newState ==> Valid()
      modifies Repr
      ensures Valid()
      ensures View() == M.SetState(cfg, old(View()), newState, now)
    {
      if state == newState {
        return;
      }
      EnterRegime(newState);
      if newState == M.Closed {
        SetExpiry(now + cfg.interval);
      } else if newState == M.Open {
        SetExpiry(now + cfg.timeout);
      }
      SyncFastFields();
    }

    method CurrentState(now: int)
      requires Valid()
      modifies Repr
      ensures Valid()
      ensures View() == M.CurrentState(cfg, old(View()), now)
    {
      match state {
        case Closed =>
          if cfg.interval > 0 && expiry < now {
            counters.Reset();
            expiry := now + cfg.interval;
            mark := |era|;
            SyncFastFields();
          }
        case Open =>
          if expiry < now {
            SetState(M.HalfOpen, now);
          }
        case HalfOpen =>
      }
    }

    method WindowTrips(now: int) returns (trips: bool)
      requires cfg.Usable() && window != null && window.Valid()
      requires cfg.window == Some(window.settings) && window.history == era
      ensures trips == M.WindowTrips(window.settings, era, now)
    {
      var calls, failures := window.Stats(now);
      if calls < window.settings.minimumCalls {
        return false;
      }
      trips := failures as real / calls as real >= window.settings.threshold;
    }

    // An outcome enters the counters and, in Closed and when there is one, the window.
    method Accept(success: bool, now: int)
      requires Valid() && !state.Open?
      modifies Repr
      ensures View() == M.Accept(old(View()), success, now)
      ensures Valid()
    {
      if success {
        counters.OnSuccess();
      } else {
        counters.OnFailure();
      }
      era := era + [Outcome(success, M.SecondOf(now))];
      if state == M.Closed && window != null {
        window.Record(success, now);
      }
    }

    method OnSuccess(now: int)
      requires Valid()
      modifies Repr
      ensures Valid()
      ensures View() == M.OnSuccess(cfg, old(View()), now)
    {
      match state {
        case Closed =>
          Accept(true, now);
          if window != null {
            var trips := WindowTrips(now);
            if trips {
              SetState(M.Open, now);
            }
          }
        case HalfOpen =>
          Accept(true, now);
          if counters.consecutiveSuccesses >= cfg.maxRequests {
            SetState(M.Closed, now);
          }
        case Open =>
      }
    }

    method OnFailure(now: int)
      requires Valid()
      modifies Repr
      ensures Valid()
      ensures View() == M.OnFailure(cfg, old(View()), now)
    {
      match state {
        case Closed =>
          Accept(false, now);
          if window != null {
            var trips := WindowTrips(now);
            if trips {
              SetState(M.Open, now);
            }
            return;
          }
          if cfg.readyToTrip(counters.Snapshot()) {
            SetState(M.Open, now);
          }
        case HalfOpen =>
          SetState(M.Open, now);
        case Open =>
      }
    }

    method BeforeRequest(now: int) returns (r: M.Admission)
      requires Valid()
      modifies Repr
      ensures Valid()
      ensures (View(), r) == M.BeforeRequest(cfg, old(View()), now)
    {
      CurrentState(now);
      if state == M.Open || (state == M.HalfOpen && counters.requests >= cfg.maxRequests) {
        var retryAfter := 0;
        if state == M.Open && expiry > now {
          retryAfter := expiry - now;
        }
        return M.Rejected(state, retryAfter, counters.Snapshot());
      }
      return M.Admitted(generation);
    }

    method AfterRequest(admitted: int, success: bool, now: int)
      requires Valid()
      modifies Repr
      ensures Valid()
      ensures View() == M.AfterRequest(cfg, old(View()), admitted, success, now)
    {
      CurrentState(now);
      if admitted != generation {
        return;
      }
      if success {
        OnSuccess(now);
      } else {
        OnFailure(now);
      }
    }

    method Reset(now: int)
      requires Valid()
      modifies Repr
      ensures Valid()
      ensures View() == M.Reset(cfg, old(View()), now)
    {
      EnterRegime(M.Closed);
      SetExpiry(now + cfg.interval);
      SyncFastFields();
    }

    /** The lock-free path: it admits exactly in a Closed interval that has not run out, and
        then BeforeRequest would admit under the same generation and change nothing. */
    method FastAdmit(now: int) returns (r: Option<int>)
      requires Valid()
      ensures r.Some? <==> state.Closed? && (cfg.interval == 0 || now < expiry)
      ensures r.Some? ==> M.BeforeRequest(cfg, View(), now) == (View(), M.Admitted(r.value))
    {
      if fastState != M.Closed {
        return None;
      }
      if cfg.interval > 0 {
        if now >= fastExpiry {
          return None;
        }
      }
      if fastState != M.Closed {
        return None;
      }
      return Some(fastGen);
    }

    /** One locked section of some other caller. */
    method Perform(e: M.Event)
      requires Valid()
      modifies Repr
      ensures Valid()
      ensures View() == M.Apply(cfg, old(View()), e)
    {
      match e {
        case Admit(now) => var _ := BeforeRequest(now);
        case Complete(admitted, success, now) => AfterRequest(admitted, success, now);
        case Observe(now) => CurrentState(now);
        case ManualReset(now) => Reset(now);
      }
    }

    /** One call, with whatever other callers do to the breaker while its operation runs: nothing
        happens once the context has ended; else the operation runs exactly when the locked
        admission would let it, by either path, and its outcome is then recorded under the
        generation it was admitted with. */
    method Execute(contextEnded: bool, begin: int, meanwhile: seq<M.Event>, success: bool, end: int) returns (ran: bool)
      requires Valid()
      modifies Repr
      ensures Valid()
      ensures contextEnded ==> !ran && View() == old(View())
      ensures !contextEnded ==>
                var (before, admission) := M.BeforeRequest(cfg, old(View()), begin);
                && ran == admission.Admitted?
                && View() == if !ran then before
                             else M.AfterRequest(cfg, M.Run(cfg, before, meanwhile), admission.generation, success, end)
    {
      if contextEnded {
        return false;
      }
      var generation;
      var fast := FastAdmit(begin);
      if fast.Some? {
        generation := fast.value;
      } else {
        var admission := BeforeRequest(begin);
        if admission.Rejected? {
          return false;
        }
        generation := admission.generation;
      }
      ghost var admittedAt := View();
      for i := 0 to |meanwhile|
        invariant Valid() && View() == M.Run(cfg, admittedAt, meanwhile[..i])
      {
        assert meanwhile[..i + 1][..i] == meanwhile[..i];
        Perform(meanwhile[i]);
      }
      assert meanwhile[..|meanwhile|] == meanwhile;
      AfterRequest(generation, success, end);
      return true;
    }
  }
}
