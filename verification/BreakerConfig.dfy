// circuitbreaker/config.go and normalizeSlidingWindow of circuitbreaker/window.go:
// whatever the caller configured, the breaker starts from usable settings.
module BreakerConfig {
  import opened Basics
  import opened BreakerCounts
  import opened BreakerMachine

  const SECOND := 1_000_000_000
  const DEFAULT_FAILURES_TO_TRIP := 5
  const DEFAULT_COUNT_WINDOW_SIZE := 100
  const DEFAULT_TIME_WINDOW_SECONDS := 60
  const DEFAULT_MINIMUM_CALLS := 10
  const DEFAULT_FAILURE_RATE_THRESHOLD := 0.5
  const MAX_SLIDING_WINDOW_SIZE := 1_000_000

  // SlidingWindowType is an open integer type in the source.
  const WINDOW_DISABLED := 0
  const WINDOW_COUNT := 1
  const WINDOW_TIME := 2

  datatype Config = Config(
    maxRequests: nat,
    interval: int,
    timeout: int,
    windowType: int,
    windowSize: int,
    minimumCalls: int,
    threshold: real,
    readyToTrip: Option<Counts -> bool>)

  predicate NormalizedWindow(c: Config) {
    || c.windowType == WINDOW_DISABLED
    || (&& (c.windowType == WINDOW_COUNT || c.windowType == WINDOW_TIME)
        && 1 <= c.windowSize <= MAX_SLIDING_WINDOW_SIZE
        && 1 <= c.minimumCalls
        && (c.windowType == WINDOW_COUNT ==> c.minimumCalls <= c.windowSize)
        && 0.0 < c.threshold <= 1.0)
  }

  predicate Normalized(c: Config) {
    && c.maxRequests >= 1 && c.timeout > 0 && c.interval >= 0
    && c.readyToTrip.Some?
    && NormalizedWindow(c)
  }

  /** The window has the size, the minimum of calls and the threshold that were asked for; only a
      size is bounded and a minimum lowered to what a count window can hold, and what was left out
      or makes no sense gets its default. */
  predicate WindowAsAsked(c: Config, byCount: bool, size: int, minimumCalls: int, threshold: real) {
    && size == (if c.windowSize <= 0 then (if byCount then 100 else 60) else Min(c.windowSize, 1_000_000))
    && (var asked := if c.minimumCalls <= 0 then 10 else c.minimumCalls;
        minimumCalls == if byCount then Min(asked, size) else asked)
    && threshold == (if 0.0 < c.threshold <= 1.0 then c.threshold else 0.5)
  }

  method NormalizeSlidingWindow(c: Config) returns (d: Config)
    ensures NormalizedWindow(d)
    ensures NormalizedWindow(c) ==> d == c
    // A choice of window survives; only an unknown one turns the window off.
    ensures d.windowType == if c.windowType in {WINDOW_COUNT, WINDOW_TIME} then c.windowType else WINDOW_DISABLED
    ensures d.windowType != WINDOW_DISABLED ==>
              WindowAsAsked(c, d.windowType == WINDOW_COUNT, d.windowSize, d.minimumCalls, d.threshold)
    ensures (d.maxRequests, d.interval, d.timeout, d.readyToTrip)
            == (c.maxRequests, c.interval, c.timeout, c.readyToTrip)
  {
    d := c;
    if d.windowType == WINDOW_DISABLED {
      return;
    }
    if d.windowType != WINDOW_COUNT && d.windowType != WINDOW_TIME {
      d := d.(windowType := WINDOW_DISABLED);
      return;
    }
    if d.windowSize <= 0 {
      if d.windowType == WINDOW_COUNT {
        d := d.(windowSize := DEFAULT_COUNT_WINDOW_SIZE);
      } else {
        d := d.(windowSize := DEFAULT_TIME_WINDOW_SECONDS);
      }
    }
    if d.windowSize > MAX_SLIDING_WINDOW_SIZE {
      d := d.(windowSize := MAX_SLIDING_WINDOW_SIZE);
    }
    if d.minimumCalls <= 0 {
      d := d.(minimumCalls := DEFAULT_MINIMUM_CALLS);
    }
    if d.windowType == WINDOW_COUNT && d.minimumCalls > d.windowSize {
      d := d.(minimumCalls := d.windowSize);
    }
    if d.threshold <= 0.0 || d.threshold > 1.0 {
      d := d.(threshold := DEFAULT_FAILURE_RATE_THRESHOLD);
    }
  }

  method SetDefaults(c: Config) returns (d: Config)
    ensures Normalized(d)
    ensures Normalized(c) ==> d == c
    ensures c.maxRequests >= 1 ==> d.maxRequests == c.maxRequests
    ensures c.timeout > 0 ==> d.timeout == c.timeout
    ensures d.interval == Max(c.interval, 0)
    ensures c.readyToTrip.Some? ==> d.readyToTrip == c.readyToTrip
    ensures c.readyToTrip.None? ==> d.readyToTrip == Some(TripOnConsecutiveFailures(5))
    ensures c.maxRequests == 0 ==> d.maxRequests == 1
    ensures c.timeout <= 0 ==> d.timeout == 60 * SECOND
    ensures d.windowType == if c.windowType in {WINDOW_COUNT, WINDOW_TIME} then c.windowType else WINDOW_DISABLED
    ensures d.windowType != WINDOW_DISABLED ==>
              WindowAsAsked(c, d.windowType == WINDOW_COUNT, d.windowSize, d.minimumCalls, d.threshold)
  {
    d := c;
    if d.maxRequests == 0 {
      d := d.(maxRequests := 1);
    }
    if d.timeout <= 0 {
      d := d.(timeout := 60 * SECOND);
    }
    if d.interval < 0 {
      d := d.(interval := 0);
    }
    d := NormalizeSlidingWindow(d);
    if d.readyToTrip.None? {
      d := d.(readyToTrip := Some(TripOnConsecutiveFailures(DEFAULT_FAILURES_TO_TRIP)));
    }
  }

  /** What New hands to the state machine: usable settings for every configuration, with a
      window exactly when one was asked for and ReadyToTrip did not override it. */
  method Resolve(config: Config) returns (cfg: Settings)
    ensures cfg.Usable()
    ensures cfg.window.Some? <==> config.readyToTrip.None? && config.windowType in {WINDOW_COUNT, WINDOW_TIME}
    ensures cfg.window.Some? ==> (cfg.window.value.kind.ByCount? <==> config.windowType == WINDOW_COUNT)
    ensures cfg.window.Some? ==>
              WindowAsAsked(config, cfg.window.value.kind.ByCount?, cfg.window.value.size,
                            cfg.window.value.minimumCalls, cfg.window.value.threshold)
    ensures cfg.readyToTrip == if config.readyToTrip.Some? then config.readyToTrip.value
                               else TripOnConsecutiveFailures(5)
    ensures cfg.maxRequests == Max(config.maxRequests, 1) && cfg.interval == Max(config.interval, 0)
    ensures cfg.timeout == if config.timeout > 0 then config.timeout else 60 * SECOND
  {
    var callerSetReadyToTrip := config.readyToTrip.Some?;
    var d := SetDefaults(config);
    var usesWindow := !callerSetReadyToTrip && d.windowType != WINDOW_DISABLED;
    var window := None;
    if usesWindow {
      var kind := if d.windowType == WINDOW_COUNT then ByCount else ByTime;
      window := Some(WindowSettings(kind, d.windowSize, d.minimumCalls, d.threshold));
    }
    cfg := Settings(d.maxRequests, d.interval, d.timeout, window, d.readyToTrip.value);
  }
}
