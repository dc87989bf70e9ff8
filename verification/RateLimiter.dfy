// ratelimit/limiter.go and ratelimit/config.go: the limiter object over its keyed store.
// The clock, the outcome of the store and context cancellation are parameters.
module RateLimiters {
  import opened Basics
  import opened TokenBucket

  const DEFAULT_RATE := 100
  const MAX_RATE := 1_000_000
  const MAX_BURST := 1_000_000
  const DEFAULT_MAX_TOKENS_MULTIPLIER := 10
  const MAX_MAX_TOKENS_PER_REQUEST := 10_000_000
  const MIN_WAIT := 10 * MILLISECOND
  const MAX_SLEEP := 100 * MILLISECOND
  const MAX_WAIT_ITERATIONS := 10_000
  const MAX_TOTAL_WAIT := 300_000 * MILLISECOND

  datatype Config = Config(rate: int, burst: int, interval: int, maxTokensPerRequest: int, failOpen: bool) {
    function Limits(): Limits {
      TokenBucket.Limits(rate, burst, interval)
    }
  }

  predicate Normalized(c: Config) {
    c.Limits().Usable() && 1 <= c.maxTokensPerRequest <= MAX_MAX_TOKENS_PER_REQUEST
  }

  /** Every configuration becomes one the arithmetic is bounded for; a usable one is kept. */
  method SetDefaults(c: Config) returns (d: Config)
    ensures Normalized(d)
    ensures Normalized(c) ==> d == c
    ensures c.rate >= 1 ==> d.rate == Min(c.rate, MAX_RATE)
    ensures c.burst <= 0 ==> d.burst == d.rate  // no burst beyond the rate unless asked for
    ensures c.burst > 0 ==> d.burst == Min(c.burst, MAX_BURST)
    ensures c.rate <= 0 ==> d.rate == 100
    ensures d.interval == if c.interval <= 0 then 1000 * MILLISECOND
                          else Min(Max(c.interval, MILLISECOND), MAX_INTERVAL)
    ensures c.maxTokensPerRequest <= 0 ==> d.maxTokensPerRequest == Min(10 * d.burst, 10_000_000)
    ensures d.maxTokensPerRequest >= Min(c.maxTokensPerRequest, 10_000_000)
    ensures c.maxTokensPerRequest <= 0 ==> d.maxTokensPerRequest >= d.burst  // a full bucket can be asked for
    ensures d.failOpen == c.failOpen
  {
    var Config(rate, burst, interval, maxTokensPerRequest, failOpen) := c;
    if rate <= 0 {
      rate := DEFAULT_RATE;
    }
    if rate > MAX_RATE {
      rate := MAX_RATE;
    }
    if burst <= 0 {
      burst := rate;
    }
    if burst > MAX_BURST {
      burst := MAX_BURST;
    }
    if interval <= 0 {
      interval := 1000 * MILLISECOND;
    }
    if interval < MILLISECOND {
      interval := MILLISECOND;
    }
    if interval > MAX_INTERVAL {
      interval := MAX_INTERVAL;
    }
    if maxTokensPerRequest <= 0 {
      maxTokensPerRequest := burst * DEFAULT_MAX_TOKENS_MULTIPLIER;
    }
    if maxTokensPerRequest > MAX_MAX_TOKENS_PER_REQUEST {
      maxTokensPerRequest := MAX_MAX_TOKENS_PER_REQUEST;
    }
    d := Config(rate, burst, interval, maxTokensPerRequest, failOpen);
  }

  function Lookup(m: map<string, Bucket>, key: string): Option<Bucket> {
    if key in m then Some(m[key]) else None
  }

  /** How long Wait sleeps on an estimate. */
  function SleepFor(estimate: int): (d: int)
    ensures 0 < d <= MAX_SLEEP
    ensures 0 < estimate <= 100 * MILLISECOND ==> d == estimate
    ensures estimate > 100 * MILLISECOND ==> d == 100 * MILLISECOND
    ensures estimate <= 0 ==> d == 10 * MILLISECOND
  {
    var d := if estimate <= 0 then MIN_WAIT else estimate;
    if d > MAX_SLEEP then MAX_SLEEP else d
  }

  /** On a positive estimate Wait sleeps through no instant at which a token was available. */
  lemma SleepMissesNothing(l: Limits, s: Bucket, now: int, t: int)
    requires l.Usable() && InRange(l, s) && WaitTime(l, s, now) > 0
    requires t < now + SleepFor(WaitTime(l, s, now))
    ensures !Consume(l, Some(s), 1, t).1
  {
    WaitIsTight(l, s, now, t);
  }

  /** A run of attempts on a key that may not have a bucket yet. */
  function AfterAll(l: Limits, state: Option<Bucket>, attempts: seq<Attempt>): Option<Bucket>
    requires l.Usable()
    decreases attempts
  {
    if attempts == [] then state else
      var last := attempts[|attempts| - 1];
      Some(Consume(l, AfterAll(l, state, attempts[..|attempts| - 1]), last.n, last.now).0)
  }

  ghost predicate AllDenied(l: Limits, state: Option<Bucket>, attempts: seq<Attempt>)
    requires l.Usable()
    decreases attempts
  {
    attempts != [] ==>
      var front, last := attempts[..|attempts| - 1], attempts[|attempts| - 1];
      AllDenied(l, state, front) && !Consume(l, AfterAll(l, state, front), last.n, last.now).1
  }

  /** The first attempts were denied and the last one was granted. */
  ghost predicate GrantedLast(l: Limits, state: Option<Bucket>, attempts: seq<Attempt>)
    requires l.Usable()
  {
    && attempts != []
    && var front, last := attempts[..|attempts| - 1], attempts[|attempts| - 1];
       AllDenied(l, state, front) && Consume(l, AfterAll(l, state, front), last.n, last.now).1
  }

  lemma OneMoreAttempt(l: Limits, state: Option<Bucket>, attempts: seq<Attempt>, a: Attempt)
    requires l.Usable() && AllDenied(l, state, attempts)
    ensures var (next, allowed) := Consume(l, AfterAll(l, state, attempts), a.n, a.now);
            && AfterAll(l, state, attempts + [a]) == Some(next)
            && (if allowed then GrantedLast(l, state, attempts + [a]) else AllDenied(l, state, attempts + [a]))
  {
    assert (attempts + [a])[..|attempts|] == attempts;
  }

  datatype WaitResult = Granted | GrantedUnchecked | TimedOut | Cancelled | LimiterClosed

  /** What surrounds the i-th iteration of Wait: whether the context has ended before it, whether
      the store takes the update, what the wait estimate reads as when it does not, whether the
      context ends the sleep, and how late the timer fires. */
  datatype Weather = Weather(cancelled: bool, storeOk: bool, estimate: int, sleepCancelled: bool, late: nat)

  /** A Wait on one key so far: the time, the key's bucket, and the attempts made. */
  datatype Moment = Moment(now: int, bucket: Option<Bucket>, attempts: seq<Attempt>)

  /** The attempt of one iteration, and whether it was granted. */
  function Try(l: Limits, m: Moment, w: Weather): (Moment, bool)
    requires l.Usable()
  {
    if !w.storeOk then (m, false) else
      var (b, allowed) := Consume(l, m.bucket, 1, m.now);
      (Moment(m.now, Some(b), m.attempts + [Attempt(1, m.now)]), allowed)
  }

  /** The sleep after it. */
  function Slept(l: Limits, m: Moment, w: Weather): Moment
    requires l.Usable()
  {
    var estimate := if w.storeOk && m.bucket.Some? then WaitTime(l, m.bucket.value, m.now) else w.estimate;
    m.(now := m.now + SleepFor(estimate) + w.late)
  }

  /** What the iteration that begins at m ends Wait with, if it does. */
  function Verdict(c: Config, start: int, m: Moment, w: Weather, i: nat): Option<WaitResult>
    requires c.Limits().Usable()
  {
    if i + 1 > MAX_WAIT_ITERATIONS || m.now - start > MAX_TOTAL_WAIT then Some(TimedOut)
    else if w.cancelled then Some(Cancelled)
    else if Try(c.Limits(), m, w).1 then Some(Granted)
    else if !w.storeOk && c.failOpen then Some(GrantedUnchecked)
    else if w.sleepCancelled then Some(Cancelled)
    else None
  }

  /** Where Wait stands before its i-th iteration. */
  function Before(l: Limits, first: Moment, weather: nat -> Weather, i: nat): Moment
    requires l.Usable()
  {
    if i == 0 then first
    else
      var w := weather(i - 1);
      Slept(l, Try(l, Before(l, first, weather, i - 1), w).0, w)
  }

  /** ... and where its last one leaves it. */
  function Ending(c: Config, start: int, m: Moment, w: Weather, i: nat): Moment
    requires c.Limits().Usable()
  {
    if i + 1 > MAX_WAIT_ITERATIONS || m.now - start > MAX_TOTAL_WAIT || w.cancelled then m
    else Try(c.Limits(), m, w).0
  }

  /** The i-th iteration goes round in full. */
  ghost predicate GoesRound(c: Config, start: int, first: Option<Bucket>, weather: nat -> Weather, i: nat)
    requires c.Limits().Usable()
  {
    Verdict(c, start, Before(c.Limits(), Moment(start, first, []), weather, i), weather(i), i) == None
  }

  /** No earlier iteration ended Wait. */
  ghost predicate StillWaiting(c: Config, start: int, first: Option<Bucket>, weather: nat -> Weather, rounds: nat)
    requires c.Limits().Usable()
  {
    forall i: nat :: i < rounds ==> GoesRound(c, start, first, weather, i)
  }

  // ----- What the attempts of a Wait have in common -----

  /** Attempts come forward in time, each at least the sleep on the estimate left by the one
      before it later, and none later than five minutes after start. */
  ghost predicate Spaced(l: Limits, first: Option<Bucket>, attempts: seq<Attempt>, start: int, end: int)
    requires l.Usable()
  {
    && (forall i :: 0 <= i < |attempts| ==>
          attempts[i].n == 1 && start <= attempts[i].now <= end && attempts[i].now <= start + MAX_TOTAL_WAIT)
    && (forall i :: 0 <= i < |attempts| - 1 ==> attempts[i + 1].now >= Due(l, first, attempts, i))
  }

  /** When the attempt after the i-th is due. */
  function Due(l: Limits, first: Option<Bucket>, attempts: seq<Attempt>, i: nat): int
    requires l.Usable() && i < |attempts|
  {
    match AfterAll(l, first, attempts[..i + 1])
    case Some(b) => attempts[i].now + SleepFor(WaitTime(l, b, attempts[i].now))
    case None => attempts[i].now
  }

  /** Every attempt so far was denied, and the next one is not due before m.now. */
  ghost predicate OnSchedule(l: Limits, first: Option<Bucket>, m: Moment, start: int)
    requires l.Usable()
  {
    && start <= m.now
    && m.bucket == AfterAll(l, first, m.attempts)
    && AllDenied(l, first, m.attempts)
    && Spaced(l, first, m.attempts, start, m.now)
    && (m.attempts != [] ==> m.now >= Due(l, first, m.attempts, |m.attempts| - 1))
  }

  lemma DueStays(l: Limits, first: Option<Bucket>, attempts: seq<Attempt>, a: Attempt, i: nat)
    requires l.Usable() && i < |attempts|
    ensures Due(l, first, attempts + [a], i) == Due(l, first, attempts, i)
  {
    assert (attempts + [a])[..i + 1] == attempts[..i + 1];
  }

  /** One attempt on schedule: it keeps the spacing, granted or not. */
  lemma TryOnSchedule(l: Limits, first: Option<Bucket>, m: Moment, w: Weather, start: int)
    requires l.Usable() && OnSchedule(l, first, m, start) && m.now <= start + MAX_TOTAL_WAIT && w.storeOk
    ensures var (t, allowed) := Try(l, m, w);
            && t.bucket.Some? && t.bucket == AfterAll(l, first, t.attempts)
            && (if allowed then GrantedLast(l, first, t.attempts) else AllDenied(l, first, t.attempts))
            && Spaced(l, first, t.attempts, start, m.now)
  {
    var a := Attempt(1, m.now);
    OneMoreAttempt(l, first, m.attempts, a);
    var attempts := m.attempts + [a];
    forall i | 0 <= i < |attempts| - 1
      ensures attempts[i + 1].now >= Due(l, first, attempts, i)
    {
      DueStays(l, first, m.attempts, a, i);
      if i < |m.attempts| - 1 {
        assert m.attempts[i + 1].now >= Due(l, first, m.attempts, i);
      }
    }
  }

  lemma SleepIsDue(l: Limits, first: Option<Bucket>, t: Moment, w: Weather)
    requires l.Usable() && t.attempts != [] && t.bucket.Some? && t.bucket == AfterAll(l, first, t.attempts)
    requires t.attempts[|t.attempts| - 1].now == t.now && w.storeOk
    ensures Slept(l, t, w).now >= Due(l, first, t.attempts, |t.attempts| - 1)
  {
    assert t.attempts[..|t.attempts|] == t.attempts;
  }

  lemma SleepOnSchedule(l: Limits, first: Option<Bucket>, m: Moment, w: Weather, start: int)
    requires l.Usable() && OnSchedule(l, first, m, start) && m.now <= start + MAX_TOTAL_WAIT && !Try(l, m, w).1
    ensures OnSchedule(l, first, Slept(l, Try(l, m, w).0, w), start)
  {
    if w.storeOk {
      TryOnSchedule(l, first, m, w, start);
      SleepIsDue(l, first, Try(l, m, w).0, w);
    }
  }

  lemma RoundOnSchedule(c: Config, start: int, first: Option<Bucket>, m: Moment, w: Weather, i: nat)
    requires c.Limits().Usable() && OnSchedule(c.Limits(), first, m, start) && |m.attempts| <= i
    requires Verdict(c, start, m, w, i) == None
    ensures var next := Slept(c.Limits(), Try(c.Limits(), m, w).0, w);
            && OnSchedule(c.Limits(), first, next, start)
            && |next.attempts| <= i + 1 <= MAX_WAIT_ITERATIONS
    ensures !w.cancelled && !w.sleepCancelled
  {
    SleepOnSchedule(c.Limits(), first, m, w, start);
  }

  lemma BeforeNext(l: Limits, first: Moment, weather: nat -> Weather, i: nat)
    requires l.Usable()
    ensures Before(l, first, weather, i + 1) == Slept(l, Try(l, Before(l, first, weather, i), weather(i)).0, weather(i))
  {
  }

  lemma {:induction false} WaitsOnSchedule(c: Config, start: int, first: Option<Bucket>, weather: nat -> Weather,
                                           rounds: nat)
    requires c.Limits().Usable() && StillWaiting(c, start, first, weather, rounds)
    ensures var m := Before(c.Limits(), Moment(start, first, []), weather, rounds);
            OnSchedule(c.Limits(), first, m, start) && |m.attempts| <= rounds <= MAX_WAIT_ITERATIONS
    ensures forall i: nat :: i < rounds ==> !weather(i).cancelled && !weather(i).sleepCancelled
  {
    if rounds > 0 {
      var i := rounds - 1;
      WaitsOnSchedule(c, start, first, weather, i);
      assert GoesRound(c, start, first, weather, i);
      RoundOnSchedule(c, start, first, Before(c.Limits(), Moment(start, first, []), weather, i), weather(i), i);
      BeforeNext(c.Limits(), Moment(start, first, []), weather, i);
    }
  }

  /** What a finished Wait has done to its key's bucket: the attempts made, spaced out and all
      denied except that the last one was granted when Wait says so. */
  ghost predicate Waited(c: Config, before: Option<Bucket>, after: Option<Bucket>, granted: bool,
                         attempts: seq<Attempt>, start: int, end: int)
    requires c.Limits().Usable()
  {
    && after == AfterAll(c.Limits(), before, attempts)
    && (if granted then GrantedLast(c.Limits(), before, attempts) else AllDenied(c.Limits(), before, attempts))
    && |attempts| <= MAX_WAIT_ITERATIONS
    && Spaced(c.Limits(), before, attempts, start, end)
  }

  /** Wait has gone round that often and stands at m. */
  ghost predicate StandsAt(c: Config, start: int, first: Option<Bucket>, weather: nat -> Weather, rounds: nat,
                           m: Moment)
    requires c.Limits().Usable()
  {
    StillWaiting(c, start, first, weather, rounds) && m == Before(c.Limits(), Moment(start, first, []), weather, rounds)
  }

  lemma OnceMore(c: Config, start: int, first: Option<Bucket>, weather: nat -> Weather, rounds: nat, m: Moment)
    requires c.Limits().Usable() && StandsAt(c, start, first, weather, rounds, m)
    requires Verdict(c, start, m, weather(rounds), rounds) == None
    ensures var next := Slept(c.Limits(), Try(c.Limits(), m, weather(rounds)).0, weather(rounds));
            StandsAt(c, start, first, weather, rounds + 1, next)
    ensures rounds + 1 <= MAX_WAIT_ITERATIONS
  {
    assert GoesRound(c, start, first, weather, rounds);
    BeforeNext(c.Limits(), Moment(start, first, []), weather, rounds);
  }

  /** The iteration after rounds full ones ends Wait with r, at e. */
  ghost predicate EndsAt(c: Config, start: int, first: Option<Bucket>, weather: nat -> Weather, rounds: nat,
                         r: WaitResult, e: Moment)
    requires c.Limits().Usable()
  {
    && StillWaiting(c, start, first, weather, rounds)
    && var m := Before(c.Limits(), Moment(start, first, []), weather, rounds);
       && Verdict(c, start, m, weather(rounds), rounds) == Some(r)
       && e == Ending(c, start, m, weather(rounds), rounds)
  }

  /** The context is heeded before every attempt and in every sleep, and no cancellation invented. */
  ghost predicate HeedsContext(weather: nat -> Weather, rounds: nat, r: WaitResult) {
    && (forall i: nat :: i < rounds ==> !weather(i).cancelled && !weather(i).sleepCancelled)
    && (r == Cancelled ==> weather(rounds).cancelled || weather(rounds).sleepCancelled)
    && (weather(rounds).cancelled ==> r == Cancelled || r == TimedOut)
  }

  lemma LastRound(c: Config, start: int, first: Option<Bucket>, m: Moment, w: Weather, i: nat, r: WaitResult)
    requires c.Limits().Usable() && OnSchedule(c.Limits(), first, m, start) && |m.attempts| <= i <= MAX_WAIT_ITERATIONS
    requires Verdict(c, start, m, w, i) == Some(r)
    ensures var e := Ending(c, start, m, w, i);
            && Waited(c, first, e.bucket, r == Granted, e.attempts, start, e.now)
            && (r == TimedOut ==> i == MAX_WAIT_ITERATIONS || e.now > start + MAX_TOTAL_WAIT)
    ensures r == Cancelled ==> w.cancelled || w.sleepCancelled
    ensures w.cancelled ==> r == Cancelled || r == TimedOut
    ensures r == GrantedUnchecked ==> c.failOpen && !w.storeOk
    ensures r != LimiterClosed
  {
    if m.now <= start + MAX_TOTAL_WAIT && w.storeOk {
      TryOnSchedule(c.Limits(), first, m, w, start);
    }
  }

  lemma WaitEnds(c: Config, start: int, first: Option<Bucket>, weather: nat -> Weather, rounds: nat, m: Moment,
                 r: WaitResult)
    requires c.Limits().Usable() && StandsAt(c, start, first, weather, rounds, m)
    requires Verdict(c, start, m, weather(rounds), rounds) == Some(r)
    ensures var e := Ending(c, start, m, weather(rounds), rounds);
            && EndsAt(c, start, first, weather, rounds, r, e)
            && Waited(c, first, e.bucket, r == Granted, e.attempts, start, e.now)
            && (r == TimedOut ==> rounds == MAX_WAIT_ITERATIONS || e.now > start + MAX_TOTAL_WAIT)
    ensures HeedsContext(weather, rounds, r)
    ensures r == GrantedUnchecked ==> c.failOpen && !weather(rounds).storeOk
    ensures r != LimiterClosed
  {
    WaitsOnSchedule(c, start, first, weather, rounds);
    LastRound(c, start, first, m, weather(rounds), rounds, r);
  }

  class RateLimiter {
    const config: Config
    var closed: bool
    var buckets: map<string, Bucket>

    ghost predicate Valid()
      reads this
    {
      && Normalized(config)
      && forall key :: key in buckets ==> InRange(config.Limits(), buckets[key])
    }

    constructor (c: Config)
      ensures Valid() && buckets == map[] && !closed
    {
      var d := SetDefaults(c);
      config, closed, buckets := d, false, map[];
    }

    /** One atomic update of the key's bucket; no other key moves. */
    method TryConsume(key: string, n: int, now: int) returns (allowed: bool)
      requires Valid() && n >= 1
      modifies this`buckets
      ensures Valid()
      ensures Lookup(buckets, key) == Some(Consume(config.Limits(), old(Lookup(buckets, key)), n, now).0)
      ensures allowed == Consume(config.Limits(), old(Lookup(buckets, key)), n, now).1
      ensures forall k :: k != key ==> Lookup(buckets, k) == old(Lookup(buckets, k))
    {
      var l := config.Limits();
      var s := if key in buckets then buckets[key] else Bucket(l.burst as real, now);
      ConsumeBounds(l, s, n, now);
      s := Refill(l, s, now);
      if s.tokens >= n as real {
        allowed := true;
        s := Bucket(s.tokens - n as real, s.last);
      } else {
        allowed := false;
      }
      buckets := buckets[key := s];
    }

    method Allow(key: string, now: int, storeOk: bool) returns (allowed: bool)
      requires Valid()
      modifies this`buckets
      ensures Valid()
      ensures closed || !storeOk ==> buckets == old(buckets) && allowed == (!closed && config.failOpen)
      ensures !closed && storeOk ==>
                && allowed == Consume(config.Limits(), old(Lookup(buckets, key)), 1, now).1
                && Lookup(buckets, key) == Some(Consume(config.Limits(), old(Lookup(buckets, key)), 1, now).0)
      ensures forall k :: k != key ==> Lookup(buckets, k) == old(Lookup(buckets, k))
    {
      if closed {
        return false;
      }
      if !storeOk {
        return config.failOpen;
      }
      allowed := TryConsume(key, 1, now);
    }

    /** Take never grants more than a full bucket, not even when the store fails open. */
    method Take(key: string, tokens: int, now: int, storeOk: bool) returns (allowed: bool)
      requires Valid()
      modifies this`buckets
      ensures Valid()
      ensures allowed ==> 1 <= tokens <= Min(config.maxTokensPerRequest, config.burst)
      ensures closed || tokens < 1 || tokens > config.maxTokensPerRequest ==> !allowed
      ensures !closed && !storeOk && 1 <= tokens <= config.maxTokensPerRequest ==>
                (allowed <==> config.failOpen && tokens <= config.burst)
      ensures closed || !storeOk || tokens < 1 || tokens > config.maxTokensPerRequest ==> buckets == old(buckets)
      ensures !closed && storeOk && 1 <= tokens <= config.maxTokensPerRequest ==>
                && allowed == Consume(config.Limits(), old(Lookup(buckets, key)), tokens, now).1
                && Lookup(buckets, key) == Some(Consume(config.Limits(), old(Lookup(buckets, key)), tokens, now).0)
      ensures forall k :: k != key ==> Lookup(buckets, k) == old(Lookup(buckets, k))
    {
      if closed || tokens <= 0 || tokens > config.maxTokensPerRequest {
        return false;
      }
      if !storeOk {
        if config.failOpen && tokens > config.burst {
          return false;
        }
        return config.failOpen;
      }
      var s := if key in buckets then buckets[key] else Bucket(config.burst as real, now);
      RefillBounds(config.Limits(), s, now);
      allowed := TryConsume(key, tokens, now);
    }

    /** One iteration's attempt, and the wait estimate it leaves. */
    method Poll(key: string, now: int) returns (allowed: bool, estimate: int)
      requires Valid()
      modifies this`buckets
      ensures Valid()
      ensures Lookup(buckets, key) == Some(Consume(config.Limits(), old(Lookup(buckets, key)), 1, now).0)
      ensures allowed == Consume(config.Limits(), old(Lookup(buckets, key)), 1, now).1
      ensures estimate == WaitTime(config.Limits(), Lookup(buckets, key).value, now)
      ensures forall k :: k != key ==> Lookup(buckets, k) == old(Lookup(buckets, k))
    {
      allowed := TryConsume(key, 1, now);
      estimate := WaitTime(config.Limits(), buckets[key], now);
    }

    /** One iteration of Wait, from its checks to the end of its sleep. */
    method Iterate(key: string, start: int, now: int, i: nat, w: Weather, ghost attempts: seq<Attempt>)
      returns (verdict: Option<WaitResult>, end: int, ghost after: seq<Attempt>)
      requires Valid()
      modifies this`buckets
      ensures Valid()
      ensures verdict == Verdict(config, start, Moment(now, old(Lookup(buckets, key)), attempts), w, i)
      ensures var m := Moment(now, old(Lookup(buckets, key)), attempts);
              Moment(end, Lookup(buckets, key), after)
              == if verdict.Some? then Ending(config, start, m, w, i)
                 else Slept(config.Limits(), Try(config.Limits(), m, w).0, w)
      ensures forall k :: k != key ==> Lookup(buckets, k) == old(Lookup(buckets, k))
    {
      end, after := now, attempts;
      if i + 1 > MAX_WAIT_ITERATIONS || now - start > MAX_TOTAL_WAIT {
        return Some(TimedOut), end, after;
      }
      if w.cancelled {
        return Some(Cancelled), end, after;
      }
      var allowed, estimate := false, w.estimate;
      if w.storeOk {
        allowed, estimate := Poll(key, now);
        after := attempts + [Attempt(1, now)];
      }
      if allowed {
        return Some(Granted), end, after;
      }
      if !w.storeOk && config.failOpen {
        return Some(GrantedUnchecked), end, after;
      }
      if w.sleepCancelled {
        return Some(Cancelled), end, after;
      }
      verdict, end := None, now + SleepFor(estimate) + w.late;
    }

    /** Wait makes one-token attempts spaced by sleeps until one is granted. Whatever happens it
        has made exactly the attempts it reports on that key and no other; at most one of them,
        the last, was granted, and it was granted exactly when Wait says so; it makes at most
        10000 of them and starts none after five minutes. It goes round exactly as long as
        nothing ends it: rounds counts the iterations before the last. */
    method Wait(key: string, start: int, weather: nat -> Weather)
      returns (r: WaitResult, ghost attempts: seq<Attempt>, rounds: nat, end: int)
      requires Valid()
      modifies this`buckets
      ensures Valid()
      ensures closed <==> r == LimiterClosed
      ensures closed ==> buckets == old(buckets)
      ensures forall k :: k != key ==> Lookup(buckets, k) == old(Lookup(buckets, k))
      // It stops at the first iteration that ends it, and where that leaves it.
      ensures !closed ==>
                EndsAt(config, start, old(Lookup(buckets, key)), weather, rounds, r,
                       Moment(end, Lookup(buckets, key), attempts))
      ensures !closed ==>
                Waited(config, old(Lookup(buckets, key)), Lookup(buckets, key), r == Granted, attempts, start, end)
      ensures !closed ==> HeedsContext(weather, rounds, r)
      ensures r == GrantedUnchecked ==> config.failOpen && !weather(rounds).storeOk
      ensures r == TimedOut ==> rounds == MAX_WAIT_ITERATIONS || end > start + MAX_TOTAL_WAIT
    {
      attempts, rounds, end := [], 0, start;
      if closed {
        return LimiterClosed, attempts, rounds, end;
      }
      ghost var first := Lookup(buckets, key);
      while true
        invariant Valid() && rounds <= MAX_WAIT_ITERATIONS
        invariant StandsAt(config, start, first, weather, rounds, Moment(end, Lookup(buckets, key), attempts))
        invariant forall k :: k != key ==> Lookup(buckets, k) == old(Lookup(buckets, k))
        decreases MAX_WAIT_ITERATIONS - rounds
      {
        ghost var m := Moment(end, Lookup(buckets, key), attempts);
        var verdict;
        verdict, end, attempts := Iterate(key, start, end, rounds, weather(rounds), attempts);
        if verdict.Some? {
          r := verdict.value;
          WaitEnds(config, start, first, weather, rounds, m, r);
          return;
        }
        OnceMore(config, start, first, weather, rounds, m);
        rounds := rounds + 1;
      }
    }
  }
}
