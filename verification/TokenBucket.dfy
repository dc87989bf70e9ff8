// ratelimit/limiter.go: the token-bucket arithmetic of one key. Time is in integer
// nanoseconds, tokens are exact reals (the source uses float64).
module TokenBucket {
  import opened Basics

  const MILLISECOND := 1_000_000
  const HOUR := 3_600_000_000_000
  const MAX_ELAPSED := HOUR
  const MAX_INTERVAL := 24 * HOUR
  const MAX_WAIT := 24 * HOUR
  const EPSILON := 0.0001

  /** The limits Config.setDefaults leaves (ratelimit/config.go). */
  datatype Limits = Limits(rate: int, burst: int, interval: int) {
    predicate Usable() {
      1 <= rate <= 1_000_000 && 1 <= burst <= 1_000_000 && MILLISECOND <= interval <= MAX_INTERVAL
    }
  }

  datatype Bucket = Bucket(tokens: real, last: int)

  // ----- The arithmetic -----

  /** Tokens that elapsed nanoseconds are worth. */
  function Earned(l: Limits, elapsed: int): real
    requires l.Usable()
  {
    elapsed as real / l.interval as real * l.rate as real
  }

  function MinReal(a: real, b: real): real {
    if a <= b then a else b
  }

  /** What refill would add: the worth of at most an hour, and at most a full bucket. */
  function TokensToAdd(l: Limits, elapsed: int): real
    requires l.Usable()
  {
    MinReal(Earned(l, if elapsed > MAX_ELAPSED then MAX_ELAPSED else elapsed), l.burst as real)
  }

  function Refill(l: Limits, s: Bucket, now: int): Bucket
    requires l.Usable()
  {
    var elapsed := now - s.last;
    if elapsed <= 0 then s else
      var add := TokensToAdd(l, elapsed);
      if add < EPSILON then s else
        var burst := l.burst as real;
        var tokens := if s.tokens + add > burst then burst else s.tokens + add;
        if s.tokens >= burst && tokens >= burst then Bucket(burst, now) else Bucket(tokens, now)
  }

  /** The update tryConsume runs under the store's key lock; None is a key never seen. */
  function Consume(l: Limits, state: Option<Bucket>, n: int, now: int): (Bucket, bool)
    requires l.Usable()
  {
    var s := match state case None => Bucket(l.burst as real, now) case Some(b) => b;
    var r := Refill(l, s, now);
    if r.tokens >= n as real then (Bucket(r.tokens - n as real, r.last), true) else (r, false)
  }

  /** How many nanoseconds the rate needs for that many tokens. */
  function NsToEarn(l: Limits, tokens: real): (ns: real)
    requires l.Usable()
    ensures ns * Slope(l) == tokens
  {
    EarnedIsLinear(l, 0);
    tokens / Slope(l)
  }

  function WaitTime(l: Limits, s: Bucket, now: int): int
    requires l.Usable()
  {
    var elapsed := if now - s.last <= 0 then 0 else now - s.last;
    var sum := s.tokens + TokensToAdd(l, elapsed);
    var current := if sum > l.burst as real then l.burst as real else sum;
    if current >= 1.0 then 0 else
      var nsToWait := NsToEarn(l, 1.0 - current);
      var wait := nsToWait.Floor;
      if wait > MAX_WAIT then MAX_WAIT else wait
  }

  // ----- Linear facts about Earned -----

  function Slope(l: Limits): real
    requires l.Usable()
  {
    l.rate as real / l.interval as real
  }

  lemma EarnedIsLinear(l: Limits, elapsed: int)
    requires l.Usable()
    ensures Earned(l, elapsed) == elapsed as real * Slope(l)
    ensures Slope(l) > 0.0
  {
    var e, i, r := elapsed as real, l.interval as real, l.rate as real;
    QuotientTimes(e, i, r);
    SignOfProduct(Slope(l), i);
  }

  lemma SignOfProduct(a: real, b: real)
    requires b > 0.0
    ensures a * b > 0.0 <==> a > 0.0
  {
  }

  lemma ScaleUp(a: real, b: real, k: real)
    requires a <= b && k >= 0.0
    ensures a * k <= b * k
  {
    assert (b - a) * k >= 0.0;
  }

  lemma QuotientTimes(e: real, i: real, r: real)
    requires i > 0.0
    ensures e / i * r == e * (r / i)
  {
    var p, q := e / i, r / i;
    assert e == p * i && r == q * i;
    assert p * (q * i) == (p * i) * q;
  }

  lemma EarnedAdds(l: Limits, a: int, b: int)
    requires l.Usable()
    ensures Earned(l, a + b) == Earned(l, a) + Earned(l, b)
  {
    EarnedIsLinear(l, a);
    EarnedIsLinear(l, b);
    EarnedIsLinear(l, a + b);
    assert (a + b) as real * Slope(l) == a as real * Slope(l) + b as real * Slope(l);
  }

  lemma EarnedGrows(l: Limits, a: int, b: int)
    requires l.Usable() && a <= b
    ensures Earned(l, a) <= Earned(l, b)
    ensures a == 0 ==> Earned(l, a) == 0.0
  {
    EarnedIsLinear(l, a);
    EarnedIsLinear(l, b);
    assert (b - a) as real * Slope(l) >= 0.0;
  }

  /** The configuration bounds make an hour worth more than epsilon at every rate. */
  lemma AnHourIsWorthSomething(l: Limits)
    requires l.Usable()
    ensures Earned(l, MAX_ELAPSED) > EPSILON
  {
    EarnedIsLinear(l, MAX_ELAPSED);
    IntervalIsWorthRate(l);
    HourArithmetic(Slope(l), l.interval as real, l.rate as real, MAX_ELAPSED as real);
  }

  lemma IntervalIsWorthRate(l: Limits)
    requires l.Usable()
    ensures l.interval as real * Slope(l) == l.rate as real
  {
  }

  lemma HourArithmetic(slope: real, interval: real, rate: real, hour: real)
    requires slope > 0.0 && interval * slope == rate && rate >= 1.0 && interval <= 24.0 * hour
    ensures hour * slope > EPSILON
  {
    ScaleUp(interval, 24.0 * hour, slope);
    assert 24.0 * hour * slope == 24.0 * (hour * slope);
  }

  // ----- Runs of attempts on one bucket -----

  /** One Allow (n is 1) or Take; the clock may step backwards between attempts. */
  datatype Attempt = Attempt(n: int, now: int)

  predicate InRange(l: Limits, s: Bucket) {
    0.0 <= s.tokens <= l.burst as real
  }

  predicate Positive(attempts: seq<Attempt>) {
    forall i :: 0 <= i < |attempts| ==> attempts[i].n >= 1
  }

  predicate Within(attempts: seq<Attempt>, a: int, b: int) {
    forall i :: 0 <= i < |attempts| ==> a <= attempts[i].now <= b
  }

  function After(l: Limits, s: Bucket, attempts: seq<Attempt>): Bucket
    requires l.Usable()
    decreases attempts
  {
    if attempts == [] then s else
      After(l, Consume(l, Some(s), attempts[0].n, attempts[0].now).0, attempts[1..])
  }

  /** Tokens granted to a run of attempts. */
  function Granted(l: Limits, s: Bucket, attempts: seq<Attempt>): int
    requires l.Usable()
    decreases attempts
  {
    if attempts == [] then 0 else
      var (next, allowed) := Consume(l, Some(s), attempts[0].n, attempts[0].now);
      (if allowed then attempts[0].n else 0) + Granted(l, next, attempts[1..])
  }

  lemma RefillBounds(l: Limits, s: Bucket, now: int)
    requires l.Usable() && InRange(l, s)
    ensures var r := Refill(l, s, now);
            && InRange(l, r)
            && r.tokens >= s.tokens
            && r.tokens - s.tokens <= Earned(l, r.last - s.last)
            && (r == s || (r.last == now && now > s.last))
  {
    EarnedGrows(l, 0, 0);
    var elapsed := now - s.last;
    if elapsed > MAX_ELAPSED {
      EarnedGrows(l, MAX_ELAPSED, elapsed);
    }
  }

  lemma ConsumeBounds(l: Limits, s: Bucket, n: int, now: int)
    requires l.Usable() && InRange(l, s) && n >= 1
    ensures var (t, allowed) := Consume(l, Some(s), n, now);
            && InRange(l, t)
            && t.tokens + (if allowed then n as real else 0.0) <= s.tokens + Earned(l, t.last - s.last)
            && t.last >= s.last
            && t.last in {s.last, now}
  {
    RefillBounds(l, s, now);
  }

  /** Stored tokens stay in [0, Burst] whatever is asked and whatever the clock does. */
  lemma {:induction false} StoredTokensStayInRange(l: Limits, s: Bucket, attempts: seq<Attempt>)
    requires l.Usable() && InRange(l, s) && Positive(attempts)
    ensures InRange(l, After(l, s, attempts))
    decreases attempts
  {
    if attempts != [] {
      ConsumeBounds(l, s, attempts[0].n, attempts[0].now);
      StoredTokensStayInRange(l, Consume(l, Some(s), attempts[0].n, attempts[0].now).0, attempts[1..]);
    }
  }

  /** Conservation: what is granted by time b was in the bucket or was earned since its last refill. */
  lemma {:induction false} GrantedFrom(l: Limits, s: Bucket, attempts: seq<Attempt>, a: int, b: int)
    requires l.Usable() && InRange(l, s) && Positive(attempts) && Within(attempts, a, b)
    ensures Granted(l, s, attempts) as real <= s.tokens + Earned(l, Max(0, b - s.last))
    decreases attempts
  {
    EarnedGrows(l, 0, Max(0, b - s.last));
    if attempts != [] {
      var Attempt(n, now) := attempts[0];
      ConsumeBounds(l, s, n, now);
      var (t, allowed) := Consume(l, Some(s), n, now);
      GrantedFrom(l, t, attempts[1..], a, b);
      if t.last != s.last {
        EarnedAdds(l, t.last - s.last, b - t.last);
      } else {
        EarnedGrows(l, 0, 0);
      }
    }
  }

  /** The rate guarantee from creation: a bucket first touched at t0 has granted by time t at
      most Burst plus what the rate yields in t - t0. */
  lemma RateSinceCreation(l: Limits, n: int, t0: int, attempts: seq<Attempt>, from: int, t: int)
    requires l.Usable() && n >= 1 && Positive(attempts) && Within(attempts, from, t) && t0 <= t
    ensures var (s, allowed) := Consume(l, None, n, t0);
            (if allowed then n else 0) as real + Granted(l, s, attempts) as real
            <= l.burst as real + Earned(l, t - t0)
  {
    var full := Bucket(l.burst as real, t0);
    ConsumeBounds(l, full, n, t0);
    EarnedGrows(l, 0, 0);
    GrantedFrom(l, Consume(l, None, n, t0).0, attempts, from, t);
  }

  /** Once the time not yet collected is worth epsilon, the next attempt collects it. */
  lemma FirstAttemptRefills(l: Limits, s: Bucket, now: int, a: int)
    requires l.Usable() && InRange(l, s) && s.last < a <= now
    requires Earned(l, a - s.last) >= EPSILON
    ensures Refill(l, s, now).last == now
  {
    AnHourIsWorthSomething(l);
    EarnedGrows(l, a - s.last, now - s.last);
  }

  /** The rate guarantee over any span: whatever the bucket's past, attempts made in [a, b] are
      granted at most Burst plus what the rate yields in b - a plus epsilon. */
  lemma RateOverSpan(l: Limits, s: Bucket, attempts: seq<Attempt>, a: int, b: int)
    requires l.Usable() && InRange(l, s) && Positive(attempts) && Within(attempts, a, b) && a <= b
    ensures Granted(l, s, attempts) as real <= l.burst as real + Earned(l, b - a) + EPSILON
  {
    EarnedGrows(l, 0, b - a);
    if attempts == [] {
    } else if s.last >= a {
      GrantedFrom(l, s, attempts, a, b);
      EarnedGrows(l, Max(0, b - s.last), b - a);
    } else if Earned(l, a - s.last) < EPSILON {
      GrantedFrom(l, s, attempts, a, b);
      EarnedAdds(l, a - s.last, b - a);
    } else {
      SpanAfterRefill(l, s, attempts, a, b);
    }
  }

  lemma SpanAfterRefill(l: Limits, s: Bucket, attempts: seq<Attempt>, a: int, b: int)
    requires l.Usable() && InRange(l, s) && Positive(attempts) && Within(attempts, a, b) && attempts != []
    requires s.last < a && Earned(l, a - s.last) >= EPSILON
    ensures Granted(l, s, attempts) as real <= l.burst as real + Earned(l, b - a)
  {
    var Attempt(n, now) := attempts[0];
    FirstAttemptRefills(l, s, now, a);
    RefillBounds(l, s, now);
    var (t, allowed) := Consume(l, Some(s), n, now);
    assert t.tokens + (if allowed then n as real else 0.0) <= l.burst as real;
    GrantedFrom(l, t, attempts[1..], a, b);
    EarnedGrows(l, b - now, b - a);
  }

  // ----- Polling -----

  /** What one uninterrupted refill from s to the instant at would leave. */
  function ClosedForm(l: Limits, s: Bucket, at: int): real
    requires l.Usable()
  {
    MinReal(l.burst as real, s.tokens + Earned(l, at - s.last))
  }

  /** Every attempt is denied, and comes at most an hour after the refill stored before it. */
  ghost predicate Polls(l: Limits, s: Bucket, attempts: seq<Attempt>)
    requires l.Usable()
    decreases attempts
  {
    attempts != [] ==>
      var (t, allowed) := Consume(l, Some(s), attempts[0].n, attempts[0].now);
      !allowed && attempts[0].now - s.last <= MAX_ELAPSED && Polls(l, t, attempts[1..])
  }

  /** A run of attempts can be cut in two. */
  lemma {:induction false} AfterFront(l: Limits, s: Bucket, attempts: seq<Attempt>, i: nat)
    requires l.Usable() && i <= |attempts|
    ensures After(l, s, attempts) == After(l, After(l, s, attempts[..i]), attempts[i..])
    decreases attempts
  {
    if i > 0 {
      AfterFront(l, Consume(l, Some(s), attempts[0].n, attempts[0].now).0, attempts[1..], i - 1);
      assert attempts[..i][1..] == attempts[1..][..i - 1];
      assert attempts[i..] == attempts[1..][i - 1..];
    } else {
      assert attempts[i..] == attempts;
    }
  }

  lemma {:induction false} PollsFront(l: Limits, s: Bucket, attempts: seq<Attempt>, i: nat)
    requires l.Usable() && Polls(l, s, attempts) && i <= |attempts|
    ensures Polls(l, s, attempts[..i]) && Polls(l, After(l, s, attempts[..i]), attempts[i..])
    decreases attempts
  {
    if i > 0 {
      PollsFront(l, Consume(l, Some(s), attempts[0].n, attempts[0].now).0, attempts[1..], i - 1);
      assert attempts[..i][1..] == attempts[1..][..i - 1];
      assert attempts[i..] == attempts[1..][i - 1..];
    } else {
      assert attempts[i..] == attempts;
    }
  }

  /** One denied attempt moves along the closed form exactly. */
  lemma PollStep(l: Limits, s: Bucket, n: int, now: int)
    requires l.Usable() && InRange(l, s) && now - s.last <= MAX_ELAPSED
    requires !Consume(l, Some(s), n, now).1
    ensures var t := Consume(l, Some(s), n, now).0;
            && t.tokens == ClosedForm(l, s, t.last)
            && t.last >= s.last
  {
    EarnedGrows(l, 0, 0);
    if now > s.last {
      EarnedGrows(l, 0, now - s.last);
    }
  }

  /** Polling does not distort refill: after any schedule of denied attempts the stored tokens
      are exactly what one single refill to the same instant would have left. */
  lemma {:induction false} PollingIsExact(l: Limits, s: Bucket, attempts: seq<Attempt>)
    requires l.Usable() && InRange(l, s) && Polls(l, s, attempts)
    ensures var t := After(l, s, attempts);
            && t.last >= s.last
            && InRange(l, t)
            && t.tokens == ClosedForm(l, s, t.last)
    decreases attempts
  {
    EarnedGrows(l, 0, 0);
    if attempts != [] {
      var Attempt(n, now) := attempts[0];
      var u := Consume(l, Some(s), n, now).0;
      PollStep(l, s, n, now);
      RefillBounds(l, s, now);
      PollingIsExact(l, u, attempts[1..]);
      var t := After(l, u, attempts[1..]);
      EarnedAdds(l, u.last - s.last, t.last - u.last);
      EarnedGrows(l, 0, t.last - u.last);
    }
  }

  /** A denied attempt leaves at most epsilon uncollected. */
  lemma SkippedRefillIsSmall(l: Limits, u: Bucket, n: int, now: int)
    requires l.Usable() && InRange(l, u) && now - u.last <= MAX_ELAPSED
    requires !Consume(l, Some(u), n, now).1
    ensures var t := Consume(l, Some(u), n, now).0;
            t.last < now ==> t == u && Earned(l, now - t.last) < EPSILON
  {
  }

  /** ... and right after an attempt at now they lag the closed form at now by less than epsilon. */
  lemma PollingLagsByEpsilon(l: Limits, s: Bucket, attempts: seq<Attempt>)
    requires l.Usable() && InRange(l, s) && Polls(l, s, attempts) && attempts != []
    requires attempts[|attempts| - 1].now >= s.last
    ensures var now := attempts[|attempts| - 1].now;
            var t := After(l, s, attempts);
            ClosedForm(l, s, now) - EPSILON < t.tokens
  {
    var k := |attempts| - 1;
    var now := attempts[k].now;
    PollsFront(l, s, attempts, k);
    AfterFront(l, s, attempts, k);
    var u := After(l, s, attempts[..k]);
    assert attempts[k..] == [attempts[k]];
    var t := After(l, s, attempts);
    LastPoll(l, u, attempts[k]);
    PollingIsExact(l, s, attempts[..k]);
    PollingIsExact(l, s, attempts);
    SkippedRefillIsSmall(l, u, attempts[k].n, now);
    LagIsSmall(l, s, t, now);
  }

  lemma LagIsSmall(l: Limits, s: Bucket, t: Bucket, now: int)
    requires l.Usable() && t.tokens == ClosedForm(l, s, t.last)
    requires t.last < now ==> Earned(l, now - t.last) < EPSILON
    ensures ClosedForm(l, s, now) - EPSILON < t.tokens
  {
    if t.last >= now {
      EarnedGrows(l, now - s.last, t.last - s.last);
    } else {
      EarnedAdds(l, t.last - s.last, now - t.last);
    }
  }

  lemma LastPoll(l: Limits, u: Bucket, a: Attempt)
    requires l.Usable() && Polls(l, u, [a])
    ensures After(l, u, [a]) == Consume(l, Some(u), a.n, a.now).0
    ensures !Consume(l, Some(u), a.n, a.now).1 && a.now - u.last <= MAX_ELAPSED
  {
    assert [a][1..] == [];
  }

  // ----- The wait estimate -----

  function Collectable(s: Bucket, t: int): int {
    Min(Max(0, t - s.last), MAX_ELAPSED)
  }

  lemma RefillCollects(l: Limits, s: Bucket, t: int)
    requires l.Usable() && InRange(l, s)
    ensures Refill(l, s, t).tokens <= s.tokens + Earned(l, Collectable(s, t))
    ensures Earned(l, Collectable(s, t)) >= EPSILON && s.tokens + Earned(l, Collectable(s, t)) >= 1.0 ==>
              Refill(l, s, t).tokens >= 1.0
  {
    EarnedGrows(l, 0, Collectable(s, t));
  }

  /** A positive estimate w says the missing share of a token takes between w and w + 1 ns. */
  lemma EstimateBrackets(l: Limits, s: Bucket, now: int)
    requires l.Usable() && InRange(l, s) && WaitTime(l, s, now) > 0
    ensures var w := WaitTime(l, s, now);
            var missing := 1.0 - s.tokens - Earned(l, Collectable(s, now));
            Earned(l, w) <= missing < Earned(l, w + 1)
  {
    EstimateUnfolds(l, s, now);
    BracketArithmetic(l, 1.0 - s.tokens - Earned(l, Collectable(s, now)), WaitTime(l, s, now));
  }

  lemma EstimateUnfolds(l: Limits, s: Bucket, now: int)
    requires l.Usable() && InRange(l, s) && WaitTime(l, s, now) > 0
    ensures Slope(l) > 0.0
    ensures var missing := 1.0 - s.tokens - Earned(l, Collectable(s, now));
            && 0.0 < missing <= 1.0
            && WaitTime(l, s, now) == Min(NsToEarn(l, missing).Floor, MAX_WAIT)
  {
    EarnedIsLinear(l, 0);
    EarnedGrows(l, 0, Collectable(s, now));
    var current := s.tokens + Earned(l, Collectable(s, now));
    assert current < 1.0;
    var missing := 1.0 - s.tokens - Earned(l, Collectable(s, now));
    assert 1.0 - current == missing;
  }

  lemma BracketArithmetic(l: Limits, missing: real, w: int)
    requires l.Usable() && missing <= 1.0 && Slope(l) > 0.0
    requires w == Min(NsToEarn(l, missing).Floor, MAX_WAIT)
    ensures Earned(l, w) <= missing < Earned(l, w + 1)
  {
    EarnedIsLinear(l, w);
    EarnedIsLinear(l, w + 1);
    var ns := NsToEarn(l, missing);
    AtMostADay(l, missing, ns);
    Between(ns, w, Slope(l), Earned(l, w), missing, Earned(l, w + 1));
  }

  lemma Between(ns: real, w: int, slope: real, low: real, missing: real, high: real)
    requires slope > 0.0 && w == ns.Floor
    requires low == w as real * slope && missing == ns * slope && high == (w + 1) as real * slope
    ensures low <= missing < high
  {
    ScaleUp(w as real, ns, slope);
    var rest := (w + 1) as real - ns;
    SignOfProduct(rest, slope);
    assert rest * slope == high - missing;
  }

  lemma AtMostADay(l: Limits, missing: real, ns: real)
    requires l.Usable() && missing <= 1.0 && ns * Slope(l) == missing
    ensures ns.Floor <= MAX_WAIT
  {
    EarnedIsLinear(l, 0);
    IntervalIsWorthRate(l);
    BelowInterval(ns, l.interval as real, Slope(l), missing, l.rate as real);
  }

  lemma BelowInterval(ns: real, interval: real, slope: real, missing: real, rate: real)
    requires slope > 0.0 && ns * slope == missing <= rate == interval * slope
    ensures ns <= interval
  {
    SignOfProduct(ns - interval, slope);
    assert (ns - interval) * slope == ns * slope - interval * slope;
  }

  lemma RefusedBeforeEstimate(l: Limits, s: Bucket, now: int, t: int)
    requires l.Usable() && InRange(l, s) && WaitTime(l, s, now) > 0 && t < now + WaitTime(l, s, now)
    ensures !Consume(l, Some(s), 1, t).1
  {
    var w := WaitTime(l, s, now);
    var e, later := Collectable(s, now), Collectable(s, t);
    EstimateBrackets(l, s, now);
    RefillCollects(l, s, t);
    EarnedGrows(l, later, e + (w - 1));
    EarnedAdds(l, e, w - 1);
    EarnedAdds(l, w - 1, 1);
    EarnedIsLinear(l, 1);
  }

  lemma GrantedAfterEstimate(l: Limits, s: Bucket, now: int)
    requires l.Usable() && InRange(l, s) && WaitTime(l, s, now) > 0
    requires s.last <= now && now + WaitTime(l, s, now) + 1 - s.last <= MAX_ELAPSED && s.tokens <= 1.0 - EPSILON
    ensures Consume(l, Some(s), 1, now + WaitTime(l, s, now) + 1).1
  {
    var w := WaitTime(l, s, now);
    var t := now + w + 1;
    EstimateBrackets(l, s, now);
    RefillCollects(l, s, t);
    assert Collectable(s, t) == Collectable(s, now) + (w + 1);
    EarnedAdds(l, Collectable(s, now), w + 1);
  }

  /** The estimate is tight: on a bucket nobody touches, one token is refused at every time
      before now + w and granted one nanosecond after now + w. */
  lemma WaitIsTight(l: Limits, s: Bucket, now: int, t: int)
    requires l.Usable() && InRange(l, s) && WaitTime(l, s, now) > 0
    ensures var w := WaitTime(l, s, now);
            && (t < now + w ==> !Consume(l, Some(s), 1, t).1)
            && (t == now + w + 1 && s.last <= now && t - s.last <= MAX_ELAPSED && s.tokens <= 1.0 - EPSILON ==>
                  Consume(l, Some(s), 1, t).1)
  {
    var w := WaitTime(l, s, now);
    if t < now + w {
      RefusedBeforeEstimate(l, s, now, t);
    }
    if t == now + w + 1 && s.last <= now && t - s.last <= MAX_ELAPSED && s.tokens <= 1.0 - EPSILON {
      GrantedAfterEstimate(l, s, now);
    }
  }

  // ----- What a caller gets -----

  /** The answer to the i-th attempt of a run. */
  function Answer(l: Limits, s: Bucket, attempts: seq<Attempt>, i: nat): bool
    requires l.Usable() && i < |attempts|
  {
    Consume(l, Some(After(l, s, attempts[..i])), attempts[i].n, attempts[i].now).1
  }

  /** Tokens handed out by the attempts from j to before i. */
  function Given(l: Limits, s: Bucket, attempts: seq<Attempt>, j: nat, i: nat): int
    requires l.Usable() && j <= i <= |attempts|
    decreases i
  {
    if i == j then 0
    else Given(l, s, attempts, j, i - 1) + (if Answer(l, s, attempts, i - 1) then attempts[i - 1].n else 0)
  }

  /** The instant up to which time has been turned into tokens before the i-th attempt: that of
      the last attempt that found at least epsilon to collect. It depends on times alone. */
  function Collected(l: Limits, last: int, attempts: seq<Attempt>, i: nat): int
    requires l.Usable() && i <= |attempts|
  {
    if i == 0 then last else
      var since, now := Collected(l, last, attempts, i - 1), attempts[i - 1].now;
      if now > since && Earned(l, Min(now - since, MAX_ELAPSED)) >= EPSILON then now else since
  }

  /** What the i-th attempt finds to collect, an hour's worth at most. */
  function Share(l: Limits, last: int, attempts: seq<Attempt>, i: nat): real
    requires l.Usable() && i < |attempts|
  {
    Earned(l, Min(Collected(l, last, attempts, i + 1) - Collected(l, last, attempts, i), MAX_ELAPSED))
  }

  /** ... and what those from j to before i find. */
  function Income(l: Limits, last: int, attempts: seq<Attempt>, j: nat, i: nat): real
    requires l.Usable() && j <= i <= |attempts|
    decreases i
  {
    if i == j then 0.0 else Income(l, last, attempts, j, i - 1) + Share(l, last, attempts, i - 1)
  }

  /** x tokens more than were given since attempt j would come out of a bucket that was at most
      full then, counting the income up to before end. */
  predicate FromFull(l: Limits, s: Bucket, attempts: seq<Attempt>, j: nat, i: nat, end: nat, x: real)
    requires l.Usable() && j <= i <= end <= |attempts| && j < end
  {
    x + Given(l, s, attempts, j, i) as real <= l.burst as real + Income(l, s.last, attempts, j + 1, end)
  }

  /** The tokens given before i and x more are covered by the stock and the income up to before
      end; and so are those given since any attempt, by a full bucket and the income since. */
  ghost predicate Covered(l: Limits, s: Bucket, attempts: seq<Attempt>, i: nat, end: nat, x: real)
    requires l.Usable() && i <= end <= |attempts|
  {
    && x + Given(l, s, attempts, 0, i) as real <= s.tokens + Income(l, s.last, attempts, 0, end)
    && forall j: nat :: j <= i && j < end ==> FromFull(l, s, attempts, j, i, end, x)
  }

  lemma AfterOneMore(l: Limits, s: Bucket, attempts: seq<Attempt>, i: nat)
    requires l.Usable() && i < |attempts|
    ensures After(l, s, attempts[..i + 1])
         == Consume(l, Some(After(l, s, attempts[..i])), attempts[i].n, attempts[i].now).0
  {
    AfterFront(l, s, attempts[..i + 1], i);
    assert attempts[..i + 1][..i] == attempts[..i];
    assert attempts[..i + 1][i..] == [attempts[i]];
    assert [attempts[i]][1..] == [];
  }

  lemma RefillIsCapped(l: Limits, s: Bucket, now: int)
    requires l.Usable() && InRange(l, s)
    ensures var e := Min(now - s.last, MAX_ELAPSED);
            var collects := now > s.last && Earned(l, e) >= EPSILON;
            Refill(l, s, now) == if collects then Bucket(MinReal(l.burst as real, s.tokens + Earned(l, e)), now) else s
  {
    EarnedGrows(l, 0, 0);
  }

  lemma CoveredByIncome(l: Limits, s: Bucket, attempts: seq<Attempt>, i: nat, x: real)
    requires l.Usable() && i < |attempts|
    ensures Covered(l, s, attempts, i, i + 1, x)
       <==> x <= l.burst as real && Covered(l, s, attempts, i, i, x - Share(l, s.last, attempts, i))
  {
    var y, end := x - Share(l, s.last, attempts, i), i + 1;
    assert FromFull(l, s, attempts, i, i, end, x) <==> x <= l.burst as real;
    forall j: nat | j < i
      ensures FromFull(l, s, attempts, j, i, end, x) <==> FromFull(l, s, attempts, j, i, i, y)
    {
    }
    assert (forall j: nat :: j <= i && j < end ==> FromFull(l, s, attempts, j, i, end, x))
      <==> FromFull(l, s, attempts, i, i, end, x) && forall j: nat :: j < i ==> FromFull(l, s, attempts, j, i, i, y);
  }

  lemma CoveredAfterAnswer(l: Limits, s: Bucket, attempts: seq<Attempt>, i: nat, x: real)
    requires l.Usable() && i < |attempts|
    ensures var n := if Answer(l, s, attempts, i) then attempts[i].n else 0;
            Covered(l, s, attempts, i + 1, i + 1, x) <==> Covered(l, s, attempts, i, i + 1, x + n as real)
  {
    var y := x + (if Answer(l, s, attempts, i) then attempts[i].n else 0) as real;
    var end := i + 1;
    forall j: nat | j < end
      ensures FromFull(l, s, attempts, j, end, end, x) <==> FromFull(l, s, attempts, j, i, end, y)
    {
    }
  }

  /** What one attempt finds, is told and leaves. */
  lemma AttemptExactly(l: Limits, s: Bucket, attempts: seq<Attempt>, i: nat)
    requires l.Usable() && InRange(l, s) && Positive(attempts) && i < |attempts|
    requires var t := After(l, s, attempts[..i]); InRange(l, t) && t.last == Collected(l, s.last, attempts, i)
    ensures var t, u := After(l, s, attempts[..i]), After(l, s, attempts[..i + 1]);
            var found := MinReal(l.burst as real, t.tokens + Share(l, s.last, attempts, i));
            && (Answer(l, s, attempts, i) <==> attempts[i].n as real <= found)
            && u == Bucket(found - (if Answer(l, s, attempts, i) then attempts[i].n else 0) as real,
                           Collected(l, s.last, attempts, i + 1))
            && InRange(l, u)
  {
    EarnedGrows(l, 0, 0);
    AfterOneMore(l, s, attempts, i);
    RefillIsCapped(l, After(l, s, attempts[..i]), attempts[i].now);
    ConsumeBounds(l, After(l, s, attempts[..i]), attempts[i].n, attempts[i].now);
  }

  lemma LeftArithmetic(x: real, burst: real, had: real, share: real, n: real)
    ensures x <= MinReal(burst, had + share) - n <==> x + n <= burst && x + n - share <= had
  {
  }

  /** One more attempt: what is left after it is what is covered after it. */
  lemma LeftAfterOneMore(l: Limits, s: Bucket, attempts: seq<Attempt>, i: nat, x: real, y: real)
    requires l.Usable() && InRange(l, s) && Positive(attempts) && i < |attempts|
    requires y == x + (if Answer(l, s, attempts, i) then attempts[i].n else 0) as real
    requires var t, share := After(l, s, attempts[..i]), Share(l, s.last, attempts, i);
             && InRange(l, t) && t.last == Collected(l, s.last, attempts, i)
             && (y - share <= t.tokens <==> Covered(l, s, attempts, i, i, y - share))
    ensures var t := After(l, s, attempts[..i + 1]);
            && InRange(l, t) && t.last == Collected(l, s.last, attempts, i + 1)
            && (x <= t.tokens <==> Covered(l, s, attempts, i + 1, i + 1, x))
  {
    AttemptExactly(l, s, attempts, i);
    LeftArithmetic(x, l.burst as real, After(l, s, attempts[..i]).tokens, Share(l, s.last, attempts, i),
                   (if Answer(l, s, attempts, i) then attempts[i].n else 0) as real);
    CoveredByIncome(l, s, attempts, i, y);
    CoveredAfterAnswer(l, s, attempts, i, x);
  }

  /** After any run, on any clock, the bucket holds at least x exactly when x more are covered. */
  lemma {:induction false} TokensLeftExactly(l: Limits, s: Bucket, attempts: seq<Attempt>, i: nat, x: real)
    requires l.Usable() && InRange(l, s) && Positive(attempts) && i <= |attempts|
    ensures var t := After(l, s, attempts[..i]);
            && InRange(l, t) && t.last == Collected(l, s.last, attempts, i)
            && (x <= t.tokens <==> Covered(l, s, attempts, i, i, x))
    decreases i
  {
    if i == 0 {
      assert attempts[..0] == [];
    } else {
      var y := x + (if Answer(l, s, attempts, i - 1) then attempts[i - 1].n else 0) as real;
      TokensLeftExactly(l, s, attempts, i - 1, y - Share(l, s.last, attempts, i - 1));
      LeftAfterOneMore(l, s, attempts, i - 1, x, y);
    }
  }

  /** What a caller gets, over every run and on any clock: an attempt is granted exactly when its
      tokens are covered by the stock and all income so far less all that was given, and by a
      full bucket at any earlier attempt and the income since less what was given since. */
  lemma GrantedExactly(l: Limits, s: Bucket, attempts: seq<Attempt>, i: nat)
    requires l.Usable() && InRange(l, s) && Positive(attempts) && i < |attempts|
    ensures Answer(l, s, attempts, i) <==> Covered(l, s, attempts, i, i + 1, attempts[i].n as real)
  {
    var x := attempts[i].n as real;
    TokensLeftExactly(l, s, attempts, i, x - Share(l, s.last, attempts, i));
    AttemptExactly(l, s, attempts, i);
    CoveredByIncome(l, s, attempts, i, x);
  }

  /** As long as no gap is capped, income is what the rate yields from one refill to the other. */
  lemma {:induction false} IncomeIsEarned(l: Limits, last: int, attempts: seq<Attempt>, j: nat, i: nat)
    requires l.Usable() && j <= i <= |attempts|
    requires forall k :: j <= k < i ==>
               Collected(l, last, attempts, k + 1) - Collected(l, last, attempts, k) <= MAX_ELAPSED
    ensures Income(l, last, attempts, j, i)
         == Earned(l, Collected(l, last, attempts, i) - Collected(l, last, attempts, j))
    decreases i
  {
    EarnedGrows(l, 0, 0);
    if j < i {
      IncomeIsEarned(l, last, attempts, j, i - 1);
      EarnedAdds(l, Collected(l, last, attempts, i - 1) - Collected(l, last, attempts, j),
                 Collected(l, last, attempts, i) - Collected(l, last, attempts, i - 1));
    }
  }

  // ----- At one instant -----

  predicate AllAt(attempts: seq<Attempt>, now: int) {
    forall i :: 0 <= i < |attempts| ==> attempts[i].now == now
  }

  lemma {:induction false} CollectedOnce(l: Limits, last: int, attempts: seq<Attempt>, now: int, j: nat, i: nat)
    requires l.Usable() && AllAt(attempts, now) && 1 <= j <= i <= |attempts|
    ensures Collected(l, last, attempts, i) == Collected(l, last, attempts, 1)
    ensures Income(l, last, attempts, j, i) == 0.0
    decreases i
  {
    EarnedGrows(l, 0, 0);
    if i > 1 {
      CollectedOnce(l, last, attempts, now, Min(j, i - 1), i - 1);
      assert Collected(l, last, attempts, 1) in {last, now};
    }
  }

  lemma {:induction false} GivenSince(l: Limits, s: Bucket, attempts: seq<Attempt>, j: nat, i: nat)
    requires l.Usable() && Positive(attempts) && j <= i <= |attempts|
    ensures 0 <= Given(l, s, attempts, j, i) <= Given(l, s, attempts, 0, i)
    decreases i
  {
    if j < i {
      GivenSince(l, s, attempts, j, i - 1);
    } else if i > 0 {
      GivenSince(l, s, attempts, j - 1, i - 1);
    }
  }

  lemma {:induction false} IncomeAtOnce(l: Limits, last: int, attempts: seq<Attempt>, now: int, i: nat)
    requires l.Usable() && AllAt(attempts, now) && 1 <= i <= |attempts|
    ensures Income(l, last, attempts, 0, i) == Share(l, last, attempts, 0)
    decreases i
  {
    if i > 1 {
      IncomeAtOnce(l, last, attempts, now, i - 1);
      CollectedOnce(l, last, attempts, now, i, i);
      CollectedOnce(l, last, attempts, now, i - 1, i - 1);
      EarnedGrows(l, 0, 0);
    }
  }

  lemma SinceStartAtOnce(l: Limits, s: Bucket, attempts: seq<Attempt>, now: int, j: nat, i: nat, x: real)
    requires l.Usable() && Positive(attempts) && AllAt(attempts, now) && j <= i < |attempts|
    ensures FromFull(l, s, attempts, 0, i, i + 1, x)
       <==> x + Given(l, s, attempts, 0, i) as real <= l.burst as real
    ensures FromFull(l, s, attempts, 0, i, i + 1, x) ==> FromFull(l, s, attempts, j, i, i + 1, x)
  {
    CollectedOnce(l, s.last, attempts, now, j + 1, i + 1);
    CollectedOnce(l, s.last, attempts, now, 1, i + 1);
    GivenSince(l, s, attempts, j, i);
  }

  /** Attempts made at one instant share what the first of them finds: each is granted exactly
      when its tokens and those given before it do not exceed that. */
  lemma AtOneInstant(l: Limits, s: Bucket, attempts: seq<Attempt>, now: int, i: nat)
    requires l.Usable() && InRange(l, s) && Positive(attempts) && AllAt(attempts, now) && i < |attempts|
    ensures Answer(l, s, attempts, i)
       <==> (attempts[i].n + Given(l, s, attempts, 0, i)) as real
            <= MinReal(l.burst as real, s.tokens + Share(l, s.last, attempts, 0))
  {
    var x, end := attempts[i].n as real, i + 1;
    GrantedExactly(l, s, attempts, i);
    IncomeAtOnce(l, s.last, attempts, now, end);
    forall j: nat | j < end
      ensures FromFull(l, s, attempts, 0, i, end, x) ==> FromFull(l, s, attempts, j, i, end, x)
    {
      SinceStartAtOnce(l, s, attempts, now, j, i, x);
    }
    SinceStartAtOnce(l, s, attempts, now, 0, i, x);
  }

  /** A key never seen starts as a full bucket, of which attempts at one instant get everything
      and no more: one token at a time, exactly the first Burst of them are granted. */
  lemma {:induction false} BurstAtOnce(l: Limits, attempts: seq<Attempt>, now: int, k: nat)
    requires l.Usable() && AllAt(attempts, now) && k <= |attempts|
    requires forall i :: 0 <= i < |attempts| ==> attempts[i].n == 1
    ensures var full := Bucket(l.burst as real, now);
            && (forall n :: Consume(l, None, n, now) == Consume(l, Some(full), n, now))
            && (forall i: nat :: i < k ==> (Answer(l, full, attempts, i) <==> i < l.burst))
            && Given(l, full, attempts, 0, k) == Min(k, l.burst)
    decreases k
  {
    var full := Bucket(l.burst as real, now);
    if k > 0 {
      BurstAtOnce(l, attempts, now, k - 1);
      AtOneInstant(l, full, attempts, now, k - 1);
      EarnedGrows(l, 0, 0);
    }
  }

  // ----- When there is nothing to wait for -----

  lemma ZeroArithmetic(l: Limits, missing: real)
    requires l.Usable()
    ensures NsToEarn(l, missing).Floor >= 1 <==> missing >= Earned(l, 1)
    ensures missing > 0.0 ==> NsToEarn(l, missing).Floor >= 0
  {
    EarnedIsLinear(l, 1);
    AtLeastOne(NsToEarn(l, missing), Slope(l), missing);
  }

  lemma AtLeastOne(ns: real, slope: real, missing: real)
    requires slope > 0.0 && ns * slope == missing
    ensures ns >= 1.0 <==> missing >= slope
    ensures missing > 0.0 ==> ns > 0.0
  {
    SignOfProduct(1.0 - ns, slope);
    SignOfProduct(ns, slope);
    assert (1.0 - ns) * slope == slope - missing;
  }

  /** The estimate is zero exactly when a token is there or less than a nanosecond away. */
  lemma EstimateIsZeroExactly(l: Limits, s: Bucket, now: int)
    requires l.Usable() && InRange(l, s)
    ensures WaitTime(l, s, now) >= 0
    ensures WaitTime(l, s, now) == 0 <==> s.tokens + Earned(l, Collectable(s, now)) + Earned(l, 1) > 1.0
  {
    EarnedIsLinear(l, 1);
    EarnedGrows(l, 0, Collectable(s, now));
    var current := s.tokens + Earned(l, Collectable(s, now));
    if current < 1.0 {
      ZeroArithmetic(l, 1.0 - current);
    }
  }
}
