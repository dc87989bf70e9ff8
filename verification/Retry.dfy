// retry/retry.go and retry/config.go: the retry loop. The wrapped function, the random
// factors and the moments at which the context is cancelled are parameters indexed by attempt.
module Retry {
  import opened Basics
  import opened Errors
  import Backoff

  datatype Config = Config(
    maxAttempts: int,
    initialDelay: int,
    maxDelay: int,
    multiplier: real,
    policy: Backoff.Policy,
    jitter: bool,
    custom: Option<Error -> bool>,
    nonRetryable: seq<Sentinel>,
    retryable: seq<Sentinel>)
  {
    predicate Usable() {
      maxAttempts >= 1 && initialDelay >= 1 && maxDelay >= 0 && 0.0 < multiplier <= 100.0
    }
  }

  method SetDefaults(c: Config) returns (d: Config)
    ensures d.Usable()
    ensures c.Usable() ==> d == c
    ensures d.maxAttempts == if c.maxAttempts >= 1 then c.maxAttempts else 3
    ensures d.initialDelay == if c.initialDelay >= 1 then c.initialDelay else 100_000_000
    ensures d.maxDelay == Max(c.maxDelay, 0)
    ensures d.multiplier == if c.multiplier <= 0.0 then 2.0 else if c.multiplier > 100.0 then 100.0 else c.multiplier
    ensures (d.policy, d.jitter, d.custom, d.nonRetryable, d.retryable)
            == (c.policy, c.jitter, c.custom, c.nonRetryable, c.retryable)
  {
    d := c;
    if d.maxAttempts <= 0 {
      d := d.(maxAttempts := 3);
    }
    if d.initialDelay <= 0 {
      d := d.(initialDelay := 100_000_000);
    }
    if d.maxDelay < 0 {
      d := d.(maxDelay := 0);
    }
    if d.multiplier <= 0.0 {
      d := d.(multiplier := 2.0);
    }
    if d.multiplier > 100.0 {
      d := d.(multiplier := 100.0);
    }
  }

  predicate MatchesAny(err: Error, sentinels: seq<Sentinel>) {
    exists i :: 0 <= i < |sentinels| && Is(err, sentinels[i])
  }

  /** The documented precedence: a custom predicate decides alone; then NonRetryableErrors; then
      RetryableErrors, exclusively when given; then the error's own mark; then an open circuit
      is not retried and everything else is. */
  predicate Retryable(cfg: Config, err: Error) {
    if cfg.custom.Some? then cfg.custom.value(err)
    else
      && !MatchesAny(err, cfg.nonRetryable)
      && (if cfg.retryable != [] then MatchesAny(err, cfg.retryable)
          else err.marked || !Is(err, CIRCUIT_OPEN))
  }

  /** The precedence, case by case. */
  lemma PrecedenceIsDocumented(cfg: Config, err: Error)
    ensures cfg.custom.Some? ==> (Retryable(cfg, err) <==> cfg.custom.value(err))
    ensures cfg.custom.None? && (exists sentinel <- cfg.nonRetryable :: Is(err, sentinel)) ==> !Retryable(cfg, err)
    ensures cfg.custom.None? && (forall sentinel <- cfg.nonRetryable :: !Is(err, sentinel)) ==>
              if cfg.retryable != []
              then Retryable(cfg, err) <==> exists sentinel <- cfg.retryable :: Is(err, sentinel)
              else Retryable(cfg, err) <==> err.marked || !Is(err, CIRCUIT_OPEN)
  {
    if sentinel :| sentinel in cfg.nonRetryable && Is(err, sentinel) {
      var i :| 0 <= i < |cfg.nonRetryable| && cfg.nonRetryable[i] == sentinel;
      assert Is(err, cfg.nonRetryable[i]);
    }
    if sentinel :| sentinel in cfg.retryable && Is(err, sentinel) {
      var i :| 0 <= i < |cfg.retryable| && cfg.retryable[i] == sentinel;
      assert Is(err, cfg.retryable[i]);
    }
  }

  method IsRetryable(cfg: Config, err: Option<Error>) returns (r: bool)
    ensures r == (err.Some? && Retryable(cfg, err.value))
  {
    if err.None? {
      return false;
    }
    var e := err.value;
    if cfg.custom.Some? {
      return cfg.custom.value(e);
    }
    for i := 0 to |cfg.nonRetryable|
      invariant forall k :: 0 <= k < i ==> !Is(e, cfg.nonRetryable[k])
    {
      if Is(e, cfg.nonRetryable[i]) {
        return false;
      }
    }
    if |cfg.retryable| > 0 {
      for i := 0 to |cfg.retryable|
        invariant forall k :: 0 <= k < i ==> !Is(e, cfg.retryable[k])
      {
        if Is(e, cfg.retryable[i]) {
          return true;
        }
      }
      return false;
    }
    if e.marked {
      return true;
    }
    if Is(e, CIRCUIT_OPEN) {
      return false;
    }
    return true;
  }

  /** What fn returns on one attempt: Go returns the value also beside an error. */
  datatype Outcome<T> = Outcome(value: T, err: Option<Error>)

  /** The surroundings of attempt i, counted from 1. */
  datatype Weather = Weather(cancelledBefore: bool, cancelledInWait: bool, random: real)

  ghost predicate Calm(w: nat -> Weather) {
    forall i: nat :: !w(i).cancelledBefore && !w(i).cancelledInWait
  }

  /** The attempts end with this one: it succeeded, may not be retried, or was the last allowed. */
  predicate Stops<T>(cfg: Config, o: Outcome<T>, attempt: int) {
    o.err.None? || !Retryable(cfg, o.err.value) || attempt >= cfg.maxAttempts
  }

  function DelayAfter(cfg: Config, w: nat -> Weather, attempt: nat): int
    requires attempt >= 1
  {
    Backoff.CalculateBackoff(cfg.policy, attempt, cfg.initialDelay, cfg.maxDelay, cfg.multiplier,
                             if cfg.jitter then Some(w(attempt).random) else None)
  }

  function Sum(delays: seq<int>): int {
    if delays == [] then 0 else Sum(delays[..|delays| - 1]) + delays[|delays| - 1]
  }

  /** Runs fn at most MaxAttempts times. attempts counts the runs, delays lists the waits begun
      after them, and finished says whether the loop ended on an attempt rather than on the context. */
  method Execute<T>(cfg: Config, fn: nat -> Outcome<T>, zero: T, ctxErr: Error, w: nat -> Weather)
    returns (result: T, err: Option<Error>, attempts: nat, delays: seq<int>, finished: bool)
    requires cfg.Usable()
    ensures attempts <= cfg.maxAttempts
    ensures forall i :: 1 <= i < attempts ==> !Stops(cfg, fn(i), i)
    // No attempt is made once the context has ended, before it or in the wait before it.
    ensures forall i :: 1 <= i <= attempts ==> !w(i).cancelledBefore
    ensures forall i :: 1 <= i < attempts ==> !w(i).cancelledInWait
    ensures finished ==> attempts >= 1 && Stops(cfg, fn(attempts), attempts) && Outcome(result, err) == fn(attempts)
    ensures !finished ==> err == Some(ctxErr) && result == (if attempts == 0 then zero else fn(attempts).value)
    ensures !finished && attempts >= 1 ==> !Stops(cfg, fn(attempts), attempts)
    ensures !finished ==> w(attempts + 1).cancelledBefore || (attempts >= 1 && w(attempts).cancelledInWait)
    ensures |delays| == if finished then attempts - 1 else attempts
    ensures forall i :: 0 <= i < |delays| ==> delays[i] == DelayAfter(cfg, w, i + 1)
  {
    result, err := zero, None;
    attempts, delays, finished := 0, [], true;
    for attempt := 1 to cfg.maxAttempts + 1
      invariant attempts == attempt - 1 == |delays|
      invariant forall i :: 1 <= i < attempt ==> !Stops(cfg, fn(i), i)
      invariant forall i :: 1 <= i < attempt ==> !w(i).cancelledBefore && !w(i).cancelledInWait
      invariant attempts == 0 ==> result == zero
      invariant attempts >= 1 ==> Outcome(result, err) == fn(attempts)
      invariant forall i :: 0 <= i < |delays| ==> delays[i] == DelayAfter(cfg, w, i + 1)
    {
      if w(attempt).cancelledBefore {
        return result, Some(ctxErr), attempts, delays, false;
      }
      result, err := fn(attempt).value, fn(attempt).err;
      attempts := attempt;
      if err.None? {
        return;
      }
      var again := IsRetryable(cfg, err);
      if !again {
        return;
      }
      if attempt == cfg.maxAttempts {
        return;
      }
      var delay := DelayAfter(cfg, w, attempt);
      delays := delays + [delay];
      if w(attempt).cancelledInWait {
        return result, Some(ctxErr), attempts, delays, false;
      }
    }
  }

  /** The specification of an undisturbed Execute: the index of the last attempt. */
  function LastAttempt<T>(cfg: Config, fn: nat -> Outcome<T>, from: nat): (k: nat)
    requires 1 <= from <= cfg.maxAttempts
    ensures from <= k <= cfg.maxAttempts
    ensures Stops(cfg, fn(k), k) && forall i :: from <= i < k ==> !Stops(cfg, fn(i), i)
    decreases cfg.maxAttempts - from
  {
    if Stops(cfg, fn(from), from) then from else LastAttempt(cfg, fn, from + 1)
  }

  /** Without cancellation Execute runs fn exactly up to the first attempt that succeeds, may not
      be retried or is the last allowed, and returns that attempt's outcome. */
  method ExecuteCalm<T>(cfg: Config, fn: nat -> Outcome<T>, zero: T, ctxErr: Error, w: nat -> Weather)
    returns (result: T, err: Option<Error>, attempts: nat)
    requires cfg.Usable() && Calm(w)
    ensures attempts == LastAttempt(cfg, fn, 1)
    ensures Outcome(result, err) == fn(attempts)
  {
    var delays, finished;
    result, err, attempts, delays, finished := Execute(cfg, fn, zero, ctxErr, w);
  }

  function Times(n: nat, limit: real): real {
    n as real * limit
  }

  lemma OneMore(n: nat, limit: real)
    ensures Times(n + 1, limit) == Times(n, limit) + limit
  {
  }

  lemma {:induction false} SumIsBounded(delays: seq<int>, limit: real)
    requires forall i :: 0 <= i < |delays| ==> 0.0 <= delays[i] as real <= limit
    ensures 0.0 <= Sum(delays) as real <= Times(|delays|, limit)
  {
    if delays != [] {
      SumIsBounded(delays[..|delays| - 1], limit);
      OneMore(|delays| - 1, limit);
    }
  }

  ghost predicate UnitRandom(w: nat -> Weather) {
    forall i: nat :: 0.0 <= w(i).random < 1.0
  }

  lemma WaitIsBounded(cfg: Config, w: nat -> Weather, attempt: nat)
    requires cfg.Usable() && UnitRandom(w) && attempt >= 1
    ensures 0.0 <= DelayAfter(cfg, w, attempt) as real <= 1.1 * Backoff.Ceiling(cfg.maxDelay) as real
  {
    Backoff.BackoffBounds(cfg.policy, attempt, cfg.initialDelay, cfg.maxDelay, cfg.multiplier,
                          if cfg.jitter then Some(w(attempt).random) else None);
  }

  /** However many attempts are made, the waiting between them is bounded by the ceiling on each delay. */
  lemma WaitingIsBounded(cfg: Config, w: nat -> Weather, delays: seq<int>)
    requires cfg.Usable() && UnitRandom(w)
    requires forall i :: 0 <= i < |delays| ==> delays[i] == DelayAfter(cfg, w, i + 1)
    ensures 0.0 <= Sum(delays) as real <= Times(|delays|, 1.1 * Backoff.Ceiling(cfg.maxDelay) as real)
  {
    forall i | 0 <= i < |delays|
      ensures 0.0 <= delays[i] as real <= 1.1 * Backoff.Ceiling(cfg.maxDelay) as real
    {
      WaitIsBounded(cfg, w, i + 1);
    }
    SumIsBounded(delays, 1.1 * Backoff.Ceiling(cfg.maxDelay) as real);
  }

  /** Without jitter and with a multiplier of at least 1 no wait is shorter than an earlier one. */
  lemma WaitsNeverShrink(cfg: Config, w: nat -> Weather, i: nat, j: nat)
    requires cfg.Usable() && !cfg.jitter && cfg.multiplier >= 1.0 && 1 <= i <= j
    ensures DelayAfter(cfg, w, i) <= DelayAfter(cfg, w, j)
  {
    Backoff.DelaysNeverShrink(cfg.policy, i, j, cfg.initialDelay, cfg.maxDelay, cfg.multiplier);
  }

  /** The waits are the policy's: without jitter the wait after each attempt is the policy's value
      for it, rounded down, up to the ceiling; with jitter it is at most a tenth longer. */
  lemma WaitsFollowThePolicy(cfg: Config, w: nat -> Weather, attempt: nat, values: nat -> real)
    requires cfg.Usable() && attempt >= 1 && 0.0 <= w(attempt).random < 1.0
    requires Backoff.Grows(cfg.policy, cfg.initialDelay, cfg.multiplier, values)
    ensures var unjittered := Min(Backoff.Ceiling(cfg.maxDelay), values(attempt).Floor);
            && (!cfg.jitter ==> DelayAfter(cfg, w, attempt) == unjittered)
            && unjittered <= DelayAfter(cfg, w, attempt)
            && DelayAfter(cfg, w, attempt) as real <= 1.1 * unjittered as real
  {
    Backoff.DelaysFollowThePolicy(cfg.policy, attempt, cfg.initialDelay, cfg.maxDelay, cfg.multiplier, values);
    var unjittered := Backoff.Unjittered(cfg.policy, attempt, cfg.initialDelay, cfg.maxDelay, cfg.multiplier);
    Backoff.UnjitteredBounds(cfg.policy, attempt, cfg.initialDelay, cfg.maxDelay, cfg.multiplier);
    Backoff.JitterBounds(unjittered, w(attempt).random);
  }
}
