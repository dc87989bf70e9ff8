// retry/backoff.go: the delay before the next attempt. Durations are integer nanoseconds;
// the random factor of the jitter is a parameter in [0, 1).
module Backoff {
  import opened Basics

  const MAX_BACKOFF := 86_400_000_000_000  // 24 hours

  datatype Policy = Exponential | Linear | Constant | Unknown

  function Power(base: real, k: nat): real {
    if k == 0 then 1.0 else base * Power(base, k - 1)
  }

  /** The policy's value before any cap. */
  function Raw(policy: Policy, attempt: nat, initialDelay: int, multiplier: real): real
    requires attempt >= 1
  {
    match policy
    case Exponential => initialDelay as real * Power(multiplier, attempt - 1)
    case Linear => initialDelay as real * attempt as real
    case Constant => initialDelay as real
    case Unknown => initialDelay as real
  }

  function Unjittered(policy: Policy, attempt: nat, initialDelay: int, maxDelay: int, multiplier: real): int
    requires attempt >= 1
  {
    var raw := Raw(policy, attempt, initialDelay, multiplier);
    var guarded := if raw > MAX_BACKOFF as real || raw < 0.0 then MAX_BACKOFF as real else raw;
    var delay := guarded.Floor;
    if maxDelay > 0 && delay > maxDelay then maxDelay else delay
  }

  function AddJitter(delay: int, random: real): int {
    if delay == 0 then 0 else delay + (random * delay as real * 0.1).Floor
  }

  function CalculateBackoff(policy: Policy, attempt: nat, initialDelay: int, maxDelay: int, multiplier: real,
                            jitter: Option<real>): int
    requires attempt >= 1
  {
    var delay := Unjittered(policy, attempt, initialDelay, maxDelay, multiplier);
    match jitter
    case None => delay
    case Some(random) => AddJitter(delay, random)
  }

  /** The ceiling no delay passes before jitter. */
  function Ceiling(maxDelay: int): int {
    if maxDelay > 0 then Min(MAX_BACKOFF, maxDelay) else MAX_BACKOFF
  }

  lemma UnjitteredBounds(policy: Policy, attempt: nat, initialDelay: int, maxDelay: int, multiplier: real)
    requires attempt >= 1
    ensures 0 <= Unjittered(policy, attempt, initialDelay, maxDelay, multiplier) <= Ceiling(maxDelay)
  {
  }

  /** Every delay lies between 0 and 1.1 times the ceiling, and jitter never shortens it. */
  lemma BackoffBounds(policy: Policy, attempt: nat, initialDelay: int, maxDelay: int, multiplier: real,
                      jitter: Option<real>)
    requires attempt >= 1
    requires jitter.Some? ==> 0.0 <= jitter.value < 1.0
    ensures var delay := CalculateBackoff(policy, attempt, initialDelay, maxDelay, multiplier, jitter);
            && Unjittered(policy, attempt, initialDelay, maxDelay, multiplier) <= delay
            && 0.0 <= delay as real <= 1.1 * Ceiling(maxDelay) as real
  {
    UnjitteredBounds(policy, attempt, initialDelay, maxDelay, multiplier);
    var base := Unjittered(policy, attempt, initialDelay, maxDelay, multiplier);
    match jitter
    case None =>
    case Some(random) =>
      JitterBounds(base, random);
  }

  lemma JitterBounds(delay: int, random: real)
    requires delay >= 0 && 0.0 <= random < 1.0
    ensures delay <= AddJitter(delay, random)
    ensures AddJitter(delay, random) as real <= 1.1 * delay as real
  {
    var scaled := random * delay as real;
    Scaled(random, delay as real, scaled);
    TenthOf(delay, scaled);
  }

  lemma TenthOf(delay: int, scaled: real)
    requires 0.0 <= scaled <= delay as real
    ensures 0 <= (scaled * 0.1).Floor
    ensures (delay + (scaled * 0.1).Floor) as real <= 1.1 * delay as real
  {
    var amount := (scaled * 0.1).Floor;
    assert amount as real <= scaled * 0.1;
  }

  lemma Scaled(random: real, x: real, scaled: real)
    requires 0.0 <= random < 1.0 && x >= 0.0 && scaled == random * x
    ensures 0.0 <= scaled <= x
  {
    var rest := 1.0 - random;
    NonNegative(rest, x);
    NonNegative(random, x);
    Distributes(rest, random, x);
  }

  lemma NonNegative(a: real, x: real)
    requires a >= 0.0 && x >= 0.0
    ensures a * x >= 0.0
  {
  }

  lemma Distributes(a: real, b: real, x: real)
    ensures a * x + b * x == (a + b) * x
  {
  }

  lemma {:induction false} PowerGrows(base: real, j: nat, k: nat)
    requires base >= 1.0 && j <= k
    ensures 1.0 <= Power(base, j) <= Power(base, k)
  {
    if j < k {
      PowerGrows(base, j, k - 1);
      assert (base - 1.0) * Power(base, k - 1) >= 0.0;
    } else if j > 0 {
      PowerGrows(base, j - 1, k - 1);
      assert (base - 1.0) * Power(base, k - 1) >= 0.0;
    }
  }

  lemma Scales(factor: real, x: real, y: real)
    requires factor >= 0.0 && 0.0 <= x <= y
    ensures 0.0 <= factor * x <= factor * y
  {
    assert factor * (y - x) >= 0.0;
  }

  lemma ExponentialGrows(a: nat, b: nat, initialDelay: int, multiplier: real)
    requires 1 <= a <= b && initialDelay >= 0 && multiplier >= 1.0
    ensures 0.0 <= Raw(Exponential, a, initialDelay, multiplier) <= Raw(Exponential, b, initialDelay, multiplier)
  {
    PowerGrows(multiplier, a - 1, b - 1);
    Scales(initialDelay as real, Power(multiplier, a - 1), Power(multiplier, b - 1));
  }

  lemma LinearGrows(a: nat, b: nat, initialDelay: int, multiplier: real)
    requires 1 <= a <= b && initialDelay >= 0
    ensures 0.0 <= Raw(Linear, a, initialDelay, multiplier) <= Raw(Linear, b, initialDelay, multiplier)
  {
    Scales(initialDelay as real, a as real, b as real);
  }

  /** With a multiplier of at least 1 the unjittered delay never falls from one attempt to a later one. */
  lemma DelaysNeverShrink(policy: Policy, a: nat, b: nat, initialDelay: int, maxDelay: int, multiplier: real)
    requires 1 <= a <= b && initialDelay >= 0 && multiplier >= 1.0
    ensures Unjittered(policy, a, initialDelay, maxDelay, multiplier)
            <= Unjittered(policy, b, initialDelay, maxDelay, multiplier)
  {
    match policy {
      case Exponential => ExponentialGrows(a, b, initialDelay, multiplier);
      case Linear => LinearGrows(a, b, initialDelay, multiplier);
      case Constant =>
      case Unknown =>
    }
    FloorGrows(Raw(policy, a, initialDelay, multiplier), Raw(policy, b, initialDelay, multiplier));
  }

  lemma FloorGrows(x: real, y: real)
    requires x <= y
    ensures x.Floor <= y.Floor
  {
  }

  // ----- How delays grow -----

  lemma CapsTogether(raw: real, maxDelay: int)
    requires raw >= 0.0
    ensures var guarded := if raw > MAX_BACKOFF as real then MAX_BACKOFF as real else raw;
            (if maxDelay > 0 && guarded.Floor > maxDelay then maxDelay else guarded.Floor)
            == Min(Ceiling(maxDelay), raw.Floor)
  {
  }

  lemma {:induction false} PowerIsPositive(base: real, k: nat)
    requires base > 0.0
    ensures Power(base, k) > 0.0
  {
    if k > 0 {
      PowerIsPositive(base, k - 1);
      assert base * Power(base, k - 1) > 0.0;
    }
  }

  lemma CappedDelay(policy: Policy, attempt: nat, initialDelay: int, maxDelay: int, multiplier: real, raw: real)
    requires attempt >= 1 && raw >= 0.0 && Raw(policy, attempt, initialDelay, multiplier) == raw
    ensures Unjittered(policy, attempt, initialDelay, maxDelay, multiplier) == Min(Ceiling(maxDelay), raw.Floor)
  {
    CapsTogether(raw, maxDelay);
  }

  /** How the policy gets from one delay to the next: exponentially by the multiplier, linearly by
      InitialDelay, else not at all. */
  predicate GrowsAt(policy: Policy, initialDelay: int, multiplier: real, values: nat -> real, k: nat) {
    match policy
    case Exponential => values(k + 1) == multiplier * values(k)
    case Linear => values(k + 1) == values(k) + initialDelay as real
    case Constant => values(k + 1) == values(k)
    case Unknown => values(k + 1) == values(k)
  }

  ghost predicate Grows(policy: Policy, initialDelay: int, multiplier: real, values: nat -> real) {
    && values(1) == initialDelay as real
    && forall k: nat :: k >= 1 ==> GrowsAt(policy, initialDelay, multiplier, values, k)
  }

  lemma PowerStep(i: real, m: real, k: nat)
    ensures i * Power(m, k + 1) == m * (i * Power(m, k))
  {
    assert i * (m * Power(m, k)) == m * (i * Power(m, k));
  }

  lemma OneMore(i: real, k: nat)
    ensures i * (k + 1) as real == i * k as real + i
  {
  }

  lemma {:induction false} ValuesAreRaw(policy: Policy, initialDelay: int, multiplier: real, values: nat -> real,
                                        attempt: nat)
    requires attempt >= 1 && Grows(policy, initialDelay, multiplier, values)
    ensures values(attempt) == Raw(policy, attempt, initialDelay, multiplier)
    decreases attempt
  {
    if attempt > 1 {
      ValuesAreRaw(policy, initialDelay, multiplier, values, attempt - 1);
      assert GrowsAt(policy, initialDelay, multiplier, values, attempt - 1);
      PowerStep(initialDelay as real, multiplier, attempt - 2);
      OneMore(initialDelay as real, attempt - 1);
    }
  }

  lemma RawIsPositive(policy: Policy, attempt: nat, initialDelay: int, multiplier: real)
    requires attempt >= 1 && initialDelay >= 0 && multiplier > 0.0
    ensures Raw(policy, attempt, initialDelay, multiplier) >= 0.0
  {
    PowerIsPositive(multiplier, attempt - 1);
    Scales(initialDelay as real, 0.0, Power(multiplier, attempt - 1));
  }

  /** The delay after each attempt is the policy's value, rounded down, up to the ceiling: values
      start at InitialDelay and grow from one attempt to the next as the policy says. */
  lemma DelaysFollowThePolicy(policy: Policy, attempt: nat, initialDelay: int, maxDelay: int, multiplier: real,
                              values: nat -> real)
    requires attempt >= 1 && initialDelay >= 0 && multiplier > 0.0
    requires Grows(policy, initialDelay, multiplier, values)
    ensures Unjittered(policy, attempt, initialDelay, maxDelay, multiplier)
         == Min(Ceiling(maxDelay), values(attempt).Floor)
  {
    ValuesAreRaw(policy, initialDelay, multiplier, values, attempt);
    RawIsPositive(policy, attempt, initialDelay, multiplier);
    CappedDelay(policy, attempt, initialDelay, maxDelay, multiplier, values(attempt));
  }

  /** Jitter adds the random share of a tenth of the delay, rounded down. */
  lemma JitterIsAShare(delay: int, random: real)
    requires delay >= 0 && 0.0 <= random < 1.0
    ensures var share := random * delay as real / 10.0;
            share - 1.0 < (AddJitter(delay, random) - delay) as real <= share
  {
    var x := random * delay as real;
    assert x * 0.1 == x / 10.0;
  }
}
