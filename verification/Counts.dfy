// circuitbreaker/state.go and circuitbreaker/predicates.go: the request counters and
// the two shipped trip predicates, against the log of outcomes they summarise.
module BreakerCounts {
  import opened Basics

  const MAX_UINT32 := 0xFFFF_FFFF

  datatype Counts = Counts(
    requests: nat,
    totalSuccesses: nat,
    totalFailures: nat,
    consecutiveSuccesses: nat,
    consecutiveFailures: nat)

  const ZERO_COUNTS := Counts(0, 0, 0, 0, 0)

  /** The length of the run of v that ends the log. */
  function TrailingRun(log: seq<bool>, v: bool): (n: nat)
    ensures n <= |log|
  {
    if log == [] || log[|log| - 1] != v then 0 else TrailingRun(log[..|log| - 1], v) + 1
  }

  /** What the counters say about a log of outcomes (true is a success). */
  function CountsOf(log: seq<bool>): Counts {
    Counts(|log|, CountTrue(log), |log| - CountTrue(log), TrailingRun(log, true), TrailingRun(log, false))
  }

  function AfterSuccess(c: Counts): Counts {
    Counts(c.requests + 1, c.totalSuccesses + 1, c.totalFailures, c.consecutiveSuccesses + 1, 0)
  }

  function AfterFailure(c: Counts): Counts {
    Counts(c.requests + 1, c.totalSuccesses, c.totalFailures + 1, 0, c.consecutiveFailures + 1)
  }

  /** Updating the counters for one outcome is appending it to the log. */
  lemma CountsFoldTheLog(log: seq<bool>)
    ensures CountsOf([]) == ZERO_COUNTS
    ensures CountsOf(log + [true]) == AfterSuccess(CountsOf(log))
    ensures CountsOf(log + [false]) == AfterFailure(CountsOf(log))
  {
    assert (log + [true])[..|log|] == log;
    assert (log + [false])[..|log|] == log;
  }

  lemma {:induction false} TrailingRunIsSuffix(log: seq<bool>, v: bool, n: nat)
    ensures TrailingRun(log, v) >= n <==>
            n <= |log| && forall i :: |log| - n <= i < |log| ==> log[i] == v
  {
    if log != [] && log[|log| - 1] == v && n > 0 {
      TrailingRunIsSuffix(log[..|log| - 1], v, n - 1);
      var rest := log[..|log| - 1];
      if n <= |log| && forall i :: |rest| - (n - 1) <= i < |rest| ==> rest[i] == v {
        forall i | |log| - n <= i < |log|
          ensures log[i] == v
        {
          if i < |rest| {
            assert rest[i] == v;
          }
        }
      }
    }
  }

  // ----- Trip predicates -----

  function ClampToUint32(n: int): int {
    if n < 1 then 1 else if n > MAX_UINT32 then MAX_UINT32 else n
  }

  function TripOnConsecutiveFailures(n: int): Counts -> bool {
    var threshold := ClampToUint32(n);
    (counts: Counts) => counts.consecutiveFailures >= threshold
  }

  function ClampToShare(ratio: real): (r: real)
    ensures 0.0 <= r <= 1.0
    ensures 0.0 <= ratio <= 1.0 ==> r == ratio
  {
    if ratio < 0.0 then 0.0 else if ratio > 1.0 then 1.0 else ratio
  }

  function TripOnFailureRatio(ratio: real, minRequests: int): Counts -> bool {
    var r := ClampToShare(ratio);
    var minCalls := ClampToUint32(minRequests);
    (counts: Counts) =>
      if counts.requests < minCalls || counts.requests == 0 then false
      else counts.totalFailures as real / counts.requests as real >= r
  }

  /** The consecutive predicate fires exactly on a log whose last n outcomes failed, n clamped
      to at least 1. */
  lemma ConsecutivePredicateMeaning(n: int, log: seq<bool>)
    ensures var streak := ClampToUint32(n);
            TripOnConsecutiveFailures(n)(CountsOf(log)) <==>
            streak <= |log| && forall i :: |log| - streak <= i < |log| ==> !log[i]
  {
    TrailingRunIsSuffix(log, false, ClampToUint32(n));
  }

  /** At least the given share of the calls failed. */
  predicate FailedShare(failures: int, calls: int, ratio: real) {
    failures as real >= ratio * calls as real
  }

  /** The ratio predicate fires exactly when enough outcomes are in and that share of them failed. */
  lemma RatioPredicateMeaning(ratio: real, minRequests: int, log: seq<bool>)
    ensures TripOnFailureRatio(ratio, minRequests)(CountsOf(log)) <==>
            && |log| >= ClampToUint32(minRequests)
            && FailedShare(|log| - CountTrue(log), |log|, ClampToShare(ratio))
  {
    var counts := CountsOf(log);
    if counts.requests >= ClampToUint32(minRequests) {
      QuotientIsShare(counts.totalFailures, counts.requests, ClampToShare(ratio));
    }
  }

  lemma QuotientIsShare(failures: int, calls: int, ratio: real)
    requires calls > 0
    ensures failures as real / calls as real >= ratio <==> FailedShare(failures, calls, ratio)
  {
    RatioAsProduct(failures as real, calls as real, ratio);
  }

  lemma RatioAsProduct(part: real, whole: real, ratio: real)
    requires whole > 0.0
    ensures part / whole >= ratio <==> part >= ratio * whole
  {
    var q := part / whole;
    assert part == q * whole;
    if q >= ratio {
      assert (q - ratio) * whole >= 0.0;
    } else {
      assert (ratio - q) * whole > 0.0;
    }
  }

  /** The in-place counters. */
  class Counters {
    var requests: nat
    var totalSuccesses: nat
    var totalFailures: nat
    var consecutiveSuccesses: nat
    var consecutiveFailures: nat

    function Snapshot(): Counts
      reads this
    {
      Counts(requests, totalSuccesses, totalFailures, consecutiveSuccesses, consecutiveFailures)
    }

    constructor ()
      ensures Snapshot() == ZERO_COUNTS
    {
      requests, totalSuccesses, totalFailures := 0, 0, 0;
      consecutiveSuccesses, consecutiveFailures := 0, 0;
    }

    method OnSuccess()
      modifies this
      ensures Snapshot() == AfterSuccess(old(Snapshot()))
    {
      requests := requests + 1;
      totalSuccesses := totalSuccesses + 1;
      consecutiveSuccesses := consecutiveSuccesses + 1;
      consecutiveFailures := 0;
    }

    method OnFailure()
      modifies this
      ensures Snapshot() == AfterFailure(old(Snapshot()))
    {
      requests := requests + 1;
      totalFailures := totalFailures + 1;
      consecutiveFailures := consecutiveFailures + 1;
      consecutiveSuccesses := 0;
    }

    method Reset()
      modifies this
      ensures Snapshot() == ZERO_COUNTS
    {
      requests, totalSuccesses, totalFailures := 0, 0, 0;
      consecutiveSuccesses, consecutiveFailures := 0, 0;
    }
  }
}
