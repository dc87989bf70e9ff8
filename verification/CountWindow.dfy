// circuitbreaker/window.go: the count-based sliding window, a ring of outcomes with
// an incremental failure counter, against the plain history of outcomes.
module CountWindows {
  import opened Basics
  import opened Modular

  /** What a window of the last size outcomes reports for a history of outcomes
      (true is a failure): how many are retained, and how many of them failed. */
  function RetainedFailures(history: seq<bool>, size: nat): nat {
    CountTrue(LastN(history, size))
  }

  /** One more outcome: the window gains it and, once full, loses its oldest one. */
  lemma RetainedFailuresStep(history: seq<bool>, failure: bool, size: nat)
    requires size > 0
    ensures RetainedFailures(history + [failure], size)
            == RetainedFailures(history, size)
               - (if |history| >= size && history[|history| - size] then 1 else 0)
               + (if failure then 1 else 0)
  {
    var kept := LastN(history, size);
    var after := LastN(history + [failure], size);
    CountTrueConcat([], [failure]);
    if |history| >= size {
      assert kept == [kept[0]] + kept[1..];
      assert after == kept[1..] + [failure];
      CountTrueConcat([kept[0]], kept[1..]);
      CountTrueConcat(kept[1..], [failure]);
      assert CountTrue([kept[0]]) == if kept[0] then 1 else 0;
    } else {
      assert after == kept + [failure];
      CountTrueConcat(kept, [failure]);
    }
    assert CountTrue([failure]) == if failure then 1 else 0;
  }

  class CountWindow {
    const size: nat
    const outcomes: array<bool>  // true is a failure
    var next: nat
    var filled: nat
    var failures: int

    // Every outcome recorded since creation or the last Reset.
    ghost var history: seq<bool>

    ghost predicate Valid()
      reads this, outcomes
    {
      && size > 0
      && outcomes.Length == size
      && next == |history| % size
      && filled == Min(|history|, size)
      && failures == RetainedFailures(history, size)
      && forall k :: |history| - filled <= k < |history| ==> outcomes[k % size] == history[k]
    }

    constructor (size: nat)
      requires size > 0
      ensures Valid() && fresh(outcomes) && this.size == size && history == []
    {
      this.size := size;
      outcomes := new bool[size](_ => false);
      next, filled, failures := 0, 0, 0;
      history := [];
    }

    method Record(success: bool)
      requires Valid()
      modifies this, outcomes
      ensures Valid()
      ensures history == old(history) + [!success]
    {
      ghost var was := history;
      RetainedFailuresStep(was, !success, size);
      if filled == size {
        OldestSlot();
      }
      if filled == size && outcomes[next] {
        failures := failures - 1;
      }
      var failure := !success;
      outcomes[next] := failure;
      if failure {
        failures := failures + 1;
      }
      ModSuccessor(|was|, size);
      next := (next + 1) % size;
      if filled < size {
        filled := filled + 1;
      }
      history := was + [failure];
      forall k | |history| - filled <= k < |history|
        ensures outcomes[k % size] == history[k]
      {
        if k < |was| {
          OnePerSlot(k, |was|, size);
          assert |was| - old(filled) <= k;
        }
      }
    }

    /** In a full ring the slot about to be written holds the oldest retained outcome. */
    lemma OldestSlot()
      requires Valid() && filled == size
      ensures outcomes[next] == history[|history| - size]
    {
      var k := |history| - size;
      var q, r := k / size, k % size;
      assert |history| == (q + 1) * size + r;
      LapsAway(r, q + 1, size);
      assert next == k % size;
    }

    method Stats() returns (calls: nat, failed: nat)
      requires Valid()
      ensures calls == |LastN(history, size)|
      ensures failed == RetainedFailures(history, size)
      ensures failed <= calls
    {
      calls, failed := filled, failures;
    }

    method Reset()
      requires Valid()
      modifies this, outcomes
      ensures Valid() && history == []
    {
      for i := 0 to size
        modifies outcomes
      {
        outcomes[i] := false;
      }
      next, filled, failures := 0, 0, 0;
      history := [];
    }
  }
}
