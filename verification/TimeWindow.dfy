// circuitbreaker/window.go: the time-based sliding window, a ring of one-second
// buckets reused modulo its size, against the plain history of outcomes.
module TimeWindows {
  import opened Basics
  import opened Modular

  datatype Outcome = Outcome(success: bool, second: int)

  datatype TimeBucket = TimeBucket(epoch: int, calls: nat, failures: nat)

  // ----- The history side -----

  /** The outcomes of h recorded in the seconds lo..hi; with failed set, only the failures. */
  function Recorded(h: seq<Outcome>, lo: int, hi: int, failed: bool): nat {
    if h == [] then 0 else
      Recorded(h[..|h| - 1], lo, hi, failed) + Contribution(h[|h| - 1], lo, hi, failed)
  }

  function Contribution(o: Outcome, lo: int, hi: int, failed: bool): nat {
    if lo <= o.second <= hi && (failed ==> !o.success) then 1 else 0
  }

  /** The wall clock never stepped back between two records. */
  predicate NonDecreasing(h: seq<Outcome>) {
    forall i, j :: 0 <= i < j < |h| ==> h[i].second <= h[j].second
  }

  predicate RecordedBy(h: seq<Outcome>, second: int) {
    forall i :: 0 <= i < |h| ==> h[i].second <= second
  }

  /** Go's remainder truncates toward zero. */
  function GoRemainder(a: int, b: int): int
    requires b > 0
  {
    if a >= 0 then a % b else -((-a) % b)
  }

  function Slot(epoch: int, size: int): int
    requires size > 0
  {
    GoRemainder(GoRemainder(epoch, size) + size, size)
  }

  /** The double remainder of bucketFor is the mathematical one, also before 1970. */
  lemma SlotIsModulo(epoch: int, size: int)
    requires size > 0
    ensures Slot(epoch, size) == epoch % size
    ensures 0 <= Slot(epoch, size) < size
  {
    if epoch >= 0 {
      AddLap(epoch % size, size);
      LapsAway(epoch % size, 0, size);
    } else {
      NegativeRemainder(-epoch, size);
    }
  }

  lemma NegativeRemainder(n: int, size: int)
    requires size > 0 && n >= 0
    ensures 0 <= size - n % size
    ensures (size - n % size) % size == (-n) % size
  {
    var laps, r := n / size, n % size;
    assert -n == (-laps) * size + (-r);
    assert -n == (-laps - 1) * size + (size - r);
    if r == 0 {
      LapsAway(0, -laps, size);
      LapsAway(0, 1, size);
    } else {
      LapsAway(size - r, -laps - 1, size);
      LapsAway(size - r, 0, size);
    }
  }

  // ----- The ring side -----

  function EmptyRing(size: nat): seq<TimeBucket> {
    seq(size, _ => TimeBucket(0, 0, 0))
  }

  function Fill(b: TimeBucket, o: Outcome): TimeBucket {
    var cleared := if b.epoch != o.second then TimeBucket(o.second, 0, 0) else b;
    TimeBucket(cleared.epoch, cleared.calls + 1, cleared.failures + (if o.success then 0 else 1))
  }

  /** The ring after recording h from empty. */
  function RingOf(h: seq<Outcome>, size: nat): (ring: seq<TimeBucket>)
    requires size > 0
    ensures |ring| == size
  {
    if h == [] then EmptyRing(size) else
      var ring := RingOf(h[..|h| - 1], size);
      var o := h[|h| - 1];
      ring[o.second % size := Fill(ring[o.second % size], o)]
  }

  /** What stats adds up over the first n buckets. */
  function RingSum(ring: seq<TimeBucket>, lo: int, hi: int, n: nat, failed: bool): nat
    requires n <= |ring|
  {
    if n == 0 then 0 else
      var b := ring[n - 1];
      RingSum(ring, lo, hi, n - 1, failed)
      + (if b.calls == 0 || b.epoch < lo || b.epoch > hi then 0 else if failed then b.failures else b.calls)
  }

  /** What a time window of size seconds reports at second now for the recorded outcomes. */
  function WindowStats(h: seq<Outcome>, size: nat, now: int): (r: (nat, nat))
    requires size > 0
  {
    var ring := RingOf(h, size);
    (RingSum(ring, now - size + 1, now, size, false), RingSum(ring, now - size + 1, now, size, true))
  }

  // ----- Refinement -----

  /** A used bucket sits in its slot. */
  predicate InItsSlot(b: TimeBucket, slot: nat, size: nat)
    requires size > 0
  {
    b.failures <= b.calls && (b.calls > 0 ==> b.epoch % size == slot)
  }

  /** What a bucket reports for one second. */
  function Share(b: TimeBucket, epoch: int, failed: bool): nat {
    if b.calls == 0 || b.epoch != epoch then 0 else if failed then b.failures else b.calls
  }

  /** Once the second epoch was recorded, its bucket was never taken over by another lap. */
  ghost predicate Kept(h: seq<Outcome>, size: nat, epoch: int)
    requires size > 0
  {
    forall i, j :: 0 <= i < j < |h| && h[i].second == epoch && h[j].second % size == epoch % size ==>
      h[j].second == epoch
  }

  /** No outcome still inside the window lost its bucket to another lap. */
  ghost predicate NothingLost(h: seq<Outcome>, size: nat, now: int)
    requires size > 0
  {
    forall i, j :: 0 <= i < j < |h| && now - size < h[i].second <= now
                   && h[j].second % size == h[i].second % size ==>
      h[j].second == h[i].second
  }

  /** A clock that does not step back loses nothing. */
  lemma SteadyClockLosesNothing(h: seq<Outcome>, size: nat, now: int)
    requires size > 0 && NonDecreasing(h) && RecordedBy(h, now)
    ensures NothingLost(h, size, now)
  {
    forall i, j | 0 <= i < j < |h| && now - size < h[i].second <= now && h[j].second % size == h[i].second % size
      ensures h[j].second == h[i].second
    {
      OnePerSlot(h[i].second, h[j].second, size);
    }
  }

  lemma {:induction false} RecordedIsSomewhere(h: seq<Outcome>, epoch: int, i: nat)
    requires i < |h| && h[i].second == epoch
    ensures Recorded(h, epoch, epoch, false) > 0
  {
    if i < |h| - 1 {
      RecordedIsSomewhere(h[..|h| - 1], epoch, i);
    }
  }

  lemma {:induction false} NothingRecorded(h: seq<Outcome>, epoch: int, failed: bool)
    requires forall i :: 0 <= i < |h| ==> h[i].second != epoch
    ensures Recorded(h, epoch, epoch, failed) == 0
  {
    if h != [] {
      NothingRecorded(h[..|h| - 1], epoch, failed);
    }
  }

  lemma RingSnoc(was: seq<Outcome>, o: Outcome, size: nat)
    requires size > 0
    ensures RingOf(was + [o], size)
            == RingOf(was, size)[o.second % size := Fill(RingOf(was, size)[o.second % size], o)]
  {
    assert (was + [o])[..|was|] == was;
  }

  lemma {:induction false} BucketsStayInTheirSlots(h: seq<Outcome>, size: nat)
    requires size > 0
    ensures forall k :: 0 <= k < size ==> InItsSlot(RingOf(h, size)[k], k, size)
  {
    if h != [] {
      BucketsStayInTheirSlots(h[..|h| - 1], size);
    }
  }

  /** Another lap takes the bucket over: it then reports nothing for epoch. */
  lemma Takeover(was: seq<Outcome>, o: Outcome, size: nat, epoch: int)
    requires size > 0 && o.second % size == epoch % size && o.second != epoch
    ensures Kept(was + [o], size, epoch) <==> Recorded(was, epoch, epoch, false) == 0
    ensures Kept(was + [o], size, epoch) ==> Recorded(was, epoch, epoch, true) == 0
  {
    var h := was + [o];
    if i :| 0 <= i < |was| && was[i].second == epoch {
      RecordedIsSomewhere(was, epoch, i);
      assert h[i].second == epoch && h[|was|].second == o.second;
    } else {
      NothingRecorded(was, epoch, false);
      NothingRecorded(was, epoch, true);
    }
  }

  lemma KeptSnoc(was: seq<Outcome>, o: Outcome, size: nat, epoch: int)
    requires size > 0 && (o.second % size == epoch % size ==> o.second == epoch)
    ensures Kept(was + [o], size, epoch) <==> Kept(was, size, epoch)
  {
    var h := was + [o];
    if Kept(h, size, epoch) {
      forall i, j | 0 <= i < j < |was| && was[i].second == epoch && was[j].second % size == epoch % size
        ensures was[j].second == epoch
      {
        assert h[i] == was[i] && h[j] == was[j];
      }
    }
  }

  /** Reported calls and failures never exceed the recorded ones; they are all there, the calls
      exactly then, when everything was kept. */
  predicate Faithful(calls: nat, recordedCalls: nat, failures: nat, recordedFailures: nat, kept: bool) {
    && calls <= recordedCalls
    && failures <= recordedFailures
    && (calls == recordedCalls <==> kept)
    && (kept ==> failures == recordedFailures)
  }

  /** A bucket never reports more of a second than was recorded, and reports all of it exactly
      when no other lap took the bucket over since. */
  lemma {:induction false} BucketIsExact(h: seq<Outcome>, size: nat, epoch: int)
    requires size > 0
    ensures var b := RingOf(h, size)[epoch % size];
            Faithful(Share(b, epoch, false), Recorded(h, epoch, epoch, false),
                     Share(b, epoch, true), Recorded(h, epoch, epoch, true), Kept(h, size, epoch))
  {
    if h != [] {
      var was, o := h[..|h| - 1], h[|h| - 1];
      assert h == was + [o];
      BucketIsExact(was, size, epoch);
      RingSnoc(was, o, size);
      BucketsStayInTheirSlots(was, size);
      assert InItsSlot(RingOf(was, size)[epoch % size], epoch % size, size);
      if o.second % size == epoch % size && o.second != epoch {
        Takeover(was, o, size, epoch);
      } else {
        KeptSnoc(was, o, size, epoch);
      }
    }
  }

  /** The history split by ring slot: outcomes in lo..hi whose second falls in a slot below n. */
  function RecordedInSlots(h: seq<Outcome>, lo: int, hi: int, size: nat, n: nat, failed: bool): nat
    requires size > 0
  {
    if h == [] then 0 else
      RecordedInSlots(h[..|h| - 1], lo, hi, size, n, failed)
      + (if h[|h| - 1].second % size < n then Contribution(h[|h| - 1], lo, hi, failed) else 0)
  }

  lemma {:induction false} AllSlots(h: seq<Outcome>, lo: int, hi: int, size: nat, failed: bool)
    requires size > 0
    ensures RecordedInSlots(h, lo, hi, size, 0, failed) == 0
    ensures RecordedInSlots(h, lo, hi, size, size, failed) == Recorded(h, lo, hi, failed)
  {
    if h != [] {
      AllSlots(h[..|h| - 1], lo, hi, size, failed);
    }
  }

  /** Slot n contributes exactly its one second of the lap that ends at hi. */
  lemma {:induction false} OneMoreSlot(h: seq<Outcome>, hi: int, size: nat, n: nat, epoch: int, failed: bool)
    requires size > 0 && n < size
    requires hi - size < epoch <= hi && epoch % size == n
    ensures RecordedInSlots(h, hi - size + 1, hi, size, n + 1, failed)
            == RecordedInSlots(h, hi - size + 1, hi, size, n, failed) + Recorded(h, epoch, epoch, failed)
  {
    if h != [] {
      OneMoreSlot(h[..|h| - 1], hi, size, n, epoch, failed);
      var second := h[|h| - 1].second;
      if hi - size < second <= hi {
        OnePerSlot(epoch, second, size);
      }
    }
  }

  /** The second of slot n in the lap that ends at hi. */
  function SecondOfSlot(hi: int, size: nat, n: nat): int
    requires size > 0
  {
    hi - (hi - n) % size
  }

  lemma SecondIsInSlot(hi: int, size: nat, n: nat)
    requires n < size
    ensures hi - size < SecondOfSlot(hi, size, n) <= hi
    ensures SecondOfSlot(hi, size, n) % size == n
  {
    var laps := (hi - n) / size;
    assert SecondOfSlot(hi, size, n) == laps * size + n;
    LapsAway(n, laps, size);
  }

  /** Bucket n adds to stats exactly its share of its second in the lap. */
  lemma RingSumStep(h: seq<Outcome>, size: nat, hi: int, n: nat, failed: bool)
    requires n < size
    ensures RingSum(RingOf(h, size), hi - size + 1, hi, n + 1, failed)
            == RingSum(RingOf(h, size), hi - size + 1, hi, n, failed)
               + Share(RingOf(h, size)[n], SecondOfSlot(hi, size, n), failed)
  {
    BucketsStayInTheirSlots(h, size);
    var b := RingOf(h, size)[n];
    assert InItsSlot(b, n, size);
    SecondIsInSlot(hi, size, n);
    if b.calls > 0 && hi - size < b.epoch <= hi {
      OnePerSlot(SecondOfSlot(hi, size, n), b.epoch, size);
    }
  }

  ghost predicate KeptBelow(h: seq<Outcome>, size: nat, hi: int, n: nat)
    requires size > 0
  {
    forall k: nat :: k < n ==> Kept(h, size, SecondOfSlot(hi, size, k))
  }

  /** The first n buckets never report more than was recorded, and report all of it exactly when
      each of their seconds was kept. */
  lemma {:induction false} RingSumIsExact(h: seq<Outcome>, size: nat, hi: int, n: nat)
    requires size > 0 && n <= size
    ensures var lo := hi - size + 1;
            Faithful(RingSum(RingOf(h, size), lo, hi, n, false), RecordedInSlots(h, lo, hi, size, n, false),
                     RingSum(RingOf(h, size), lo, hi, n, true), RecordedInSlots(h, lo, hi, size, n, true),
                     KeptBelow(h, size, hi, n))
  {
    if n == 0 {
      AllSlots(h, hi - size + 1, hi, size, false);
      AllSlots(h, hi - size + 1, hi, size, true);
    } else {
      RingSumIsExact(h, size, hi, n - 1);
      OneMoreBucket(h, size, hi, n - 1);
      KeptStep(h, size, hi, n - 1);
    }
  }

  lemma OneMoreBucket(h: seq<Outcome>, size: nat, hi: int, n: nat)
    requires n < size
    ensures var lo := hi - size + 1;
            var epoch := SecondOfSlot(hi, size, n);
            forall failed ::
              && RingSum(RingOf(h, size), lo, hi, n + 1, failed)
                 == RingSum(RingOf(h, size), lo, hi, n, failed) + Share(RingOf(h, size)[n], epoch, failed)
              && RecordedInSlots(h, lo, hi, size, n + 1, failed)
                 == RecordedInSlots(h, lo, hi, size, n, failed) + Recorded(h, epoch, epoch, failed)
    ensures var epoch := SecondOfSlot(hi, size, n);
            Faithful(Share(RingOf(h, size)[n], epoch, false), Recorded(h, epoch, epoch, false),
                     Share(RingOf(h, size)[n], epoch, true), Recorded(h, epoch, epoch, true), Kept(h, size, epoch))
  {
    var epoch := SecondOfSlot(hi, size, n);
    SecondIsInSlot(hi, size, n);
    forall failed: bool
      ensures RingSum(RingOf(h, size), hi - size + 1, hi, n + 1, failed)
              == RingSum(RingOf(h, size), hi - size + 1, hi, n, failed) + Share(RingOf(h, size)[n], epoch, failed)
      ensures RecordedInSlots(h, hi - size + 1, hi, size, n + 1, failed)
              == RecordedInSlots(h, hi - size + 1, hi, size, n, failed) + Recorded(h, epoch, epoch, failed)
    {
      RingSumStep(h, size, hi, n, failed);
      OneMoreSlot(h, hi, size, n, epoch, failed);
    }
    BucketIsExact(h, size, epoch);
  }

  lemma KeptStep(h: seq<Outcome>, size: nat, hi: int, n: nat)
    requires size > 0
    ensures KeptBelow(h, size, hi, n + 1) <==> KeptBelow(h, size, hi, n) && Kept(h, size, SecondOfSlot(hi, size, n))
  {
  }

  lemma EverySecondKept(h: seq<Outcome>, size: nat, now: int)
    requires size > 0
    ensures KeptBelow(h, size, now, size) <==> NothingLost(h, size, now)
  {
    if KeptBelow(h, size, now, size) {
      forall i, j | 0 <= i < j < |h| && now - size < h[i].second <= now && h[j].second % size == h[i].second % size
        ensures h[j].second == h[i].second
      {
        var k := h[i].second % size;
        SecondIsInSlot(now, size, k);
        OnePerSlot(h[i].second, SecondOfSlot(now, size, k), size);
        assert Kept(h, size, SecondOfSlot(now, size, k));
      }
    }
    if NothingLost(h, size, now) {
      forall k: nat | k < size
        ensures Kept(h, size, SecondOfSlot(now, size, k))
      {
        SecondIsInSlot(now, size, k);
      }
    }
  }

  /** The time window refines the history of outcomes: it never reports more than was recorded
      in its last size seconds, and reports exactly that if and only if no outcome among them
      lost its bucket to another lap. */
  lemma WindowRefinesHistory(h: seq<Outcome>, size: nat, now: int)
    requires size > 0
    ensures WindowStats(h, size, now).0 <= Recorded(h, now - size + 1, now, false)
    ensures WindowStats(h, size, now).1 <= Recorded(h, now - size + 1, now, true)
    ensures WindowStats(h, size, now).0 == Recorded(h, now - size + 1, now, false) <==> NothingLost(h, size, now)
    ensures NothingLost(h, size, now) ==> WindowStats(h, size, now).1 == Recorded(h, now - size + 1, now, true)
  {
    AllSlots(h, now - size + 1, now, size, false);
    AllSlots(h, now - size + 1, now, size, true);
    RingSumIsExact(h, size, now, size);
    EverySecondKept(h, size, now);
  }

  /** A clock that steps back by a whole lap does lose an outcome still inside the window. */
  lemma StepBackLosesAnOutcome()
    ensures var h := [Outcome(false, 10), Outcome(true, 8), Outcome(true, 9)];
            Recorded(h, 9, 10, false) == 2 && WindowStats(h, 2, 10).0 == 1
  {
    var a, b, c := Outcome(false, 10), Outcome(true, 8), Outcome(true, 9);
    assert [a, b, c][..2] == [a, b] && [a, b][..1] == [a] && [a][..0] == [];
    assert RingOf([a], 2) == [TimeBucket(10, 1, 1), TimeBucket(0, 0, 0)];
    assert RingOf([a, b], 2) == [TimeBucket(8, 1, 0), TimeBucket(0, 0, 0)];
    assert RingOf([a, b, c], 2) == [TimeBucket(8, 1, 0), TimeBucket(9, 1, 0)];
    assert Recorded([a], 9, 10, false) == 1;
    assert Recorded([a, b], 9, 10, false) == 1;
  }

  class TimeWindow {
    const size: nat
    const buckets: array<TimeBucket>

    // Every outcome recorded since creation or the last Reset.
    ghost var history: seq<Outcome>

    ghost predicate Valid()
      reads this, buckets
    {
      size > 0 && buckets.Length == size && buckets[..] == RingOf(history, size)
    }

    constructor (size: nat)
      requires size > 0
      ensures Valid() && fresh(buckets) && this.size == size && history == []
    {
      this.size := size;
      buckets := new TimeBucket[size](_ => TimeBucket(0, 0, 0));
      history := [];
      new;
      assert buckets[..] == EmptyRing(size);
    }

    /** The slot owning second now, cleared first if it still holds an earlier lap. */
    method BucketFor(now: int) returns (idx: nat)
      requires size > 0 && buckets.Length == size
      modifies buckets
      ensures idx == now % size
      ensures buckets[idx] == if old(buckets[now % size]).epoch != now
                              then TimeBucket(now, 0, 0) else old(buckets[now % size])
      ensures forall k :: 0 <= k < size && k != idx ==> buckets[k] == old(buckets[k])
    {
      SlotIsModulo(now, size);
      idx := Slot(now, size);
      if buckets[idx].epoch != now {
        buckets[idx] := TimeBucket(now, 0, 0);
      }
    }

    method Record(success: bool, now: int)
      requires Valid()
      modifies this, buckets
      ensures Valid()
      ensures history == old(history) + [Outcome(success, now)]
    {
      ghost var ring := RingOf(history, size);
      RingSnoc(history, Outcome(success, now), size);
      var idx := BucketFor(now);
      var b := buckets[idx];
      b := b.(calls := b.calls + 1);
      if !success {
        b := b.(failures := b.failures + 1);
      }
      buckets[idx] := b;
      history := history + [Outcome(success, now)];
      assert buckets[..] == ring[idx := Fill(ring[idx], Outcome(success, now))];
    }

    method Stats(now: int) returns (calls: nat, failures: nat)
      requires Valid()
      ensures (calls, failures) == WindowStats(history, size, now)
      ensures calls <= Recorded(history, now - size + 1, now, false)
      ensures failures <= Recorded(history, now - size + 1, now, true)
      ensures calls == Recorded(history, now - size + 1, now, false) <==> NothingLost(history, size, now)
      ensures NonDecreasing(history) && RecordedBy(history, now) ==>
                && calls == Recorded(history, now - size + 1, now, false)
                && failures == Recorded(history, now - size + 1, now, true)
    {
      var oldest := now - size + 1;
      calls, failures := 0, 0;
      for i := 0 to size
        invariant calls == RingSum(buckets[..], oldest, now, i, false)
        invariant failures == RingSum(buckets[..], oldest, now, i, true)
      {
        var b := buckets[i];
        if b.calls == 0 || b.epoch < oldest || b.epoch > now {
          continue;
        }
        calls := calls + b.calls;
        failures := failures + b.failures;
      }
      WindowRefinesHistory(history, size, now);
      if NonDecreasing(history) && RecordedBy(history, now) {
        SteadyClockLosesNothing(history, size, now);
      }
    }

    method Reset()
      requires Valid()
      modifies this, buckets
      ensures Valid() && history == []
    {
      for i := 0 to size
        modifies buckets
        invariant forall k :: 0 <= k < i ==> buckets[k] == TimeBucket(0, 0, 0)
      {
        buckets[i] := TimeBucket(0, 0, 0);
      }
      history := [];
      assert buckets[..] == EmptyRing(size);
    }
  }
}
