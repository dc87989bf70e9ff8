// Remainders as ring positions: within one lap a slot belongs to one number.
module Modular {

  /** A multiple of size strictly between -size and size is zero. */
  lemma SmallLaps(laps: int, size: int)
    requires size > 0
    ensures -size < laps * size < size ==> laps == 0
  {
    if laps >= 1 {
      assert laps * size >= size;
    } else if laps <= -1 {
      assert laps * size <= -size;
    }
  }

  lemma LapsAway(r: int, laps: int, size: int)
    requires 0 <= r < size
    ensures (laps * size + r) % size == r
  {
    var n := laps * size + r;
    var d := n / size - laps;
    assert d * size == (n / size) * size - laps * size;
    SmallLaps(d, size);
  }

  lemma AddLap(a: int, size: int)
    requires size > 0
    ensures (a + size) % size == a % size
  {
    assert a + size == (a / size + 1) * size + a % size;
    LapsAway(a % size, a / size + 1, size);
  }

  lemma OnePerSlot(a: int, b: int, size: int)
    requires size > 0 && a - size < b < a + size
    ensures a % size == b % size ==> a == b
  {
    var laps := a / size - b / size;
    assert laps * size == (a / size) * size - (b / size) * size;
    SmallLaps(laps, size);
  }

  lemma ModSuccessor(a: nat, size: nat)
    requires size > 0
    ensures (a + 1) % size == (a % size + 1) % size
  {
    var q, r := a / size, a % size;
    if r + 1 < size {
      NextOf(a, q, r + 1, size);
      NextOf(r, 0, r + 1, size);
    } else {
      NextOf(a, q + 1, 0, size);
      NextOf(r, 1, 0, size);
    }
  }

  lemma NextOf(a: int, laps: int, r: int, size: int)
    requires 0 <= r < size && a + 1 == laps * size + r
    ensures (a + 1) % size == r
  {
    LapsAway(r, laps, size);
  }
}
