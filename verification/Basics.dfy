// Vocabulary shared by the models: optional values, suffixes of a history, and
// counting the threads of an interleaved protocol that stand at a program point.
module Basics {

  datatype Option<+T> = None | Some(value: T)

  function Min(a: int, b: int): int {
    if a <= b then a else b
  }

  function Max(a: int, b: int): int {
    if a >= b then a else b
  }

  /** The last n elements of s, or all of s when it is shorter. */
  function LastN<T>(s: seq<T>, n: nat): (r: seq<T>)
    ensures |r| == Min(|s|, n)
  {
    s[|s| - Min(|s|, n)..]
  }

  /** How many elements of s are true. */
  function CountTrue(s: seq<bool>): (r: nat)
    ensures r <= |s|
  {
    if s == [] then 0 else CountTrue(s[..|s| - 1]) + (if s[|s| - 1] then 1 else 0)
  }

  lemma {:induction false} CountTrueConcat(a: seq<bool>, b: seq<bool>)
    ensures CountTrue(a + b) == CountTrue(a) + CountTrue(b)
  {
    if b == [] {
      assert a + b == a;
    } else {
      assert (a + b)[..|a + b| - 1] == a + b[..|b| - 1];
      CountTrueConcat(a, b[..|b| - 1]);
    }
  }

  lemma {:induction false} CountTrueAll(s: seq<bool>)
    requires forall i :: 0 <= i < |s| ==> s[i]
    ensures CountTrue(s) == |s|
  {
    if s != [] {
      CountTrueAll(s[..|s| - 1]);
    }
  }

  /** The threads of m that satisfy p. */
  function Where<K, T>(m: map<K, T>, p: T -> bool): set<K> {
    set k | k in m && p(m[k])
  }

  function Tally<K, T>(m: map<K, T>, p: T -> bool): nat {
    |Where(m, p)|
  }

  /** A set that differs from another at most in k. */
  lemma SizeDiffers<K>(s: set<K>, t: set<K>, k: K)
    requires forall x :: x != k ==> (x in s <==> x in t)
    ensures |t| == |s| - (if k in s then 1 else 0) + (if k in t then 1 else 0)
  {
    assert s - {k} == t - {k};
    assert |s| == |s - {k}| + (if k in s then 1 else 0);
    assert |t| == |t - {k}| + (if k in t then 1 else 0);
  }

  /** Moving one thread changes a tally by what that thread contributes before and after. */
  lemma TallyUpdate<K, T>(m: map<K, T>, k: K, v: T, p: T -> bool)
    ensures Tally(m[k := v], p) ==
            Tally(m, p) - (if k in m && p(m[k]) then 1 else 0) + (if p(v) then 1 else 0)
  {
    SizeDiffers(Where(m, p), Where(m[k := v], p), k);
  }

  lemma TallyZero<K, T>(m: map<K, T>, p: T -> bool)
    ensures Tally(m, p) == 0 <==> forall k :: k in m ==> !p(m[k])
  {
    if Tally(m, p) == 0 {
      assert Where(m, p) == {};
      forall k | k in m
        ensures !p(m[k])
      {
        assert k !in Where(m, p);
      }
    }
    if forall k :: k in m ==> !p(m[k]) {
      assert Where(m, p) == {};
    }
  }
}
