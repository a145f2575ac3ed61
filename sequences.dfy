/** Small sequence helpers with the semantics of the Python operations the
    scoring engine is written with: clamped slicing, reversal, repetition. */
module Sequences {

  datatype Option<T> = None | Some(value: T)

  function Max(a: int, b: int): int { if a < b then b else a }

  function Abs(x: int): nat { if x < 0 then -x else x }

  /** A Python slice bound: negative values count from the end, and the
      result is clamped to [0, n]. */
  function Clamp(k: int, n: nat): (r: nat)
    ensures r <= n
    ensures 0 <= k <= n ==> r == k
  {
    if k < 0 then (if k + n < 0 then 0 else k + n) else if k > n then n else k
  }

  /** Python's s[i:j]. */
  function Slice<T>(s: seq<T>, i: int, j: int): (r: seq<T>)
    ensures |r| <= |s|
    ensures 0 <= i <= j <= |s| ==> r == s[i..j]
  {
    var lo, hi := Clamp(i, |s|), Clamp(j, |s|);
    if lo < hi then s[lo..hi] else []
  }

  /** s[::-1] */
  function Reverse<T>(s: seq<T>): (r: seq<T>)
    ensures |r| == |s|
    ensures forall i :: 0 <= i < |s| ==> r[i] == s[|s| - 1 - i]
  {
    seq(|s|, i requires 0 <= i < |s| => s[|s| - 1 - i])
  }

  /** x * n for a one-element list or string. */
  function Repeat<T>(x: T, n: nat): (r: seq<T>)
    ensures |r| == n
    ensures forall i :: 0 <= i < n ==> r[i] == x
  {
    seq(n, _ => x)
  }

  /** Cutting a list at any non-negative point and joining the two halves
      gives the list back, also past its end. */
  lemma SliceSplit<T>(s: seq<T>, x: int)
    requires x >= 0
    ensures Slice(s, 0, x) + Slice(s, x, |s|) == s
  {
    if x <= |s| {
      assert s[..x] + s[x..] == s;
    }
  }
}
