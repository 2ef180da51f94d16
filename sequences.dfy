/**
 * Python's sequence slicing and the leftmost-match search that regular
 * expression scans perform, on Dafny sequences.
 */
module Sequences {
  import opened Wrappers

  /** A slice bound as Python normalises it: negative counts from the end, then clipped to [0, n]. */
  function Clip(i: int, n: nat): (r: nat)
    ensures r <= n
    ensures 0 <= i <= n ==> r == i
  {
    if i < 0 then (if i + n < 0 then 0 else i + n)
    else if i > n then n
    else i
  }

  /** s[a:b] in Python: never fails, empty when the bounds cross. */
  function Slice<T>(s: seq<T>, a: int, b: int): (r: seq<T>)
    ensures |r| <= |s|
    ensures 0 <= a <= b <= |s| ==> r == s[a..b]
  {
    var i := Clip(a, |s|);
    var j := Clip(b, |s|);
    if i <= j then s[i..j] else []
  }

  /** A stop past the end reads to the end. */
  lemma SliceToEnd<T>(s: seq<T>, a: nat, b: int)
    requires a <= |s| <= b
    ensures Slice(s, a, b) == s[a..]
  {
  }

  /** A start past the end, or a stop at or before a non-negative start, gives nothing. */
  lemma SliceEmpty<T>(s: seq<T>, a: int, b: int)
    requires 0 <= b <= a || a >= |s|
    ensures Slice(s, a, b) == []
  {
  }

  /**
   * The leftmost position in [lo, hi] where `P` holds: where a
   * regular-expression search that tries each position in turn first
   * succeeds.
   */
  function First(P: int -> bool, lo: int, hi: int): (r: Option<int>)
    ensures r.Some? ==> lo <= r.value <= hi && P(r.value)
    ensures r.Some? ==> forall p :: lo <= p < r.value ==> !P(p)
    ensures r.None? ==> forall p :: lo <= p <= hi ==> !P(p)
    decreases hi - lo
  {
    if lo > hi then None
    else if P(lo) then Some(lo)
    else First(P, lo + 1, hi)
  }

  /** The search finds `k` when `P` holds there and nowhere before it. */
  lemma FirstIs(P: int -> bool, lo: int, hi: int, k: int)
    requires lo <= k <= hi && P(k)
    requires forall p :: lo <= p < k ==> !P(p)
    ensures First(P, lo, hi) == Some(k)
  {
  }
}
