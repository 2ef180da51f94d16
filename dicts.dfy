/**
 * Insertion-ordered dictionaries with string keys, as Python's dict behaves:
 * assigning an existing key keeps its position, a new key goes to the end,
 * deleting a key closes the gap, popitem takes the last pair, and two dicts
 * are equal when they map the same keys to the same values, whatever the order.
 */
module Dicts {
  import opened Wrappers

  type Items<V> = seq<(string, V)>

  function Keys<V>(d: Items<V>): (ks: seq<string>)
    ensures |ks| == |d| && forall i :: 0 <= i < |d| ==> ks[i] == d[i].0
  {
    seq(|d|, i requires 0 <= i < |d| => d[i].0)
  }

  predicate DistinctKeys<V>(d: Items<V>)
  {
    forall i, j :: 0 <= i < j < |d| ==> d[i].0 != d[j].0
  }

  /** The position of the first pair with key `k`. */
  function IndexOf<V>(d: Items<V>, k: string): (r: Option<nat>)
    ensures r.Some? ==> r.value < |d| && d[r.value].0 == k && forall i :: 0 <= i < r.value ==> d[i].0 != k
    ensures r.None? ==> forall i :: 0 <= i < |d| ==> d[i].0 != k
  {
    if d == [] then None
    else if d[0].0 == k then Some(0)
    else match IndexOf(d[1..], k)
      case None => None
      case Some(i) => Some(i + 1)
  }

  predicate HasKey<V>(d: Items<V>, k: string)
  {
    IndexOf(d, k).Some?
  }

  /** d.get(k): the value stored under `k`, if any. */
  function Get<V>(d: Items<V>, k: string): Option<V>
  {
    match IndexOf(d, k)
    case None => None
    case Some(i) => Some(d[i].1)
  }

  /** d[k] = v. */
  function Set<V>(d: Items<V>, k: string, v: V): Items<V>
  {
    match IndexOf(d, k)
    case None => d + [(k, v)]
    case Some(i) => d[i := (k, v)]
  }

  /** del d[k] (nothing when the key is absent). */
  function Remove<V>(d: Items<V>, k: string): Items<V>
  {
    match IndexOf(d, k)
    case None => d
    case Some(i) => d[..i] + d[i + 1..]
  }

  /** d.update(e): the pairs of `e` assigned in order. */
  function UpdateAll<V>(d: Items<V>, e: Items<V>): Items<V>
    decreases |e|
  {
    if e == [] then d else UpdateAll(Set(d, e[0].0, e[0].1), e[1..])
  }

  /** The mapping a dict stands for; a later pair overrides an earlier one. */
  function ToMap<V>(d: Items<V>): map<string, V>
  {
    if d == [] then map[] else ToMap(d[..|d| - 1])[d[|d| - 1].0 := d[|d| - 1].1]
  }

  // ----- lemmas -----

  lemma IndexOfDistinct<V>(d: Items<V>, i: nat)
    requires DistinctKeys(d) && i < |d|
    ensures IndexOf(d, d[i].0) == Some(i)
  {
  }

  /** Assignment keeps the keys distinct, keeps positions and appends a new key at the end. */
  lemma SetKeys<V>(d: Items<V>, k: string, v: V)
    requires DistinctKeys(d)
    ensures DistinctKeys(Set(d, k, v))
    ensures Keys(Set(d, k, v)) == if HasKey(d, k) then Keys(d) else Keys(d) + [k]
  {
    var r := Set(d, k, v);
    if HasKey(d, k) {
      assert Keys(r) == Keys(d);
    } else {
      assert Keys(r) == Keys(d) + [k];
    }
  }

  /** Reading after an assignment. */
  lemma GetSet<V>(d: Items<V>, k: string, v: V, k': string)
    requires DistinctKeys(d)
    ensures Get(Set(d, k, v), k') == if k' == k then Some(v) else Get(d, k')
  {
    SetKeys(d, k, v);
    var r := Set(d, k, v);
    if k' == k {
      match IndexOf(d, k)
      case None =>
        assert r[|d|] == (k, v);
        IndexOfDistinct(r, |d|);
      case Some(i) =>
        IndexOfDistinct(r, i);
    } else {
      match IndexOf(d, k')
      case None =>
      case Some(j) =>
        IndexOfDistinct(r, j);
    }
  }

  /** Deleting keeps the remaining keys distinct and in order. */
  lemma RemoveKeys<V>(d: Items<V>, k: string)
    requires DistinctKeys(d)
    ensures DistinctKeys(Remove(d, k))
    ensures !HasKey(Remove(d, k), k)
    ensures |Remove(d, k)| == if HasKey(d, k) then |d| - 1 else |d|
    ensures forall i :: 0 <= i < |Remove(d, k)| ==> Remove(d, k)[i] in d
  {
    var r := Remove(d, k);
    match IndexOf(d, k)
    case None =>
    case Some(i) =>
      forall j | 0 <= j < |r|
        ensures r[j].0 != k && r[j] in d
      {
        if j < i {
          assert r[j] == d[j];
        } else {
          assert r[j] == d[j + 1];
        }
      }
  }

  /** Reading after a deletion. */
  lemma GetRemove<V>(d: Items<V>, k: string, k': string)
    requires DistinctKeys(d)
    ensures Get(Remove(d, k), k') == if k' == k then None else Get(d, k')
  {
    RemoveKeys(d, k);
    var r := Remove(d, k);
    match IndexOf(d, k)
    case None =>
    case Some(i) =>
      assert forall j :: 0 <= j < |r| ==> r[j] == (if j < i then d[j] else d[j + 1]);
      if k' != k {
        match IndexOf(d, k')
        case None =>
          assert forall j :: 0 <= j < |r| ==> r[j].0 != k';
        case Some(j) =>
          if j < i {
            IndexOfDistinct(r, j);
          } else {
            assert r[j - 1] == d[j];
            IndexOfDistinct(r, j - 1);
          }
      }
  }

  /** The mapping of a dict with distinct keys is what Get reads. */
  lemma {:induction false} ToMapGet<V>(d: Items<V>, k: string)
    requires DistinctKeys(d)
    ensures k in ToMap(d) <==> HasKey(d, k)
    ensures k in ToMap(d) ==> Get(d, k) == Some(ToMap(d)[k])
  {
    if d != [] {
      var d' := d[..|d| - 1];
      assert DistinctKeys(d');
      ToMapGet(d', k);
      var last := d[|d| - 1];
      if k == last.0 {
        IndexOfDistinct(d, |d| - 1);
      } else {
        match IndexOf(d', k)
        case None =>
          assert forall j :: 0 <= j < |d| - 1 ==> d[j] == d'[j];
        case Some(i) =>
          assert d[i] == d'[i];
          IndexOfDistinct(d, i);
      }
    }
  }

  /** Two dicts with distinct keys stand for the same mapping exactly when every key reads alike. */
  lemma ToMapEqual<V>(d: Items<V>, e: Items<V>)
    requires DistinctKeys(d) && DistinctKeys(e)
    ensures ToMap(d) == ToMap(e) <==> forall k :: Get(d, k) == Get(e, k)
  {
    if ToMap(d) == ToMap(e) {
      forall k
        ensures Get(d, k) == Get(e, k)
      {
        ToMapGet(d, k);
        ToMapGet(e, k);
      }
    }
    if forall k :: Get(d, k) == Get(e, k) {
      ToMapAgree(d, e);
    }
  }

  lemma ToMapAgree<V>(d: Items<V>, e: Items<V>)
    requires DistinctKeys(d) && DistinctKeys(e)
    requires forall k :: Get(d, k) == Get(e, k)
    ensures ToMap(d) == ToMap(e)
  {
    forall k
      ensures (k in ToMap(d) <==> k in ToMap(e)) && (k in ToMap(d) ==> ToMap(d)[k] == ToMap(e)[k])
    {
      ToMapGet(d, k);
      ToMapGet(e, k);
    }
    assert ToMap(d).Keys == ToMap(e).Keys;
  }

  /** update() keeps keys distinct; a key of `e` reads as in `e`, any other as before. */
  lemma {:induction false} GetUpdateAll<V>(d: Items<V>, e: Items<V>, k: string)
    requires DistinctKeys(d) && DistinctKeys(e)
    ensures DistinctKeys(UpdateAll(d, e))
    ensures Get(UpdateAll(d, e), k) == if HasKey(e, k) then Get(e, k) else Get(d, k)
    decreases |e|
  {
    if e != [] {
      var d' := Set(d, e[0].0, e[0].1);
      SetKeys(d, e[0].0, e[0].1);
      assert DistinctKeys(e[1..]);
      GetUpdateAll(d', e[1..], k);
      GetSet(d, e[0].0, e[0].1, k);
      if k != e[0].0 {
        match IndexOf(e[1..], k)
        case None =>
        case Some(i) =>
          IndexOfDistinct(e, i + 1);
      } else {
        assert forall i :: 0 <= i < |e| - 1 ==> e[1..][i].0 == e[i + 1].0 != e[0].0;
      }
    }
  }

  /** update() appends the keys it does not already have, in the order `e` gives them. */
  lemma {:induction false} UpdateAllKeysPrefix<V>(d: Items<V>, e: Items<V>)
    requires DistinctKeys(d)
    ensures |UpdateAll(d, e)| >= |d|
    ensures Keys(UpdateAll(d, e))[..|d|] == Keys(d)
    decreases |e|
  {
    if e != [] {
      var d' := Set(d, e[0].0, e[0].1);
      SetKeys(d, e[0].0, e[0].1);
      UpdateAllKeysPrefix(d', e[1..]);
      assert Keys(d')[..|d|] == Keys(d);
    }
  }
}
