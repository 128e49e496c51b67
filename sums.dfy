/** Sums over the values of a map and over the entries of a sequence. */
module Sums {

  /** The value stored under `k`, or 0 when `k` has no entry (Python's `d.get(k, 0)`). */
  function Get<K>(m: map<K, nat>, k: K): nat
  {
    if k in m then m[k] else 0
  }

  /** `m` with `v` added to the value under `k` (`m[k] = m.get(k, 0) + v`). */
  function Add<K>(m: map<K, nat>, k: K, v: nat): map<K, nat>
  {
    m[k := Get(m, k) + v]
  }

  /** The sum of all values of `m`. */
  ghost function MapSum<K>(m: map<K, nat>): nat
    decreases |m|
  {
    if m == map[] then 0
    else
      var k :| k in m;
      assert |m - {k}| < |m| by { assert (m - {k}).Keys == m.Keys - {k}; }
      m[k] + MapSum(m - {k})
  }

  /** Any entry may be taken out first. */
  lemma {:induction false} MapSumRemove<K>(m: map<K, nat>, k: K)
    requires k in m
    ensures MapSum(m) == m[k] + MapSum(m - {k})
    decreases |m|
  {
    var j :| j in m && MapSum(m) == m[j] + MapSum(m - {j});
    if j != k {
      assert (m - {j}).Keys == m.Keys - {j};
      assert (m - {k}).Keys == m.Keys - {k};
      MapSumRemove(m - {j}, k);
      MapSumRemove(m - {k}, j);
      assert m - {j} - {k} == m - {k} - {j};
    }
  }

  /** Overwriting (or inserting) the entry under `k` changes the sum by the difference. */
  lemma MapSumUpdate<K>(m: map<K, nat>, k: K, v: nat)
    ensures MapSum(m[k := v]) + Get(m, k) == MapSum(m) + v
  {
    MapSumRemove(m[k := v], k);
    assert m[k := v] - {k} == m - {k};
    if k in m {
      MapSumRemove(m, k);
    } else {
      assert m - {k} == m;
    }
  }

  /** Adding `v` under one key adds `v` to the sum. */
  lemma MapSumAdd<K>(m: map<K, nat>, k: K, v: nat)
    ensures MapSum(Add(m, k, v)) == MapSum(m) + v
  {
    MapSumUpdate(m, k, Get(m, k) + v);
  }

  /** The sum of the entries of a sequence. */
  function SeqSum(s: seq<nat>): nat
  {
    if s == [] then 0 else SeqSum(s[..|s| - 1]) + s[|s| - 1]
  }

  /** Overwriting entry `i` changes the sum by the difference. */
  lemma {:induction false} SeqSumUpdate(s: seq<nat>, i: nat, v: nat)
    requires i < |s|
    ensures SeqSum(s[i := v]) + s[i] == SeqSum(s) + v
  {
    var t := s[i := v];
    assert t[..|t| - 1] == if i == |s| - 1 then s[..|s| - 1] else s[..|s| - 1][i := v];
    if i < |s| - 1 {
      SeqSumUpdate(s[..|s| - 1], i, v);
    }
  }

  /** A sequence of zeros sums to zero. */
  lemma {:induction false} SeqSumZeros(n: nat)
    ensures SeqSum(seq(n, _ => 0)) == 0
  {
    if n > 0 {
      assert seq(n, _ => 0)[..n - 1] == seq(n - 1, _ => 0);
      SeqSumZeros(n - 1);
    }
  }
}
