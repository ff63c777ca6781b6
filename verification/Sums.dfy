/** Finite sums over maps, and purses: maps from keys to positive amounts. */
module Sums {
  ghost function Pick<K>(m: map<K, nat>): (k: K)
    requires m != map[]
    ensures k in m
  {
    var k :| k in m;
    k
  }

  /** The sum of all values of a map. */
  ghost function Sum<K>(m: map<K, nat>): nat
    decreases m.Keys
  {
    if m == map[] then 0 else m[Pick(m)] + Sum(m - {Pick(m)})
  }

  lemma {:induction false} SumRemove<K>(m: map<K, nat>, k: K)
    requires k in m
    ensures Sum(m) == m[k] + Sum(m - {k})
    decreases m.Keys
  {
    var c := Pick(m);
    if c != k {
      SumRemove(m - {c}, k);
      SumRemove(m - {k}, c);
      assert m - {c} - {k} == m - {k} - {c};
    }
  }

  lemma SumPut<K>(m: map<K, nat>, k: K, v: nat)
    ensures Sum(m[k := v]) == v + Sum(m - {k})
    ensures k !in m ==> Sum(m[k := v]) == v + Sum(m)
    ensures k in m ==> Sum(m[k := v]) + m[k] == v + Sum(m)
  {
    SumRemove(m[k := v], k);
    assert m[k := v] - {k} == m - {k};
    if k in m {
      SumRemove(m, k);
    } else {
      assert m - {k} == m;
    }
  }

  lemma {:induction false} SumSplit<K>(m: map<K, nat>, a: map<K, nat>, b: map<K, nat>)
    requires a.Keys !! b.Keys && m == a + b
    ensures Sum(m) == Sum(a) + Sum(b)
    decreases a.Keys
  {
    if a == map[] {
      assert m == b;
    } else {
      var k := Pick(a);
      SumRemove(m, k);
      SumRemove(a, k);
      assert m - {k} == (a - {k}) + b;
      SumSplit(m - {k}, a - {k}, b);
    }
  }

  /** An amount per key. Absent means nothing; a zero amount is never stored, so that two purses
      with the same amounts are the same purse. */
  type Purse<!K> = m: map<K, nat> | forall k :: k in m ==> m[k] > 0

  function Get<K>(m: Purse<K>, k: K): nat {
    if k in m then m[k] else 0
  }

  function Add<K(!new)>(m: Purse<K>, k: K, n: nat): (r: Purse<K>)
    ensures forall j :: Get(r, j) == Get(m, j) + if j == k then n else 0
  {
    if Get(m, k) + n == 0 then m else m[k := Get(m, k) + n]
  }

  function Sub<K(!new)>(m: Purse<K>, k: K, n: nat): (r: Purse<K>)
    requires n <= Get(m, k)
    ensures forall j :: Get(r, j) == Get(m, j) - if j == k then n else 0
  {
    if Get(m, k) == n then m - {k} else m[k := Get(m, k) - n]
  }

  lemma SamePurse<K(!new)>(a: Purse<K>, b: Purse<K>)
    requires forall k :: Get(a, k) == Get(b, k)
    ensures a == b
  {
    forall k ensures k in a <==> k in b {
      assert Get(a, k) == Get(b, k);
    }
    forall k | k in a ensures a[k] == b[k] {
      assert Get(a, k) == Get(b, k);
    }
  }
}
