/** The order in which a collection of the key-value store is walked: ascending by key. */
module Walks {
  import opened Words

  ghost predicate StrictOrder<K(!new)>(less: (K, K) -> bool) {
    && (forall a :: !less(a, a))
    && (forall a, b, c :: less(a, b) && less(b, c) ==> less(a, c))
    && (forall a, b :: a == b || less(a, b) || less(b, a))
  }

  ghost predicate Sorted<K>(s: seq<K>, less: (K, K) -> bool) {
    forall i, j :: 0 <= i < j < |s| ==> less(s[i], s[j])
  }

  lemma {:induction false} LeastExists<K(!new)>(keys: set<K>, less: (K, K) -> bool)
    requires keys != {} && StrictOrder(less)
    ensures exists k :: k in keys && forall j :: j in keys ==> j == k || less(k, j)
  {
    var c :| c in keys;
    if keys != {c} {
      var rest := keys - {c};
      LeastExists(rest, less);
      var m :| m in rest && forall j :: j in rest ==> j == m || less(m, j);
      var k := if less(c, m) then c else m;
      assert forall j :: j in keys ==> j == c || j in rest;
      assert k in keys && forall j :: j in keys ==> j == k || less(k, j);
    }
  }

  function Least<K(!new, ==)>(keys: set<K>, less: (K, K) -> bool): (k: K)
    requires keys != {} && StrictOrder(less)
    ensures k in keys && forall j :: j in keys ==> j == k || less(k, j)
  {
    LeastExists(keys, less);
    var k :| k in keys && forall j :: j in keys ==> j == k || less(k, j);
    k
  }

  /** The keys in the order a walk visits them. */
  function Ascending<K(!new, ==)>(keys: set<K>, less: (K, K) -> bool): (s: seq<K>)
    requires StrictOrder(less)
    ensures forall k :: k in s <==> k in keys
    ensures Sorted(s, less)
    decreases keys
  {
    if keys == {} then []
    else
      var k := Least(keys, less);
      [k] + Ascending(keys - {k}, less)
  }

  /** Ascending order leaves no choice. */
  lemma {:induction false} SortedUnique<K(!new)>(a: seq<K>, b: seq<K>, less: (K, K) -> bool)
    requires StrictOrder(less)
    requires Sorted(a, less) && Sorted(b, less)
    requires forall k :: k in a <==> k in b
    ensures a == b
  {
    if a == [] {
      assert forall i :: 0 <= i < |b| ==> b[i] in b;
    } else {
      assert a[0] in b;
      assert b[0] in a;
      assert a[0] == b[0];
      forall k ensures k in a[1..] <==> k in b[1..] {
        assert k in a <==> k == a[0] || k in a[1..];
        assert k in b <==> k == b[0] || k in b[1..];
        assert a[0] !in a[1..] && b[0] !in b[1..];
      }
      SortedUnique(a[1..], b[1..], less);
    }
  }

  predicate NatLess(a: U64, b: U64) {
    a < b
  }

  /** The byte order on strings. */
  predicate LexLess(a: Str, b: Str) {
    b != [] && (a == [] || a[0] < b[0] || (a[0] == b[0] && LexLess(a[1..], b[1..])))
  }

  lemma {:induction false} LexIrreflexive(a: Str)
    ensures !LexLess(a, a)
  {
    if a != [] { LexIrreflexive(a[1..]); }
  }

  lemma {:induction false} LexTransitive(a: Str, b: Str, c: Str)
    requires LexLess(a, b) && LexLess(b, c)
    ensures LexLess(a, c)
  {
    if a != [] && a[0] == b[0] == c[0] { LexTransitive(a[1..], b[1..], c[1..]); }
  }

  lemma {:induction false} LexTotal(a: Str, b: Str)
    ensures a == b || LexLess(a, b) || LexLess(b, a)
  {
    if a != [] && b != [] && a[0] == b[0] {
      LexTotal(a[1..], b[1..]);
      assert a == [a[0]] + a[1..] && b == [b[0]] + b[1..];
    }
  }

  lemma LexOrder()
    ensures StrictOrder(LexLess)
  {
    forall a ensures !LexLess(a, a) { LexIrreflexive(a); }
    forall a, b, c | LexLess(a, b) && LexLess(b, c) ensures LexLess(a, c) { LexTransitive(a, b, c); }
    forall a, b ensures a == b || LexLess(a, b) || LexLess(b, a) { LexTotal(a, b); }
  }
}
