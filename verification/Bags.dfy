/** The multiset of all elements held by a map of sequences. */
module Bags {
  import opened MapSums

  ghost function Bag<K, R>(m: map<K, seq<R>>): multiset<R>
    decreases |m|
  {
    if m == map[] then multiset{}
    else
      var k :| k in m;
      multiset(m[k]) + Bag(m - {k})
  }

  lemma {:induction false} BagRemove<K, R>(m: map<K, seq<R>>, k: K)
    requires k in m
    ensures Bag(m) == multiset(m[k]) + Bag(m - {k})
    decreases |m|
  {
    var c :| c in m && Bag(m) == multiset(m[c]) + Bag(m - {c});
    if c != k {
      BagRemove(m - {c}, k);
      BagRemove(m - {k}, c);
      assert m - {c} - {k} == m - {k} - {c};
    }
  }

  lemma {:induction false} BagInsert<K, R>(m: map<K, seq<R>>, k: K, s: seq<R>)
    requires k !in m
    ensures Bag(m[k := s]) == Bag(m) + multiset(s)
  {
    BagRemove(m[k := s], k);
    assert m[k := s] - {k} == m;
  }

  lemma {:induction false} BagAppend<K, R>(m: map<K, seq<R>>, k: K, x: R)
    requires k in m
    ensures Bag(m[k := m[k] + [x]]) == Bag(m) + multiset{x}
  {
    var n := m[k := m[k] + [x]];
    BagRemove(m, k);
    BagRemove(n, k);
    assert n - {k} == m - {k};
  }

  lemma {:induction false} BagUnion<K, R>(m: map<K, seq<R>>, n: map<K, seq<R>>)
    requires forall k :: k in m ==> k !in n
    ensures Bag(m + n) == Bag(m) + Bag(n)
    decreases |n|
  {
    if n == map[] {
      assert m + n == m;
    } else {
      var k :| k in n;
      var rest := n - {k};
      BagRemove(n, k);
      BagUnion(m, rest);
      UnionStep(m, n, k);
      BagInsert(m + rest, k, n[k]);
    }
  }

  /** A map whose sequences are not all empty holds something. */
  lemma {:induction false} BagNonEmpty<K, R>(m: map<K, seq<R>>)
    requires m != map[] && forall k :: k in m ==> m[k] != []
    ensures |Bag(m)| > 0
  {
    var k :| k in m;
    BagRemove(m, k);
    assert m[k][0] in multiset(m[k]);
  }
}
