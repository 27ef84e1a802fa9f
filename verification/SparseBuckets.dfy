/** Sparse bucket maps keyed by absolute bucket index: the wire form of a sketch,
    and the bucket that a rank selects in it. */
module SparseBuckets {
  import opened SketchMapping
  import opened SketchBuckets
  import opened MapSums

  // ---------- cumulative counts ----------

  function Below(m: map<int, nat>, i: int): map<int, nat> {
    map k | k in m && k < i :: m[k]
  }

  /** Mass of the keys below i. */
  ghost function Cum(m: map<int, nat>, i: int): nat {
    Sum(Below(m, i))
  }

  lemma {:induction false} CumStep(m: map<int, nat>, i: int)
    ensures Cum(m, i + 1) == Cum(m, i) + (if i in m then m[i] else 0)
  {
    if i in m {
      assert Below(m, i + 1) == Below(m, i)[i := m[i]];
      SumInsert(Below(m, i), i, m[i]);
    } else {
      assert Below(m, i + 1) == Below(m, i);
    }
  }

  lemma {:induction false} CumMonotone(m: map<int, nat>, i: int, j: int)
    requires i <= j
    ensures Cum(m, i) <= Cum(m, j)
    decreases j - i
  {
    if i < j {
      CumMonotone(m, i, j - 1);
      CumStep(m, j - 1);
    }
  }

  /** Between two indices with no key in between, nothing accumulates. */
  lemma CumGap(m: map<int, nat>, i: int, j: int)
    requires i <= j && forall k :: k in m ==> k < i || j <= k
    ensures Cum(m, i) == Cum(m, j)
  {
    assert Below(m, i) == Below(m, j);
  }

  lemma CumAll(m: map<int, nat>, hi: int)
    requires forall k :: k in m ==> k < hi
    ensures Cum(m, hi) == Sum(m)
  {
    assert Below(m, hi) == m;
  }

  lemma CumNone(m: map<int, nat>, lo: int)
    requires forall k :: k in m ==> lo <= k
    ensures Cum(m, lo) == 0
  {
    assert Below(m, lo) == map[];
  }

  lemma CumAtMost(m: map<int, nat>, i: int)
    ensures Cum(m, i) <= Sum(m)
  {
    var above := map k | k in m && i <= k :: m[k];
    assert m == Below(m, i) + above;
    SumUnion(Below(m, i), above);
  }

  // ---------- the bucket at a rank ----------

  /** Key i is the first whose cumulative count reaches rank r. */
  ghost predicate IsRankKey(m: map<int, nat>, r: nat, i: int) {
    i in m && Cum(m, i) < r <= Cum(m, i + 1)
  }

  lemma {:induction false} RankKeyUnique(m: map<int, nat>, r: nat, i: int, j: int)
    requires IsRankKey(m, r, i) && IsRankKey(m, r, j)
    ensures i == j
  {
    if i < j {
      CumMonotone(m, i + 1, j);
    } else if j < i {
      CumMonotone(m, j + 1, i);
    }
  }

  lemma {:induction false} RankKeyBetween(m: map<int, nat>, r: nat, lo: int, hi: int) returns (i: int)
    requires lo <= hi && Cum(m, lo) < r <= Cum(m, hi)
    ensures IsRankKey(m, r, i)
    decreases hi - lo
  {
    CumStep(m, hi - 1);
    if r <= Cum(m, hi - 1) {
      i := RankKeyBetween(m, r, lo, hi - 1);
    } else {
      i := hi - 1;
    }
  }

  lemma {:induction false} KeyBounds(m: map<int, nat>) returns (lo: int, hi: int)
    ensures lo <= hi && forall k :: k in m ==> lo <= k < hi
    decreases |m|
  {
    if m == map[] {
      lo, hi := 0, 0;
    } else {
      var k := SomeKey(m);
      lo, hi := KeyBounds(m - {k});
      lo := if k < lo then k else lo;
      hi := if hi <= k then k + 1 else hi;
      assert forall j :: j in m ==> j == k || j in m - {k};
    }
  }

  lemma {:induction false} RankKeyExists(m: map<int, nat>, r: nat)
    requires 1 <= r <= Sum(m)
    ensures exists i :: IsRankKey(m, r, i)
  {
    var lo, hi := KeyBounds(m);
    CumNone(m, lo);
    CumAll(m, hi);
    var i := RankKeyBetween(m, r, lo, hi);
  }

  ghost function RankKey(m: map<int, nat>, r: nat): (i: int)
    requires 1 <= r <= Sum(m)
    ensures IsRankKey(m, r, i)
  {
    RankKeyExists(m, r);
    var i :| IsRankKey(m, r, i);
    i
  }

  /** The quantile that a sparse bucket map determines. */
  ghost function SparseQuantile(m: map<int, nat>, q: real): real {
    if Sum(m) == 0 then 0.0 else Value(RankKey(m, QuantileRank(q, Sum(m))))
  }

  ghost predicate InDomain(m: map<int, nat>) {
    forall k :: k in m ==> MIN_INDEX <= k <= MAX_INDEX
  }

  // ---------- wire round trip ----------

  /** The count at absolute index k. */
  function At(b: seq<nat>, k: int): nat {
    if MIN_INDEX <= k < MIN_INDEX + |b| then b[k - MIN_INDEX] else 0
  }

  /** Non-zero buckets keyed by absolute index. */
  function ToMap(b: seq<nat>): map<int, nat> {
    map k | MIN_INDEX <= k < MIN_INDEX + |b| && At(b, k) != 0 :: At(b, k)
  }

  function ClampIndex(k: int): (i: int)
    ensures MIN_INDEX <= i <= MAX_INDEX
    ensures MIN_INDEX <= k <= MAX_INDEX ==> i == k
  {
    if k < MIN_INDEX then MIN_INDEX else if k > MAX_INDEX then MAX_INDEX else k
  }

  /** The entries of m that fold into slot j. */
  function Folded(m: map<int, nat>, j: nat): map<int, nat> {
    map k | k in m && ClampIndex(k) - MIN_INDEX == j :: m[k]
  }

  /** The bucket array that a wire map stands for; stray indices fold into the edge buckets. */
  ghost function FromMap(m: map<int, nat>): (b: seq<nat>)
    ensures |b| == NUM_BUCKETS
  {
    seq(NUM_BUCKETS, j requires 0 <= j < NUM_BUCKETS => Sum(Folded(m, j)))
  }

  lemma SumSingle(k: int, c: nat)
    ensures Sum(map[k := c]) == c
  {
    SumInsert(map[], k, c);
    assert map[][k := c] == map[k := c];
  }

  /** Decoding the wire form of a reachable sketch gives the sketch back. */
  lemma {:induction false} FromToMap(b: seq<nat>)
    requires |b| == NUM_BUCKETS && TailZero(b)
    ensures FromMap(ToMap(b)) == b
    ensures InDomain(ToMap(b))
  {
    forall j | 0 <= j < NUM_BUCKETS ensures Sum(Folded(ToMap(b), j)) == b[j] {
      if b[j] != 0 {
        assert Folded(ToMap(b), j) == map[j + MIN_INDEX := b[j]];
        SumSingle(j + MIN_INDEX, b[j]);
      } else {
        assert Folded(ToMap(b), j) == map[];
      }
    }
  }

  /** Encoding what a wire map stands for gives back the map, less its zero entries. */
  lemma {:induction false} ToFromMap(m: map<int, nat>)
    requires InDomain(m)
    ensures ToMap(FromMap(m)) == map k | k in m && m[k] != 0 :: m[k]
  {
    forall k | MIN_INDEX <= k < MIN_INDEX + NUM_BUCKETS
      ensures At(FromMap(m), k) == if k in m then m[k] else 0
    {
      assert At(FromMap(m), k) == Sum(Folded(m, k - MIN_INDEX));
      if k in m {
        assert Folded(m, k - MIN_INDEX) == map[k := m[k]];
        SumSingle(k, m[k]);
      } else {
        assert Folded(m, k - MIN_INDEX) == map[];
      }
    }
  }

  // ---------- dense and sparse agree ----------

  lemma {:induction false} DenseCum(b: seq<nat>, j: nat)
    requires j <= |b|
    ensures Cum(ToMap(b), MIN_INDEX + j) == Total(b[..j])
  {
    if j == 0 {
      CumNone(ToMap(b), MIN_INDEX);
    } else {
      DenseCum(b, j - 1);
      CumStep(ToMap(b), MIN_INDEX + j - 1);
      TotalStep(b, j - 1);
    }
  }

  lemma {:induction false} DenseMass(b: seq<nat>)
    ensures Sum(ToMap(b)) == Total(b)
  {
    DenseCum(b, |b|);
    CumAll(ToMap(b), MIN_INDEX + |b|);
    assert b[..|b|] == b;
  }

  /** Quantiles read off the dense array and off its wire form are the same. */
  lemma {:induction false} DenseIsSparse(b: seq<nat>, q: real)
    ensures SparseQuantile(ToMap(b), q) == Quantile(b, q)
  {
    DenseMass(b);
    if Total(b) > 0 {
      var r := QuantileRank(q, Total(b));
      var j := RankSlot(b, r);
      DenseCum(b, j);
      DenseCum(b, j + 1);
      TotalStep(b, j);
      RankKeyUnique(ToMap(b), r, j + MIN_INDEX, RankKey(ToMap(b), r));
    }
  }

  // ---------- summing wire maps ----------

  /** Key-wise sum of two wire maps, as ClickHouse sumMap combines sketches. */
  function SumMap(m: map<int, nat>, n: map<int, nat>): map<int, nat> {
    map k | k in m.Keys + n.Keys ::
      (if k in m then m[k] else 0) + (if k in n then n[k] else 0)
  }

  /** Summing wire maps on the server is merging the sketches on the client. */
  lemma {:induction false} SumMapIsMerge(a: seq<nat>, b: seq<nat>)
    requires |a| == |b|
    ensures SumMap(ToMap(a), ToMap(b)) == ToMap(Plus(a, b))
  {
  }
}
