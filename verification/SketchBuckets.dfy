/** Bucket contents of a sketch as a value: what observations put there, what merging does,
    and what a quantile read from the buckets says about the observations. */
module SketchBuckets {
  import opened SketchMapping
  import opened Sorting

  // ---------- bucket arrays ----------

  function Zeros(): (b: seq<nat>)
    ensures |b| == NUM_BUCKETS
  {
    seq(NUM_BUCKETS, _ => 0)
  }

  /** The array slot of an observation. */
  function Slot(seconds: real): (j: nat)
    ensures j <= MAX_INDEX - MIN_INDEX < NUM_BUCKETS
  {
    DomainSpan();
    IndexMonotone(MIN_VALUE, Clamp(seconds));
    IndexMonotone(Clamp(seconds), MAX_VALUE);
    Index(Clamp(seconds)) - MIN_INDEX
  }

  lemma {:induction false} SlotMonotone(x: real, y: real)
    requires x <= y
    ensures Slot(x) <= Slot(y)
  {
    ClampMonotone(x, y);
    IndexMonotone(Clamp(x), Clamp(y));
  }

  function Bump(b: seq<nat>, j: nat): (r: seq<nat>)
    requires j < |b|
    ensures |r| == |b|
  {
    b[j := b[j] + 1]
  }

  ghost predicate InArray(slots: seq<nat>) {
    forall i :: 0 <= i < |slots| ==> slots[i] < NUM_BUCKETS
  }

  /** The bucket array after bumping the given slots one by one. */
  function Tally(slots: seq<nat>): (b: seq<nat>)
    requires InArray(slots)
    ensures |b| == NUM_BUCKETS
  {
    if slots == [] then Zeros()
    else Bump(Tally(slots[..|slots| - 1]), slots[|slots| - 1])
  }

  function Slots(xs: seq<real>): (r: seq<nat>)
    ensures |r| == |xs| && InArray(r)
    ensures forall i :: 0 <= i < |xs| ==> r[i] == Slot(xs[i])
  {
    seq(|xs|, i requires 0 <= i < |xs| => Slot(xs[i]))
  }

  /** The bucket array after observing xs one by one. */
  function SketchOf(xs: seq<real>): (b: seq<nat>)
    ensures |b| == NUM_BUCKETS
  {
    Tally(Slots(xs))
  }

  lemma {:induction false} SketchSnoc(xs: seq<real>, x: real)
    ensures SketchOf(xs + [x]) == Bump(SketchOf(xs), Slot(x))
  {
    assert Slots(xs + [x])[..|xs|] == Slots(xs);
  }

  function Plus(a: seq<nat>, b: seq<nat>): (r: seq<nat>)
    requires |a| == |b|
    ensures |r| == |a|
  {
    seq(|a|, i requires 0 <= i < |a| => a[i] + b[i])
  }

  function Total(b: seq<nat>): nat {
    if b == [] then 0 else Total(b[..|b| - 1]) + b[|b| - 1]
  }

  /** No count lies past the last index of the domain. */
  ghost predicate TailZero(b: seq<nat>) {
    forall j: nat :: MAX_INDEX - MIN_INDEX < j < |b| ==> b[j] == 0
  }

  // ---------- merging ----------

  lemma {:induction false} BumpPlus(a: seq<nat>, b: seq<nat>, j: nat)
    requires |a| == |b| && j < |a|
    ensures Plus(a, Bump(b, j)) == Bump(Plus(a, b), j) == Plus(Bump(a, j), b)
  {
  }

  lemma {:induction false} TallyAppend(s: seq<nat>, t: seq<nat>)
    requires InArray(s) && InArray(t)
    ensures Tally(s + t) == Plus(Tally(s), Tally(t))
  {
    if t == [] {
      assert s + t == s;
      assert Plus(Tally(s), Zeros()) == Tally(s);
    } else {
      var t' := t[..|t| - 1];
      assert (s + t)[..|s + t| - 1] == s + t';
      TallyAppend(s, t');
      BumpPlus(Tally(s), Tally(t'), t[|t| - 1]);
    }
  }

  /** Merging two sketches is the sketch of all their observations. */
  lemma {:induction false} MergeIsConcatenation(xs: seq<real>, ys: seq<real>)
    ensures SketchOf(xs + ys) == Plus(SketchOf(xs), SketchOf(ys))
  {
    assert Slots(xs + ys) == Slots(xs) + Slots(ys);
    TallyAppend(Slots(xs), Slots(ys));
  }

  /** Moving an observation to the end changes nothing. */
  lemma {:induction false} MoveToEnd(a: seq<real>, x: real, b: seq<real>)
    ensures SketchOf(a + [x] + b) == Bump(SketchOf(a + b), Slot(x))
  {
    MergeIsConcatenation(a + [x], b);
    SketchSnoc(a, x);
    MergeIsConcatenation(a, b);
    BumpPlus(SketchOf(a), SketchOf(b), Slot(x));
  }

  lemma SplitAtLast<T>(xs: seq<T>, ys: seq<T>) returns (a: seq<T>, b: seq<T>)
    requires xs != [] && multiset(xs) == multiset(ys)
    ensures ys == a + [xs[|xs| - 1]] + b
    ensures multiset(xs[..|xs| - 1]) == multiset(a + b)
  {
    var x := xs[|xs| - 1];
    assert xs == xs[..|xs| - 1] + [x];
    assert x in multiset(ys);
    var k :| 0 <= k < |ys| && ys[k] == x;
    a, b := ys[..k], ys[k + 1..];
    assert ys == a + [x] + b;
    assert multiset(ys) == multiset(a + b) + multiset{x};
    assert multiset(xs[..|xs| - 1]) == multiset(xs) - multiset{x};
  }

  /** A sketch depends only on which observations were made, not on their order. */
  lemma {:induction false} SketchIsOrderFree(xs: seq<real>, ys: seq<real>)
    requires multiset(xs) == multiset(ys)
    ensures SketchOf(xs) == SketchOf(ys)
    decreases |xs|
  {
    if xs == [] {
      assert |multiset(ys)| == 0;
    } else {
      var n, x := |xs| - 1, xs[|xs| - 1];
      var a, b := SplitAtLast(xs, ys);
      SketchIsOrderFree(xs[..n], a + b);
      MoveToEnd(a, x, b);
      assert xs == xs[..n] + [x];
      SketchSnoc(xs[..n], x);
    }
  }

  /** Any way of combining partial sketches: instances into services, windows into hours. */
  datatype MergeTree = Leaf(xs: seq<real>) | Node(left: MergeTree, right: MergeTree)
  {
    function Observations(): seq<real> {
      match this
      case Leaf(xs) => xs
      case Node(l, r) => l.Observations() + r.Observations()
    }

    function Rollup(): (b: seq<nat>)
      ensures |b| == NUM_BUCKETS
    {
      match this
      case Leaf(xs) => SketchOf(xs)
      case Node(l, r) => Plus(l.Rollup(), r.Rollup())
    }
  }

  lemma {:induction false} RollupIsSketch(t: MergeTree)
    ensures t.Rollup() == SketchOf(t.Observations())
  {
    if t.Node? {
      RollupIsSketch(t.left);
      RollupIsSketch(t.right);
      MergeIsConcatenation(t.left.Observations(), t.right.Observations());
    }
  }

  /** Rolling up is exact: the shape of the merge tree and the partition do not matter. */
  lemma {:induction false} RollupExact(t: MergeTree, u: MergeTree)
    requires multiset(t.Observations()) == multiset(u.Observations())
    ensures t.Rollup() == u.Rollup()
    ensures forall q :: Quantile(t.Rollup(), q) == Quantile(u.Rollup(), q)
  {
    RollupIsSketch(t);
    RollupIsSketch(u);
    SketchIsOrderFree(t.Observations(), u.Observations());
  }

  // ---------- reachable sketches ----------

  lemma {:induction false} TotalPrefix(b: seq<nat>, i: nat, j: nat)
    requires i <= j <= |b|
    ensures Total(b[..i]) <= Total(b[..j])
    decreases j
  {
    if i < j {
      assert b[..j][..j - 1] == b[..j - 1];
      TotalPrefix(b, i, j - 1);
    }
  }

  lemma {:induction false} TotalStep(b: seq<nat>, j: nat)
    requires j < |b|
    ensures Total(b[..j + 1]) == Total(b[..j]) + b[j]
  {
    assert b[..j + 1][..j] == b[..j];
  }

  lemma {:induction false} TotalZeros(n: nat)
    ensures Total(seq(n, _ => 0)) == 0
  {
    if n > 0 {
      var z: seq<nat> := seq(n, _ => 0);
      assert z[..n - 1] == seq(n - 1, _ => 0);
      TotalZeros(n - 1);
    }
  }

  lemma {:induction false} TotalBump(b: seq<nat>, j: nat)
    requires j < |b|
    ensures Total(Bump(b, j)) == Total(b) + 1
  {
    var n := |b| - 1;
    if j < n {
      assert Bump(b, j)[..n] == Bump(b[..n], j);
      TotalBump(b[..n], j);
    } else {
      assert Bump(b, j)[..n] == b[..n];
    }
  }

  lemma {:induction false} TotalPlus(a: seq<nat>, b: seq<nat>)
    requires |a| == |b|
    ensures Total(Plus(a, b)) == Total(a) + Total(b)
  {
    if a != [] {
      var n := |a| - 1;
      assert Plus(a, b)[..n] == Plus(a[..n], b[..n]);
      TotalPlus(a[..n], b[..n]);
    }
  }

  lemma {:induction false} TallyMass(slots: seq<nat>)
    requires InArray(slots)
    ensures Total(Tally(slots)) == |slots|
    ensures forall j: nat :: j < NUM_BUCKETS && j !in slots ==> Tally(slots)[j] == 0
  {
    if slots == [] {
      TotalZeros(NUM_BUCKETS);
    } else {
      var n := |slots| - 1;
      assert slots == slots[..n] + [slots[n]];
      TallyMass(slots[..n]);
      TotalBump(Tally(slots[..n]), slots[n]);
    }
  }

  /** A sketch of n observations holds mass n, all of it inside the domain. */
  lemma {:induction false} SketchMass(xs: seq<real>)
    ensures Total(SketchOf(xs)) == |xs|
    ensures TailZero(SketchOf(xs))
  {
    TallyMass(Slots(xs));
  }

  // ---------- ranks ----------

  function Ceil(x: real): (c: int)
    ensures c as real - 1.0 < x <= c as real
  {
    -((-x).Floor)
  }

  lemma CeilMonotone(x: real, y: real)
    requires x <= y
    ensures Ceil(x) <= Ceil(y)
  {
  }

  /** The 1-based rank of quantile q among total observations. */
  function QuantileRank(q: real, total: nat): (r: nat)
    requires total > 0
    ensures 1 <= r <= total
  {
    var rank := AtLeastOne(ScaledRank(ClampUnit(q), total));
    if rank < total then rank else total
  }

  function AtLeastOne(r: int): (s: nat)
    ensures s >= 1
  {
    if r < 1 then 1 else r
  }

  function ClampUnit(q: real): (c: real)
    ensures 0.0 <= c <= 1.0
    ensures 0.0 <= q <= 1.0 ==> c == q
  {
    if q < 0.0 then 0.0 else if q > 1.0 then 1.0 else q
  }

  function ScaledRank(c: real, total: nat): (r: nat)
    requires 0.0 <= c <= 1.0
    ensures r <= total
  {
    RankInRange(c, total);
    Ceil(c * total as real)
  }

  lemma RankInRange(c: real, total: nat)
    requires 0.0 <= c <= 1.0
    ensures 0.0 <= c * total as real <= total as real
  {
  }

  /** For q in [0, 1] the rank is the least r >= 1 with q * total <= r. */
  lemma {:induction false} QuantileRankIsCeil(q: real, total: nat)
    requires 0.0 <= q <= 1.0 && total > 0
    ensures
      var r, x := QuantileRank(q, total), q * total as real;
      x <= r as real && (r == 1 || r as real - 1.0 < x)
  {
    RankInRange(q, total);
  }

  lemma ScaledRankMonotone(c: real, d: real, total: nat)
    requires 0.0 <= c <= d <= 1.0
    ensures ScaledRank(c, total) <= ScaledRank(d, total)
  {
    var t := total as real;
    assert c * t <= d * t;
    CeilMonotone(c * t, d * t);
  }

  lemma {:induction false} RankMonotone(p: real, q: real, total: nat)
    requires total > 0 && p <= q
    ensures QuantileRank(p, total) <= QuantileRank(q, total)
  {
    ScaledRankMonotone(ClampUnit(p), ClampUnit(q), total);
  }

  /** Slot j is the first whose cumulative count reaches rank r. */
  ghost predicate IsRankSlot(b: seq<nat>, r: nat, j: nat) {
    j < |b| && Total(b[..j]) < r <= Total(b[..j + 1])
  }

  lemma {:induction false} RankSlotMonotone(b: seq<nat>, r: nat, j: nat, r': nat, j': nat)
    requires IsRankSlot(b, r, j) && IsRankSlot(b, r', j') && r <= r'
    ensures j <= j'
  {
    if j' < j {
      TotalPrefix(b, j' + 1, j);
    }
  }

  function RankSlot(b: seq<nat>, r: nat): (j: nat)
    requires 1 <= r <= Total(b)
    ensures IsRankSlot(b, r, j)
  {
    var n := |b| - 1;
    assert b[..n + 1] == b;
    if r <= Total(b[..n]) then
      var j := RankSlot(b[..n], r);
      assert b[..n][..j] == b[..j] && b[..n][..j + 1] == b[..j + 1];
      j
    else n
  }

  /** The representative of the bucket that holds rank r. */
  function ValueAtRank(b: seq<nat>, r: nat): real
    requires 1 <= r <= Total(b)
  {
    Value(RankSlot(b, r) + MIN_INDEX)
  }

  /** The quantile that the bucket contents determine. */
  function Quantile(b: seq<nat>, q: real): real {
    if Total(b) == 0 then 0.0 else ValueAtRank(b, QuantileRank(q, Total(b)))
  }

  /** Percentiles come out ordered: p50 <= p95 <= p99. */
  lemma {:induction false} QuantileMonotone(b: seq<nat>, p: real, q: real)
    requires p <= q
    ensures Quantile(b, p) <= Quantile(b, q)
  {
    if Total(b) > 0 {
      var rp, rq := QuantileRank(p, Total(b)), QuantileRank(q, Total(b));
      RankMonotone(p, q, Total(b));
      RankSlotMonotone(b, rp, RankSlot(b, rp), rq, RankSlot(b, rq));
      ValueMonotone(RankSlot(b, rp) + MIN_INDEX, RankSlot(b, rq) + MIN_INDEX);
    }
  }

  // ---------- the error bound ----------

  /** How many of the slots lie below j. */
  function CountBelow(slots: seq<nat>, j: nat): nat {
    if slots == [] then 0
    else CountBelow(slots[..|slots| - 1], j) + (if slots[|slots| - 1] < j then 1 else 0)
  }

  lemma {:induction false} TotalPrefixBump(b: seq<nat>, k: nat, j: nat)
    requires k < |b| && j <= |b|
    ensures Total(Bump(b, k)[..j]) == Total(b[..j]) + (if k < j then 1 else 0)
  {
    if k < j {
      assert Bump(b, k)[..j] == Bump(b[..j], k);
      TotalBump(b[..j], k);
    } else {
      assert Bump(b, k)[..j] == b[..j];
    }
  }

  lemma {:induction false} CumulativeIsCount(slots: seq<nat>, j: nat)
    requires InArray(slots) && j <= NUM_BUCKETS
    ensures Total(Tally(slots)[..j]) == CountBelow(slots, j)
  {
    if slots == [] {
      assert Zeros()[..j] == seq(j, _ => 0);
      TotalZeros(j);
    } else {
      var n := |slots| - 1;
      CumulativeIsCount(slots[..n], j);
      TotalPrefixBump(Tally(slots[..n]), slots[n], j);
    }
  }

  ghost predicate Ascending(slots: seq<nat>) {
    forall i, j :: 0 <= i <= j < |slots| ==> slots[i] <= slots[j]
  }

  /** In ascending slots, at least k lie below j iff the k-th one does. */
  lemma {:induction false} CountOfAscending(slots: seq<nat>, k: nat, j: nat)
    requires Ascending(slots) && 1 <= k <= |slots|
    ensures CountBelow(slots, j) <= |slots|
    ensures k <= CountBelow(slots, j) <==> slots[k - 1] < j
  {
    var n := |slots| - 1;
    if n > 0 {
      CountOfAscending(slots[..n], n, j);
      if k <= n {
        CountOfAscending(slots[..n], k, j);
      }
    }
  }

  lemma {:induction false} SlotsOfSorted(s: seq<real>)
    requires Sorted(s)
    ensures Ascending(Slots(s))
  {
    forall i, j | 0 <= i <= j < |s| ensures Slots(s)[i] <= Slots(s)[j] {
      SlotMonotone(s[i], s[j]);
    }
  }

  lemma {:induction false} RankSlotOfAscending(slots: seq<nat>, k: nat)
    requires InArray(slots) && Ascending(slots) && 1 <= k <= |slots|
    ensures IsRankSlot(Tally(slots), k, slots[k - 1])
  {
    var j := slots[k - 1];
    CountOfAscending(slots, k, j);
    CountOfAscending(slots, k, j + 1);
    CumulativeIsCount(slots, j);
    CumulativeIsCount(slots, j + 1);
  }

  /** The rank-k slot of a sketch is exactly the slot of the k-th smallest observation. */
  lemma {:induction false} RankSlotIsOrderStatistic(s: seq<real>, k: nat)
    requires Sorted(s) && 1 <= k <= |s|
    ensures IsRankSlot(SketchOf(s), k, Slots(s)[k - 1])
  {
    SlotsOfSorted(s);
    RankSlotOfAscending(Slots(s), k);
  }

  lemma {:induction false} RankSlotUnique(b: seq<nat>, k: nat, j: nat)
    requires 1 <= k <= Total(b) && IsRankSlot(b, k, j)
    ensures RankSlot(b, k) == j
  {
    RankSlotMonotone(b, k, RankSlot(b, k), k, j);
    RankSlotMonotone(b, k, j, k, RankSlot(b, k));
  }

  lemma {:induction false} SlotAccuracy(x: real)
    ensures WithinAlpha(Value(Slot(x) + MIN_INDEX), Clamp(x))
  {
    ValueAccuracy(Clamp(x));
  }

  lemma {:induction false} RankAccuracy(s: seq<real>, k: nat)
    requires Sorted(s) && 1 <= k <= |s| == Total(SketchOf(s))
    ensures WithinAlpha(ValueAtRank(SketchOf(s), k), Clamp(s[k - 1]))
  {
    RankSlotIsOrderStatistic(s, k);
    RankSlotUnique(SketchOf(s), k, Slots(s)[k - 1]);
    SlotAccuracy(s[k - 1]);
  }

  lemma {:induction false} SampleRankAccuracy(xs: seq<real>, k: nat)
    requires 1 <= k <= |xs| == Total(SketchOf(xs))
    ensures WithinAlpha(ValueAtRank(SketchOf(xs), k), Clamp(Sort(xs)[k - 1]))
  {
    SketchIsOrderFree(xs, Sort(xs));
    RankAccuracy(Sort(xs), k);
  }

  /** The quantile estimate is within relative error alpha of the true order statistic
      (clamped into the domain, which changes nothing for samples inside it). */
  lemma {:induction false} QuantileAccuracy(xs: seq<real>, q: real)
    requires xs != []
    ensures WithinAlpha(Quantile(SketchOf(xs), q), Clamp(Sort(xs)[QuantileRank(q, |xs|) - 1]))
  {
    SketchMass(xs);
    SampleRankAccuracy(xs, QuantileRank(q, |xs|));
  }
}
