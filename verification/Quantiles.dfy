/** The quantile implementations that read a sparse bucket map: the client's domain scan,
    the server's sorted-key walk, and the percentile expression of the dashboard SQL. */
module Quantiles {
  import opened SketchMapping
  import opened SketchBuckets
  import opened SparseBuckets
  import opened MapSums
  import opened Sorting
  import opened DDSketches

  // ---------- client: scan of the dense domain ----------

  method TotalCount(m: map<int, nat>) returns (total: nat)
    ensures total == Sum(m)
  {
    total := 0;
    var rest := m.Keys;
    ghost var seen: map<int, nat> := map[];
    while rest != {}
      invariant rest <= m.Keys && seen == m - rest && total == Sum(seen)
      decreases |rest|
    {
      var k := Pick(rest);
      rest := rest - {k};
      total := total + m[k];
      SumInsert(seen, k, m[k]);
      seen := seen[k := m[k]];
    }
    assert seen == m;
  }

  /** The entries inside the domain, the only ones the scan can meet. */
  function Inside(m: map<int, nat>): map<int, nat> {
    map k | k in m && MIN_INDEX <= k <= MAX_INDEX :: m[k]
  }

  lemma {:induction false} InsideCum(m: map<int, nat>, i: int)
    requires MIN_INDEX <= i <= MAX_INDEX
    ensures Cum(Inside(m), i + 1) == Cum(Inside(m), i) + (if i in m then m[i] else 0)
  {
    CumStep(Inside(m), i);
  }

  /** Exact on every map: stray keys count towards the rank but are never reached. */
  method ClientQuantile(m: map<int, nat>, q: real) returns (r: real)
    ensures InDomain(m) ==> r == SparseQuantile(m, q)
    ensures Sum(m) > 0 ==>
      var rank := QuantileRank(q, Sum(m));
      if rank <= Sum(Inside(m)) then r == Value(RankKey(Inside(m), rank)) else r == Value(MAX_INDEX)
  {
    var total := TotalCount(m);
    if total == 0 {
      return 0.0;
    }
    var rank := QuantileRank(q, total);
    ghost var inside := Inside(m);
    assert InDomain(m) ==> inside == m;
    CumNone(inside, MIN_INDEX);
    CumAll(inside, MAX_INDEX + 1);
    var cum := 0;
    var i := MIN_INDEX;
    while i <= MAX_INDEX
      invariant MIN_INDEX <= i <= MAX_INDEX + 1
      invariant cum == Cum(inside, i) < rank
    {
      InsideCum(m, i);
      if i in m {
        cum := cum + m[i];
        if cum >= rank {
          CumAtMost(inside, i + 1);
          RankKeyUnique(inside, rank, i, RankKey(inside, rank));
          return Value(i);
        }
      }
      i := i + 1;
    }
    return Value(MAX_INDEX);
  }

  // ---------- server: walk of the sorted keys ----------

  ghost predicate StrictlyAscending(ks: seq<int>) {
    forall i, j :: 0 <= i < j < |ks| ==> ks[i] < ks[j]
  }

  function InsertKey(ks: seq<int>, k: int): (r: seq<int>)
    ensures forall x :: x in r <==> x in ks || x == k
    ensures |r| == |ks| + 1
  {
    if ks == [] || k < ks[0] then [k] + ks
    else
      assert ks == [ks[0]] + ks[1..];
      [ks[0]] + InsertKey(ks[1..], k)
  }

  lemma {:induction false} InsertKeyAscending(ks: seq<int>, k: int)
    requires StrictlyAscending(ks) && k !in ks
    ensures StrictlyAscending(InsertKey(ks, k))
  {
    if ks != [] && ks[0] < k {
      InsertKeyAscending(ks[1..], k);
      var r := InsertKey(ks[1..], k);
      forall i | 0 <= i < |r| ensures ks[0] < r[i] {
        assert r[i] in r;
        if r[i] != k {
          var j :| 0 <= j < |ks[1..]| && ks[1..][j] == r[i];
        }
      }
    }
  }

  /** The keys of a bucket map in ascending order. */
  method SortKeys(keys: set<int>) returns (ks: seq<int>)
    ensures StrictlyAscending(ks)
    ensures forall k :: k in ks <==> k in keys
  {
    ks := [];
    var rest := keys;
    while rest != {}
      invariant rest <= keys && StrictlyAscending(ks)
      invariant forall k :: k in ks <==> k in keys && k !in rest
      decreases |rest|
    {
      var k := Pick(rest);
      rest := rest - {k};
      InsertKeyAscending(ks, k);
      ks := InsertKey(ks, k);
    }
  }

  /** ks lists the keys of m in ascending order. */
  ghost predicate SortedKeysOf(m: map<int, nat>, ks: seq<int>) {
    && StrictlyAscending(ks)
    && (forall k :: k in m ==> k in ks)
    && (forall i :: 0 <= i < |ks| ==> ks[i] in m)
  }

  lemma NoKeyBetween(m: map<int, nat>, ks: seq<int>, p: nat, k: int)
    requires SortedKeysOf(m, ks) && p < |ks| && k in m
    ensures k <= ks[p] || (p + 1 < |ks| && ks[p + 1] <= k)
    ensures ks[0] <= k
  {
    var i :| 0 <= i < |ks| && ks[i] == k;
  }

  lemma {:induction false} CumFirstKey(m: map<int, nat>, ks: seq<int>)
    requires SortedKeysOf(m, ks)
    ensures if ks == [] then Sum(m) == 0 else Cum(m, ks[0]) == 0
  {
    if ks == [] {
      assert forall k :: k !in m;
      assert m == map[];
    } else {
      forall k | k in m ensures ks[0] <= k {
        NoKeyBetween(m, ks, 0, k);
      }
      CumNone(m, ks[0]);
    }
  }

  /** Mass below position p of the sorted keys; past the last key it is the whole mass. */
  ghost function CumAtPosition(m: map<int, nat>, ks: seq<int>, p: nat): nat
    requires p <= |ks|
  {
    if p < |ks| then Cum(m, ks[p]) else Sum(m)
  }

  lemma {:induction false} GapAfterKey(m: map<int, nat>, ks: seq<int>, p: nat)
    requires SortedKeysOf(m, ks) && p < |ks|
    ensures CumAtPosition(m, ks, p + 1) == Cum(m, ks[p] + 1)
  {
    forall k | k in m ensures k <= ks[p] || (p + 1 < |ks| && ks[p + 1] <= k) {
      NoKeyBetween(m, ks, p, k);
    }
    if p + 1 < |ks| {
      CumGap(m, ks[p] + 1, ks[p + 1]);
    } else {
      CumAll(m, ks[p] + 1);
    }
  }

  /** From one position to the next, the mass grows by the key's own count. */
  lemma {:induction false} CumNextKey(m: map<int, nat>, ks: seq<int>, p: nat)
    requires SortedKeysOf(m, ks) && p < |ks|
    ensures CumAtPosition(m, ks, p + 1) == Cum(m, ks[p]) + m[ks[p]] == Cum(m, ks[p] + 1)
  {
    GapAfterKey(m, ks, p);
    CumStep(m, ks[p]);
  }

  lemma RankPastEnd(q: real, total: nat)
    ensures q >= 1.0 ==> Ceil(q * total as real) >= total
  {
    assert q >= 1.0 ==> q * total as real >= total as real;
  }

  /** The rank as the server computes it: above one, q counts as one. */
  function ServerRank(q: real, total: nat): (r: nat)
    requires 0.0 <= q
    ensures total > 0 ==> r == QuantileRank(q, total)
  {
    RankPastEnd(q, total);
    RankPastEnd(1.0, total);
    var rank := AtLeastOne(Ceil(q * total as real));
    if rank > total then total else rank
  }

  method WalkKeys(m: map<int, nat>, ks: seq<int>, rank: nat) returns (i: int)
    requires SortedKeysOf(m, ks) && 1 <= rank <= Sum(m)
    ensures IsRankKey(m, rank, i)
  {
    var cumulative := 0;
    CumFirstKey(m, ks);
    for p := 0 to |ks|
      invariant cumulative == CumAtPosition(m, ks, p) < rank
    {
      CumNextKey(m, ks, p);
      cumulative := cumulative + m[ks[p]];
      if cumulative >= rank {
        return ks[p];
      }
    }
    assert false;
    return 0;
  }

  method ServerQuantile(m: map<int, nat>, q: real) returns (r: real)
    requires 0.0 <= q
    ensures r == SparseQuantile(m, q)
  {
    var total := TotalCount(m);
    if total == 0 {
      return 0.0;
    }
    var ks := SortKeys(m.Keys);
    var rank := ServerRank(q, total);
    var i := WalkKeys(m, ks, rank);
    RankKeyUnique(m, rank, i, RankKey(m, rank));
    return Value(i);
  }

  // ---------- dashboard SQL ----------

  /** arrayMap(k -> merged[k], ks) */
  function CountsOf(m: map<int, nat>, ks: seq<int>): (vs: seq<nat>)
    requires forall i :: 0 <= i < |ks| ==> ks[i] in m
    ensures |vs| == |ks|
  {
    seq(|ks|, i requires 0 <= i < |ks| => m[ks[i]])
  }

  /** arrayCumSum(vs) */
  function CumSums(vs: seq<nat>): (cs: seq<nat>)
    ensures |cs| == |vs|
  {
    seq(|vs|, i requires 0 <= i < |vs| => Total(vs[..i + 1]))
  }

  /** indexOf(arrayMap(c -> c >= rank, cs), 1): 1-based, 0 when no element reaches the rank. */
  function FirstReaching(cs: seq<nat>, rank: nat): (p: nat)
    ensures p <= |cs|
    ensures p == 0 ==> forall i :: 0 <= i < |cs| ==> cs[i] < rank
    ensures p > 0 ==> rank <= cs[p - 1] && forall i :: 0 <= i < p - 1 ==> cs[i] < rank
  {
    if cs == [] then 0
    else
      var p := FirstReaching(cs[..|cs| - 1], rank);
      if p > 0 then p else if rank <= cs[|cs| - 1] then |cs| else 0
  }

  /** The bucket index that a rank selects; reading position 0 of an array yields the default 0. */
  function SqlBucket(merged: map<int, nat>, ks: seq<int>, rank: nat): int
    requires forall i :: 0 <= i < |ks| ==> ks[i] in merged
  {
    var p := FirstReaching(CumSums(CountsOf(merged, ks)), rank);
    if p == 0 then 0 else ks[p - 1]
  }

  /** The percentile column: merged and totalCount are the group's sumMap and sum(count), ks the
      sorted keys of merged. */
  function SqlPercentile(merged: map<int, nat>, ks: seq<int>, totalCount: nat, q: real): (r: real)
    requires forall i :: 0 <= i < |ks| ==> ks[i] in merged
    requires 0.0 <= q <= 1.0
    ensures r > 0.0
  {
    Value(SqlBucket(merged, ks, AtLeastOne(ScaledRank(q, totalCount))))
  }

  lemma {:induction false} PrefixIsCum(m: map<int, nat>, ks: seq<int>, p: nat)
    requires SortedKeysOf(m, ks) && p <= |ks|
    ensures Total(CountsOf(m, ks)[..p]) == CumAtPosition(m, ks, p)
  {
    if p == 0 {
      CumFirstKey(m, ks);
    } else {
      PrefixIsCum(m, ks, p - 1);
      CumNextKey(m, ks, p - 1);
      TotalStep(CountsOf(m, ks), p - 1);
    }
  }

  lemma {:induction false} CumSumsArePositions(m: map<int, nat>, ks: seq<int>, p: nat)
    requires SortedKeysOf(m, ks) && p < |ks|
    ensures CumSums(CountsOf(m, ks))[p] == CumAtPosition(m, ks, p + 1)
  {
    PrefixIsCum(m, ks, p + 1);
  }

  /** The position where the cumulative counts first reach the rank holds the rank key. */
  lemma {:induction false} CrossingIsRankKey(m: map<int, nat>, ks: seq<int>, rank: nat, p: nat)
    requires SortedKeysOf(m, ks) && p < |ks|
    requires CumAtPosition(m, ks, p) < rank <= CumAtPosition(m, ks, p + 1)
    ensures IsRankKey(m, rank, ks[p]) && rank <= Sum(m)
  {
    CumNextKey(m, ks, p);
    CumAtMost(m, ks[p] + 1);
  }

  lemma {:induction false} SqlBucketIsRankKey(m: map<int, nat>, ks: seq<int>, rank: nat)
    requires SortedKeysOf(m, ks) && 1 <= rank
    ensures rank <= Sum(m) ==> IsRankKey(m, rank, SqlBucket(m, ks, rank))
    ensures rank > Sum(m) ==> SqlBucket(m, ks, rank) == 0
  {
    var cs := CumSums(CountsOf(m, ks));
    var p := FirstReaching(cs, rank);
    forall i | 0 <= i < |ks| ensures cs[i] == CumAtPosition(m, ks, i + 1) {
      CumSumsArePositions(m, ks, i);
    }
    CumFirstKey(m, ks);
    if p > 0 {
      assert p > 1 ==> cs[p - 2] < rank;
      CrossingIsRankKey(m, ks, rank, p - 1);
    } else {
      assert ks != [] ==> cs[|ks| - 1] == Sum(m);
    }
  }

  lemma {:induction false} SqlBucketIsKey(m: map<int, nat>, ks: seq<int>, rank: nat)
    requires SortedKeysOf(m, ks) && 1 <= rank <= Sum(m)
    ensures SqlBucket(m, ks, rank) == RankKey(m, rank)
  {
    SqlBucketIsRankKey(m, ks, rank);
    RankKeyUnique(m, rank, SqlBucket(m, ks, rank), RankKey(m, rank));
  }

  lemma SqlRank(q: real, total: nat)
    requires 0.0 <= q <= 1.0
    ensures total > 0 ==> AtLeastOne(ScaledRank(q, total)) == QuantileRank(q, total)
    ensures total == 0 ==> AtLeastOne(ScaledRank(q, total)) == 1
  {
  }

  /** The SQL percentile agrees with the Go quantiles exactly on groups that hold mass: on an
      empty group Go answers 0 and the SQL answers value(0). */
  lemma {:induction false} SqlAgrees(m: map<int, nat>, ks: seq<int>, q: real)
    requires SortedKeysOf(m, ks) && 0.0 <= q <= 1.0
    ensures SqlPercentile(m, ks, Sum(m), q) == SparseQuantile(m, q) <==> Sum(m) > 0
    ensures Sum(m) == 0 ==> SqlPercentile(m, ks, Sum(m), q) == Value(0)
  {
    SqlRank(q, Sum(m));
    if Sum(m) > 0 {
      SqlBucketIsKey(m, ks, QuantileRank(q, Sum(m)));
    } else {
      SqlBucketIsRankKey(m, ks, 1);
    }
  }

  // ---------- the forms together ----------

  lemma {:induction false} SparseIsDense(m: map<int, nat>, q: real)
    requires InDomain(m)
    ensures Quantile(FromMap(m), q) == SparseQuantile(m, q)
  {
    var b := FromMap(m);
    ToFromMap(m);
    DenseIsSparse(b, q);
    ZeroEntries(m, q);
  }

  /** Zero entries of a bucket map are invisible to every quantile. */
  lemma {:induction false} ZeroEntries(m: map<int, nat>, q: real)
    ensures SparseQuantile(map k | k in m && m[k] != 0 :: m[k], q) == SparseQuantile(m, q)
  {
    var n := map k | k in m && m[k] != 0 :: m[k];
    forall i ensures Cum(n, i) == Cum(m, i) {
      ZeroSum(Below(m, i));
      assert Below(n, i) == map k | k in Below(m, i) && Below(m, i)[k] != 0 :: Below(m, i)[k];
    }
    ZeroSum(m);
    if Sum(m) > 0 {
      var r := QuantileRank(q, Sum(m));
      var i := RankKey(n, r);
      assert IsRankKey(m, r, i);
      RankKeyUnique(m, r, i, RankKey(m, r));
    }
  }

  lemma {:induction false} ZeroSum(m: map<int, nat>)
    ensures Sum(map k | k in m && m[k] != 0 :: m[k]) == Sum(m)
    decreases |m|
  {
    var n := map k | k in m && m[k] != 0 :: m[k];
    if m == map[] {
      assert n == map[];
    } else {
      var k := SomeKey(m);
      var m' := m - {k};
      var n' := map x | x in m' && m'[x] != 0 :: m'[x];
      ZeroSum(m');
      SumRemove(m, k);
      if m[k] == 0 {
        assert n == n';
      } else {
        assert n == n'[k := m[k]];
        SumInsert(n', k, m[k]);
      }
    }
  }

  /** Dense walk, domain scan, sorted walk and SQL return one answer for every map that holds
      mass inside the domain. */
  method FormsAgree(m: map<int, nat>, q: real) returns (dense: real, scan: real, walk: real, sql: real)
    requires InDomain(m) && Sum(m) > 0 && 0.0 <= q <= 1.0
    ensures dense == scan == walk == sql
  {
    var sketch := DDSketch.FromBuckets(m);
    dense := sketch.Quantile(q);
    SparseIsDense(m, q);
    scan := ClientQuantile(m, q);
    walk := ServerQuantile(m, q);
    var ks := SortKeys(m.Keys);
    var total := TotalCount(m);
    sql := SqlPercentile(m, ks, total, q);
    SqlAgrees(m, ks, q);
  }

  // ---------- from observations to the dashboard ----------

  function Flatten(rows: seq<seq<real>>): seq<real> {
    if rows == [] then [] else Flatten(rows[..|rows| - 1]) + rows[|rows| - 1]
  }

  /** sumMap(latency_sketch) over rows that each carry the wire form of a window's sketch. */
  function GroupSketch(rows: seq<seq<real>>): map<int, nat> {
    if rows == [] then map[]
    else SumMap(GroupSketch(rows[..|rows| - 1]), ToMap(SketchOf(rows[|rows| - 1])))
  }

  /** sum(count) over the same rows. */
  function GroupCount(rows: seq<seq<real>>): nat {
    if rows == [] then 0 else GroupCount(rows[..|rows| - 1]) + |rows[|rows| - 1]|
  }

  lemma {:induction false} GroupIsSketch(rows: seq<seq<real>>)
    ensures GroupSketch(rows) == ToMap(SketchOf(Flatten(rows)))
    ensures GroupCount(rows) == |Flatten(rows)| == Sum(GroupSketch(rows))
  {
    if rows == [] {
      assert ToMap(Zeros()) == map[];
    } else {
      var n := |rows| - 1;
      GroupIsSketch(rows[..n]);
      SumMapIsMerge(SketchOf(Flatten(rows[..n])), SketchOf(rows[n]));
      MergeIsConcatenation(Flatten(rows[..n]), rows[n]);
    }
    DenseMass(SketchOf(Flatten(rows)));
    SketchMass(Flatten(rows));
  }

  lemma {:induction false} DashboardIsQuantile(rows: seq<seq<real>>, ks: seq<int>, q: real)
    requires Flatten(rows) != [] && SortedKeysOf(GroupSketch(rows), ks) && 0.0 <= q <= 1.0
    ensures SqlPercentile(GroupSketch(rows), ks, GroupCount(rows), q) == Quantile(SketchOf(Flatten(rows)), q)
  {
    GroupIsSketch(rows);
    SqlAgrees(GroupSketch(rows), ks, q);
    DenseIsSparse(SketchOf(Flatten(rows)), q);
  }

  /** End to end: the percentile the dashboard shows for a group of windows is within relative
      error alpha of the true order statistic of all their requests together. */
  lemma {:induction false} DashboardAccuracy(rows: seq<seq<real>>, ks: seq<int>, q: real)
    requires Flatten(rows) != [] && SortedKeysOf(GroupSketch(rows), ks) && 0.0 <= q <= 1.0
    ensures WithinAlpha(SqlPercentile(GroupSketch(rows), ks, GroupCount(rows), q),
                        Clamp(Sort(Flatten(rows))[QuantileRank(q, |Flatten(rows)|) - 1]))
  {
    DashboardIsQuantile(rows, ks, q);
    QuantileAccuracy(Flatten(rows), q);
  }
}
