/** Median rules of the dashboard: the latency baseline and the instance outlier flag. */
module Medians {
  import opened Sorting
  import opened SketchBuckets
  import opened Quantiles

  const MIN_BASELINE_BUCKETS: nat := 30
  const P95_OUTLIER_FLOOR: real := 0.1

  /** The middle of a sorted sample, as far from its lower as from its upper middle value. */
  function Median(sorted: seq<real>): (m: real)
    requires sorted != []
    ensures m - sorted[(|sorted| - 1) / 2] == sorted[|sorted| / 2] - m
  {
    var n := |sorted|;
    if n % 2 == 1 then sorted[n / 2] else (sorted[n / 2 - 1] + sorted[n / 2]) / 2.0
  }

  // ---------- counting ----------

  function Count(xs: seq<real>, p: real -> bool): (c: nat)
    ensures c <= |xs|
  {
    if xs == [] then 0 else Count(xs[..|xs| - 1], p) + if p(xs[|xs| - 1]) then 1 else 0
  }

  function InRange(lo: real, hi: real): real -> bool { x => lo <= x <= hi }

  function AtLeast(lo: real): real -> bool { x => lo <= x }

  lemma {:induction false} CountAppend(a: seq<real>, b: seq<real>, p: real -> bool)
    ensures Count(a + b, p) == Count(a, p) + Count(b, p)
  {
    if b == [] {
      assert a + b == a;
    } else {
      assert (a + b)[..|a + b| - 1] == a + b[..|b| - 1];
      CountAppend(a, b[..|b| - 1], p);
    }
  }

  lemma {:induction false} CountNone(xs: seq<real>, p: real -> bool)
    requires forall i :: 0 <= i < |xs| ==> !p(xs[i])
    ensures Count(xs, p) == 0
  {
    if xs != [] {
      CountNone(xs[..|xs| - 1], p);
    }
  }

  lemma {:induction false} CountAll(xs: seq<real>, p: real -> bool)
    requires forall i :: 0 <= i < |xs| ==> p(xs[i])
    ensures Count(xs, p) == |xs|
  {
    if xs != [] {
      CountAll(xs[..|xs| - 1], p);
    }
  }

  lemma {:induction false} CountOrderFree(xs: seq<real>, ys: seq<real>, p: real -> bool)
    requires multiset(xs) == multiset(ys)
    ensures Count(xs, p) == Count(ys, p)
    decreases |xs|
  {
    if xs == [] {
      assert |multiset(ys)| == 0;
    } else {
      var x := xs[|xs| - 1];
      var a, b := SplitAtLast(xs, ys);
      CountOrderFree(xs[..|xs| - 1], a + b, p);
      CountAppend(a, b, p);
      CountAppend(a, [x], p);
      CountAppend(a + [x], b, p);
      assert (a + [x])[..|a|] == a;
    }
  }

  /** If nothing from position k on counts, at most k do; likewise for nothing before k. */
  lemma {:induction false} CountSplit(s: seq<real>, k: nat, p: real -> bool)
    requires k <= |s|
    ensures (forall i :: k <= i < |s| ==> !p(s[i])) ==> Count(s, p) <= k
    ensures (forall i :: 0 <= i < k ==> !p(s[i])) ==> Count(s, p) <= |s| - k
  {
    assert s == s[..k] + s[k..];
    CountAppend(s[..k], s[k..], p);
    if forall i :: k <= i < |s| ==> !p(s[i]) {
      CountNone(s[k..], p);
    }
    if forall i :: 0 <= i < k ==> !p(s[i]) {
      CountNone(s[..k], p);
    }
  }

  // ---------- robustness ----------

  /** If most of the sample lies in [lo, hi], so does element k of its sorted order, for the middle k. */
  lemma {:induction false} MiddleInRange(s: seq<real>, lo: real, hi: real, k: nat)
    requires Sorted(s) && k < |s| && |s| <= 2 * (k + 1) && 2 * k <= |s|
    requires 2 * Count(s, InRange(lo, hi)) > |s|
    ensures lo <= s[k] <= hi
  {
    var p := InRange(lo, hi);
    if s[k] < lo {
      assert forall i :: 0 <= i < k + 1 ==> !p(s[i]);
      CountSplit(s, k + 1, p);
    } else if s[k] > hi {
      assert forall i :: k <= i < |s| ==> !p(s[i]);
      CountSplit(s, k, p);
    }
  }

  lemma {:induction false} SortedMedianRobust(s: seq<real>, lo: real, hi: real)
    requires Sorted(s) && s != [] && 2 * Count(s, InRange(lo, hi)) > |s|
    ensures lo <= Median(s) <= hi
  {
    var n := |s|;
    MiddleInRange(s, lo, hi, n / 2);
    if n % 2 == 0 {
      MiddleInRange(s, lo, hi, n / 2 - 1);
    }
  }

  /** The median cannot be moved out of a range that holds more than half of the sample. */
  lemma {:induction false} MedianRobust(xs: seq<real>, lo: real, hi: real)
    requires xs != [] && 2 * Count(xs, InRange(lo, hi)) > |xs|
    ensures lo <= Median(Sort(xs)) <= hi
  {
    CountOrderFree(xs, Sort(xs), InRange(lo, hi));
    SortedMedianRobust(Sort(xs), lo, hi);
  }

  // ---------- majorities ----------

  /** A bar reached by the upper middle of a sorted sample is reached by at least half of it. */
  lemma {:induction false} HalfReaches(s: seq<real>, bar: real)
    requires Sorted(s) && s != []
    ensures 2 * Count(s, AtLeast(bar)) >= |s| <==> s[|s| / 2] >= bar
  {
    var k, p := |s| / 2, AtLeast(bar);
    if s[k] >= bar {
      assert s == s[..k] + s[k..];
      CountAppend(s[..k], s[k..], p);
      CountAll(s[k..], p);
    } else {
      assert forall i :: 0 <= i < k + 1 ==> !p(s[i]);
      CountSplit(s, k + 1, p);
    }
  }

  /** Fewer than half of a sample reach twice its median, that is at most (n-1)/2 of n, if and only if
      its lower middle is positive. */
  lemma {:induction false} FewReachTwice(xs: seq<real>, s: seq<real>, med: real)
    requires xs != [] && Sorted(s) && multiset(s) == multiset(xs) && |s| == |xs| && med == Median(s)
    ensures 2 * Count(xs, AtLeast(2.0 * med)) < |xs| <==> s[(|s| - 1) / 2] > 0.0
  {
    CountOrderFree(xs, s, AtLeast(2.0 * med));
    HalfReaches(s, 2.0 * med);
  }

  // ---------- the baseline ----------

  datatype TimePoint = TimePoint(count: nat, p95: real)

  /** The p95 of the buckets that saw traffic. */
  function Trafficked(points: seq<TimePoint>): seq<real> {
    if points == [] then []
    else
      Trafficked(points[..|points| - 1]) + if points[|points| - 1].count > 0 then [points[|points| - 1].p95] else []
  }

  method CollectP95s(points: seq<TimePoint>) returns (p95s: seq<real>)
    ensures p95s == Trafficked(points)
  {
    p95s := [];
    for i := 0 to |points|
      invariant p95s == Trafficked(points[..i])
    {
      assert points[..i + 1][..i] == points[..i];
      if points[i].count > 0 {
        p95s := p95s + [points[i].p95];
      }
    }
    assert points[..|points|] == points;
  }

  /** The baseline median exists when at least thirty buckets saw traffic, and stays inside every
      range that holds more than half of them. */
  method BaselineMedianP95(baseline: seq<TimePoint>) returns (m: real, ok: bool)
    ensures ok <==> |Trafficked(baseline)| >= MIN_BASELINE_BUCKETS
    ensures ok ==> m == Median(Sort(Trafficked(baseline)))
    ensures ok ==> forall lo, hi ::
      2 * Count(Trafficked(baseline), InRange(lo, hi)) > |Trafficked(baseline)| ==> lo <= m <= hi
  {
    var p95s := CollectP95s(baseline);
    if |p95s| < MIN_BASELINE_BUCKETS {
      return 0.0, false;
    }
    m, ok := Median(Sort(p95s)), true;
    forall lo, hi | 2 * Count(p95s, InRange(lo, hi)) > |p95s| ensures lo <= m <= hi {
      MedianRobust(p95s, lo, hi);
    }
  }

  // ---------- instance outliers ----------

  /** The fleet median over trafficked instances, 0 when there are none. */
  function FleetMedian(p95s: seq<real>): real {
    if p95s == [] then 0.0 else Median(Sort(p95s))
  }

  predicate OutlierAt(instances: nat, med: real, p95: real) {
    instances >= 2 && p95 >= 2.0 * med && p95 >= P95_OUTLIER_FLOOR
  }

  predicate Outlier(p95s: seq<real>, p95: real) {
    OutlierAt(|p95s|, FleetMedian(p95s), p95)
  }

  method FlagRows(stats: seq<TimePoint>, instances: nat, med: real) returns (flags: seq<bool>)
    ensures |flags| == |stats|
    ensures forall i :: 0 <= i < |stats| ==> flags[i] == OutlierAt(instances, med, stats[i].p95)
  {
    flags := [];
    for i := 0 to |stats|
      invariant |flags| == i
      invariant forall j :: 0 <= j < i ==> flags[j] == OutlierAt(instances, med, stats[j].p95)
    {
      var isOutlier := instances >= 2 && stats[i].p95 >= 2.0 * med && stats[i].p95 >= P95_OUTLIER_FLOOR;
      flags := flags + [isOutlier];
    }
  }

  /** How many instances with traffic carry a flag. */
  function FlaggedCount(stats: seq<TimePoint>, flags: seq<bool>): nat
    requires |flags| == |stats|
  {
    if stats == [] then 0
    else
      var n := |stats| - 1;
      FlaggedCount(stats[..n], flags[..n]) + if flags[n] && stats[n].count > 0 then 1 else 0
  }

  /** The two latency conditions as one bar. */
  function Bar(med: real): (bar: real)
    ensures forall x: real :: AtLeast(bar)(x) <==> x >= 2.0 * med && x >= P95_OUTLIER_FLOOR
  {
    if 2.0 * med >= P95_OUTLIER_FLOOR then 2.0 * med else P95_OUTLIER_FLOOR
  }

  lemma CountSnoc(xs: seq<real>, x: real, p: real -> bool)
    ensures Count(xs + [x], p) == Count(xs, p) + if p(x) then 1 else 0
    ensures xs + [] == xs
  {
    assert (xs + [x])[..|xs|] == xs;
  }

  lemma {:induction false} FlagsReachBar(stats: seq<TimePoint>, flags: seq<bool>, bar: real)
    requires |flags| == |stats| && forall i :: 0 <= i < |stats| ==> flags[i] == AtLeast(bar)(stats[i].p95)
    ensures FlaggedCount(stats, flags) == Count(Trafficked(stats), AtLeast(bar))
  {
    if stats != [] {
      var n := |stats| - 1;
      FlagsReachBar(stats[..n], flags[..n], bar);
      CountSnoc(Trafficked(stats[..n]), stats[n].p95, AtLeast(bar));
    }
  }

  lemma {:induction false} NoFlags(stats: seq<TimePoint>, flags: seq<bool>)
    requires |flags| == |stats| && forall i :: 0 <= i < |stats| ==> !flags[i]
    ensures FlaggedCount(stats, flags) == 0
  {
    if stats != [] {
      NoFlags(stats[..|stats| - 1], flags[..|stats| - 1]);
    }
  }

  /** The middle pair of a sorted even sample straddles the range from zero to the floor. */
  predicate MiddleGap(s: seq<real>) {
    && |s| > 0 && |s| % 2 == 0
    && s[|s| / 2 - 1] <= 0.0 && s[|s| / 2] >= P95_OUTLIER_FLOOR
  }

  lemma {:induction false} UpperMiddleReachesBar(s: seq<real>)
    requires Sorted(s) && s != []
    ensures s[|s| / 2] >= Bar(Median(s)) <==> MiddleGap(s)
  {
    assert AtLeast(Bar(Median(s)))(s[|s| / 2]) <==> s[|s| / 2] >= Bar(Median(s));
  }

  lemma {:induction false} BarHalf(p95s: seq<real>, s: seq<real>, bar: real)
    requires p95s != [] && Sorted(s) && multiset(s) == multiset(p95s) && |s| == |p95s| && bar == Bar(Median(s))
    ensures 2 * Count(p95s, AtLeast(bar)) < |p95s| <==> !MiddleGap(s)
  {
    CountOrderFree(p95s, s, AtLeast(bar));
    HalfReaches(s, bar);
    UpperMiddleReachesBar(s);
  }

  /** The flags that the rule gives to the instances of a fleet with p95s its trafficked latencies. */
  ghost predicate FlagsOf(stats: seq<TimePoint>, p95s: seq<real>, med: real, flags: seq<bool>) {
    && p95s == Trafficked(stats) && |flags| == |stats|
    && forall i :: 0 <= i < |stats| ==> flags[i] == OutlierAt(|p95s|, med, stats[i].p95)
  }

  /** The flagged instances are fewer than half of those with traffic, so that none of two is ever an
      outlier, if and only if the middle pair of the sorted latencies leaves no gap. */
  lemma {:induction false} OutliersAreFew(
    stats: seq<TimePoint>, p95s: seq<real>, s: seq<real>, med: real, flags: seq<bool>)
    requires FlagsOf(stats, p95s, med, flags) && p95s != []
    requires Sorted(s) && multiset(s) == multiset(p95s) && |s| == |p95s| && med == Median(s)
    ensures 2 * FlaggedCount(stats, flags) < |p95s| <==> !MiddleGap(s)
  {
    if |p95s| == 1 {
      NoFlags(stats, flags);
    } else {
      FlagsReachBar(stats, flags, Bar(med));
      BarHalf(p95s, s, Bar(med));
    }
  }

  /** Flags per instance, in storage order; they mark fewer than half of the fleet unless the middle
      pair of its latencies leaves a gap. */
  method ToInstanceRows(stats: seq<TimePoint>) returns (flags: seq<bool>)
    ensures |flags| == |stats|
    ensures forall i :: 0 <= i < |stats| ==> flags[i] == Outlier(Trafficked(stats), stats[i].p95)
    ensures Trafficked(stats) != [] ==>
      (2 * FlaggedCount(stats, flags) < |Trafficked(stats)| <==> !MiddleGap(Sort(Trafficked(stats))))
  {
    var p95s := CollectP95s(stats);
    var med := 0.0;
    if |p95s| > 0 {
      med := Median(Sort(p95s));
    }
    assert med == FleetMedian(p95s);
    flags := FlagRows(stats, |p95s|, med);
    if |p95s| > 0 {
      OutliersAreFew(stats, p95s, Sort(p95s), med, flags);
    }
  }

  // ---------- the rows the page can receive ----------

  lemma {:induction false} TraffickedArePoints(points: seq<TimePoint>)
    ensures forall x :: x in Trafficked(points) ==> exists i :: 0 <= i < |points| && points[i].p95 == x
  {
    if points != [] {
      var n := |points| - 1;
      TraffickedArePoints(points[..n]);
      forall x | x in Trafficked(points) ensures exists i :: 0 <= i < |points| && points[i].p95 == x {
        if x in Trafficked(points[..n]) {
          var i :| 0 <= i < n && points[..n][i].p95 == x;
          assert points[i].p95 == x;
        } else {
          assert points[n].p95 == x;
        }
      }
    }
  }

  /** Every row's p95 is the percentile column of the instance query over some group. */
  ghost predicate Stored(stats: seq<TimePoint>) {
    forall i :: 0 <= i < |stats| ==> StoredP95(stats[i].p95)
  }

  ghost predicate StoredP95(p95: real) {
    exists merged, ks, total :: SortedKeysOf(merged, ks) && p95 == SqlPercentile(merged, ks, total, 0.95)
  }

  /** A percentile column is never zero, not even over an empty group. */
  lemma StoredIsPositive(stats: seq<TimePoint>, x: real)
    requires Stored(stats) && x in Trafficked(stats)
    ensures x > 0.0
  {
    TraffickedArePoints(stats);
    var i :| 0 <= i < |stats| && stats[i].p95 == x;
    var merged, ks, total :| SortedKeysOf(merged, ks) && x == SqlPercentile(merged, ks, total, 0.95);
  }

  lemma SameElements(s: seq<real>, xs: seq<real>, i: nat)
    requires multiset(s) == multiset(xs) && i < |s|
    ensures s[i] in xs
  {
    assert s[i] in multiset(s);
  }

  /** Rows read from storage leave no gap. */
  lemma {:induction false} StoredHaveNoGap(stats: seq<TimePoint>, s: seq<real>)
    requires Stored(stats) && multiset(s) == multiset(Trafficked(stats))
    ensures !MiddleGap(s)
  {
    forall i | 0 <= i < |s| ensures s[i] > 0.0 {
      SameElements(s, Trafficked(stats), i);
      StoredIsPositive(stats, s[i]);
    }
  }

  /** On rows read from storage fewer than half of the instances with traffic are flagged: a slow
      majority is a fleet problem, and of two instances neither is an outlier. */
  lemma {:induction false} StoredOutliersAreFew(
    stats: seq<TimePoint>, p95s: seq<real>, s: seq<real>, med: real, flags: seq<bool>)
    requires FlagsOf(stats, p95s, med, flags) && p95s != [] && Stored(stats)
    requires Sorted(s) && multiset(s) == multiset(p95s) && |s| == |p95s| && med == Median(s)
    ensures 2 * FlaggedCount(stats, flags) < |p95s|
    ensures |p95s| == 2 ==> FlaggedCount(stats, flags) == 0
  {
    StoredHaveNoGap(stats, s);
    OutliersAreFew(stats, p95s, s, med, flags);
  }

  lemma PairTrafficked(a: TimePoint, b: TimePoint)
    requires a.count > 0 && b.count > 0
    ensures Trafficked([a, b]) == [a.p95, b.p95]
  {
    assert [a, b][..1] == [a] && [a][..0] == [];
    assert Trafficked([a]) == [a.p95];
  }

  lemma PairSorted(x: real, y: real)
    requires x <= y
    ensures Sort([x, y]) == [x, y]
  {
    assert [x, y][..1] == [x] && [x][..0] == [];
    assert Sort([x]) == [x];
  }

  lemma PairFlagged(a: TimePoint, b: TimePoint, flags: seq<bool>)
    requires |flags| == 2 && a.count > 0 && b.count > 0
    ensures FlaggedCount([a, b], flags) == (if flags[0] then 1 else 0) + (if flags[1] then 1 else 0)
  {
    assert [a, b][..1] == [a] && flags[..1] == [flags[0]] && [a][..0] == [] && [flags[0]][..0] == [];
    assert FlaggedCount([a], [flags[0]]) == if flags[0] then 1 else 0;
  }

  lemma PairMedian(a: TimePoint, b: TimePoint, p95s: seq<real>)
    requires a.count > 0 && b.count > 0 && a.p95 <= b.p95 && p95s == Trafficked([a, b])
    ensures |p95s| == 2 && 2.0 * FleetMedian(p95s) == a.p95 + b.p95
  {
    PairTrafficked(a, b);
    PairSorted(a.p95, b.p95);
  }

  /** The gap is real for the rule itself: beside an instance with p95 zero, the other of two is
      flagged. */
  method GapFlagsOneOfTwo() returns (flags: seq<bool>)
    ensures flags == [false, true] && FlaggedCount([TimePoint(1, 0.0), TimePoint(1, 0.5)], flags) == 1
  {
    var fast, slow := TimePoint(1, 0.0), TimePoint(1, 0.5);
    var stats := [fast, slow];
    PairMedian(fast, slow, Trafficked(stats));
    flags := ToInstanceRows(stats);
    assert stats[0] == fast && stats[1] == slow;
    PairFlagged(fast, slow, flags);
  }
}
