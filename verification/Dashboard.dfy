/** From observed requests to the percentile on the dashboard: the summaries of delivered windows are
    stored as rows, and a query merges the rows of the series it selects. */
module Dashboard {
  import opened SketchMapping
  import opened SketchBuckets
  import opened SparseBuckets
  import opened Sorting
  import opened Quantiles
  import opened SeriesModel
  import opened SeriesKeys
  import opened Bags
  import opened Aggregation
  import opened Uploads
  import opened Pipeline

  // ---------- rows ----------

  /** The rows for lists of records, one summary each. */
  ghost function StoredRows(lists: seq<seq<Record>>): seq<Summary> {
    if lists == [] then [] else StoredRows(lists[..|lists| - 1]) + [SummaryOf(lists[|lists| - 1])]
  }

  /** sumMap(latency_sketch) */
  function SumSketch(rows: seq<Summary>): map<int, nat> {
    if rows == [] then map[] else SumMap(SumSketch(rows[..|rows| - 1]), rows[|rows| - 1].latencySketch)
  }

  /** sum(count) */
  function SumCount(rows: seq<Summary>): nat {
    if rows == [] then 0 else SumCount(rows[..|rows| - 1]) + rows[|rows| - 1].count
  }

  /** All records behind the rows. */
  function Joined(lists: seq<seq<Record>>): seq<Record> {
    if lists == [] then [] else Joined(lists[..|lists| - 1]) + lists[|lists| - 1]
  }

  function SecondsOf(lists: seq<seq<Record>>): seq<seq<real>> {
    if lists == [] then [] else SecondsOf(lists[..|lists| - 1]) + [AllSeconds(lists[|lists| - 1])]
  }

  lemma SnocCut<T>(s: seq<T>, x: T)
    ensures (s + [x])[..|s|] == s && (s + [x])[|s|] == x
  {
  }

  lemma {:induction false} SecondsAppend(a: seq<Record>, b: seq<Record>)
    ensures AllSeconds(a + b) == AllSeconds(a) + AllSeconds(b)
  {
    if b == [] {
      assert a + b == a;
    } else {
      assert (a + b)[..|a + b| - 1] == a + b[..|b| - 1];
      SecondsAppend(a, b[..|b| - 1]);
    }
  }

  lemma {:induction false} JoinedSeconds(lists: seq<seq<Record>>)
    ensures Flatten(SecondsOf(lists)) == AllSeconds(Joined(lists))
  {
    if lists != [] {
      var n := |lists| - 1;
      JoinedSeconds(lists[..n]);
      SnocCut(SecondsOf(lists[..n]), AllSeconds(lists[n]));
      SecondsAppend(Joined(lists[..n]), lists[n]);
    }
  }

  lemma {:induction false} CountOfSummaries(lists: seq<seq<Record>>)
    ensures SumCount(StoredRows(lists)) == GroupCount(SecondsOf(lists))
  {
    if lists != [] {
      var n := |lists| - 1;
      CountOfSummaries(lists[..n]);
      SnocCut(StoredRows(lists[..n]), SummaryOf(lists[n]));
      SnocCut(SecondsOf(lists[..n]), AllSeconds(lists[n]));
      SummaryMass(lists[n]);
    }
  }

  lemma {:induction false} SumSketchSnoc(rows: seq<Summary>, row: Summary)
    ensures SumSketch(rows + [row]) == SumMap(SumSketch(rows), row.latencySketch)
  {
    var both := rows + [row];
    assert both[..|both| - 1] == rows && both[|both| - 1] == row;
  }

  lemma {:induction false} GroupSketchSnoc(rows: seq<seq<real>>, row: seq<real>)
    ensures GroupSketch(rows + [row]) == SumMap(GroupSketch(rows), ToMap(SketchOf(row)))
  {
    SnocCut(rows, row);
  }

  /** Merging summaries is merging the sketches of the requests they stand for. */
  lemma {:induction false} GroupOfSummaries(lists: seq<seq<Record>>)
    ensures SumSketch(StoredRows(lists)) == GroupSketch(SecondsOf(lists))
  {
    if lists != [] {
      var n := |lists| - 1;
      GroupOfSummaries(lists[..n]);
      SumSketchSnoc(StoredRows(lists[..n]), SummaryOf(lists[n]));
      GroupSketchSnoc(SecondsOf(lists[..n]), AllSeconds(lists[n]));
      SummaryMass(lists[n]);
    }
  }

  // ---------- the order of rows and of requests does not matter ----------

  lemma {:induction false} JoinedAppend(a: seq<seq<Record>>, b: seq<seq<Record>>)
    ensures Joined(a + b) == Joined(a) + Joined(b)
  {
    if b == [] {
      assert a + b == a;
    } else {
      assert (a + b)[..|a + b| - 1] == a + b[..|b| - 1];
      JoinedAppend(a, b[..|b| - 1]);
    }
  }

  lemma JoinedSnoc(a: seq<seq<Record>>, x: seq<Record>)
    ensures Joined(a + [x]) == Joined(a) + x
  {
    SnocCut(a, x);
  }

  lemma {:induction false} JoinedOrderFree(a: seq<seq<Record>>, b: seq<seq<Record>>)
    requires multiset(a) == multiset(b)
    ensures multiset(Joined(a)) == multiset(Joined(b))
    decreases |a|
  {
    if a == [] {
      assert |multiset(b)| == 0;
    } else {
      var n := |a| - 1;
      var l, r := SplitAtLast(a, b);
      JoinedOrderFree(a[..n], l + r);
      JoinedAppend(l, r);
      JoinedSnoc(l, a[n]);
      JoinedAppend(l + [a[n]], r);
    }
  }

  lemma SecondsSnoc(a: seq<Record>, x: Record)
    ensures AllSeconds(a + [x]) == AllSeconds(a) + [Seconds(x)]
  {
    SnocCut(a, x);
  }

  lemma {:induction false} SecondsOrderFree(a: seq<Record>, b: seq<Record>)
    requires multiset(a) == multiset(b)
    ensures multiset(AllSeconds(a)) == multiset(AllSeconds(b))
    decreases |a|
  {
    if a == [] {
      assert |multiset(b)| == 0;
    } else {
      var n := |a| - 1;
      var l, r := SplitAtLast(a, b);
      SecondsOrderFree(a[..n], l + r);
      SecondsAppend(l, r);
      SecondsSnoc(l, a[n]);
      SecondsAppend(l + [a[n]], r);
    }
  }

  // ---------- accuracy over summaries ----------

  /** The percentile column over some rows. */
  function Percentile(rows: seq<Summary>, ks: seq<int>, q: real): real
    requires SortedKeysOf(SumSketch(rows), ks) && 0.0 <= q <= 1.0
  {
    SqlPercentile(SumSketch(rows), ks, SumCount(rows), q)
  }

  /** The order statistic that a quantile asks for. */
  function SampleQuantile(xs: seq<real>, q: real): real
    requires xs != []
  {
    Clamp(Sort(xs)[QuantileRank(q, |xs|) - 1])
  }

  /** The true quantile of the durations of some requests, in seconds. */
  function TrueQuantile(all: seq<Record>, q: real): real
    requires all != []
  {
    assert |AllSeconds(all)| > 0;
    SampleQuantile(AllSeconds(all), q)
  }

  lemma {:induction false} PercentileIsQuantile(lists: seq<seq<Record>>, ks: seq<int>, q: real)
    requires Joined(lists) != [] && SortedKeysOf(SumSketch(StoredRows(lists)), ks) && 0.0 <= q <= 1.0
    ensures Percentile(StoredRows(lists), ks, q) == Quantile(SketchOf(AllSeconds(Joined(lists))), q)
  {
    GroupOfSummaries(lists);
    CountOfSummaries(lists);
    JoinedSeconds(lists);
    assert |AllSeconds(Joined(lists))| > 0;
    DashboardIsQuantile(SecondsOf(lists), ks, q);
  }

  lemma {:induction false} SampleAccuracy(xs: seq<real>, ys: seq<real>, q: real)
    requires multiset(xs) == multiset(ys) && xs != []
    ensures WithinAlpha(Quantile(SketchOf(ys), q), SampleQuantile(xs, q))
  {
    SketchIsOrderFree(xs, ys);
    QuantileAccuracy(xs, q);
  }

  lemma {:induction false} QuantileOfAll(all: seq<Record>, rs: seq<Record>, q: real)
    requires multiset(all) == multiset(rs) && all != []
    ensures WithinAlpha(Quantile(SketchOf(AllSeconds(rs)), q), TrueQuantile(all, q))
  {
    SecondsOrderFree(all, rs);
    SampleAccuracy(AllSeconds(all), AllSeconds(rs), q);
  }

  /** The percentile over the summaries of any lists of requests, in any order, is within relative error
      alpha of the true quantile of all those requests together. */
  lemma {:induction false} SummariesAccuracy(lists: seq<seq<Record>>, ks: seq<int>, q: real, all: seq<Record>)
    requires multiset(all) == multiset(Joined(lists)) && all != []
    requires SortedKeysOf(SumSketch(StoredRows(lists)), ks) && 0.0 <= q <= 1.0
    ensures WithinAlpha(Percentile(StoredRows(lists), ks, q), TrueQuantile(all, q))
  {
    assert all[0] in multiset(Joined(lists));
    PercentileIsQuantile(lists, ks, q);
    QuantileOfAll(all, Joined(lists), q);
  }

  // ---------- the rows of windows ----------

  /** The record lists behind a window's summaries. */
  ghost function Listing(w: Window): seq<seq<Record>>
    decreases |w|
  {
    if w == map[] then []
    else
      var k :| k in w;
      Listing(w - {k}) + [w[k]]
  }

  ghost function StoredLists(ws: seq<Window>): seq<seq<Record>> {
    if ws == [] then [] else StoredLists(ws[..|ws| - 1]) + Listing(ws[|ws| - 1])
  }

  lemma {:induction false} ListingBag(w: Window)
    ensures multiset(Joined(Listing(w))) == Bag(w)
    decreases |w|
  {
    if w != map[] {
      var k :| k in w && Listing(w) == Listing(w - {k}) + [w[k]];
      ListingBag(w - {k});
      JoinedSnoc(Listing(w - {k}), w[k]);
      BagRemove(w, k);
    }
  }

  lemma {:induction false} StoredBag(ws: seq<Window>)
    ensures multiset(Joined(StoredLists(ws))) == WindowsBag(ws)
  {
    if ws != [] {
      var n := |ws| - 1;
      StoredBag(ws[..n]);
      ListingBag(ws[n]);
      JoinedAppend(StoredLists(ws[..n]), Listing(ws[n]));
    }
  }

  // ---------- queries that select series ----------

  /** The summaries that a WHERE clause on method, route and status class lets through. */
  function Restrict(w: Window, p: SeriesKey -> bool): Window {
    map k | k in w && p(k) :: w[k]
  }

  function Selected(ws: seq<Window>, p: SeriesKey -> bool): seq<Window> {
    if ws == [] then [] else Selected(ws[..|ws| - 1], p) + [Restrict(ws[|ws| - 1], p)]
  }

  ghost predicate WindowsKeyed(ws: seq<Window>) {
    forall i :: 0 <= i < |ws| ==> WindowKeyed(ws[i])
  }

  lemma NotOfKey(rs: seq<Record>, k: SeriesKey, r: Record)
    requires OfKey(rs, k) && KeyOf(r) != k
    ensures multiset(rs)[r] == 0
  {
    assert forall x :: x in rs ==> KeyOf(x) == k;
  }

  lemma {:induction false} RestrictRemove(w: Window, p: SeriesKey -> bool, k: SeriesKey)
    requires k in w
    ensures Bag(Restrict(w, p)) == Bag(Restrict(w - {k}, p)) + if p(k) then multiset(w[k]) else multiset{}
  {
    if p(k) {
      assert Restrict(w, p) - {k} == Restrict(w - {k}, p);
      BagRemove(Restrict(w, p), k);
    } else {
      assert Restrict(w, p) == Restrict(w - {k}, p);
    }
  }

  /** Restricting a window keeps exactly the requests whose series is selected. */
  lemma {:induction false} RestrictBag(w: Window, p: SeriesKey -> bool, r: Record)
    requires WindowKeyed(w)
    ensures Bag(Restrict(w, p))[r] == if p(KeyOf(r)) then Bag(w)[r] else 0
    decreases |w|
  {
    if w == map[] {
      assert Restrict(w, p) == map[];
    } else {
      var k :| k in w;
      RestrictBag(w - {k}, p, r);
      BagRemove(w, k);
      RestrictRemove(w, p, k);
      if KeyOf(r) != k {
        NotOfKey(w[k], k, r);
      }
    }
  }

  lemma {:induction false} SelectedBag(ws: seq<Window>, p: SeriesKey -> bool, r: Record)
    requires WindowsKeyed(ws)
    ensures WindowsBag(Selected(ws, p))[r] == if p(KeyOf(r)) then WindowsBag(ws)[r] else 0
  {
    if ws != [] {
      var n := |ws| - 1;
      SelectedBag(ws[..n], p, r);
      RestrictBag(ws[n], p, r);
      WindowsSnoc(Selected(ws[..n], p), Restrict(ws[n], p));
    }
  }

  /** all lists, in any order, the requests in from whose series p selects. */
  ghost predicate Selects(all: seq<Record>, p: SeriesKey -> bool, from: multiset<Record>) {
    forall r :: multiset(all)[r] == if p(KeyOf(r)) then from[r] else 0
  }

  /** lists are the record lists behind the selected rows of ws, in any order. */
  ghost predicate RowsOf(lists: seq<seq<Record>>, ws: seq<Window>, p: SeriesKey -> bool) {
    multiset(lists) == multiset(StoredLists(Selected(ws, p)))
  }

  lemma {:induction false} SelectedRecords(
    lists: seq<seq<Record>>, ws: seq<Window>, p: SeriesKey -> bool, all: seq<Record>)
    requires WindowsKeyed(ws) && RowsOf(lists, ws, p) && Selects(all, p, WindowsBag(ws))
    ensures multiset(all) == multiset(Joined(lists))
  {
    var sel := Selected(ws, p);
    JoinedOrderFree(lists, StoredLists(sel));
    StoredBag(sel);
    forall r ensures multiset(all)[r] == WindowsBag(sel)[r] {
      SelectedBag(ws, p, r);
    }
  }

  /** Every selection from any windows has its rows, and they stand for exactly the requests it is about. */
  lemma {:induction false} EverySelectionHasRows(ws: seq<Window>, p: SeriesKey -> bool)
    returns (lists: seq<seq<Record>>, all: seq<Record>)
    requires WindowsKeyed(ws)
    ensures RowsOf(lists, ws, p) && all == Joined(lists) && Selects(all, p, WindowsBag(ws))
  {
    lists := StoredLists(Selected(ws, p));
    all := Joined(lists);
    StoredBag(Selected(ws, p));
    forall r ensures multiset(all)[r] == if p(KeyOf(r)) then WindowsBag(ws)[r] else 0 {
      SelectedBag(ws, p, r);
    }
  }

  /** A percentile over the selected rows of any windows is within alpha of the true quantile of the
      requests of the selected series. */
  lemma {:induction false} SelectionAccuracy(
    lists: seq<seq<Record>>, ws: seq<Window>, p: SeriesKey -> bool, ks: seq<int>, q: real, all: seq<Record>)
    requires WindowsKeyed(ws) && RowsOf(lists, ws, p) && Selects(all, p, WindowsBag(ws)) && all != []
    requires SortedKeysOf(SumSketch(StoredRows(lists)), ks) && 0.0 <= q <= 1.0
    ensures WithinAlpha(Percentile(StoredRows(lists), ks, q), TrueQuantile(all, q))
  {
    SelectedRecords(lists, ws, p, all);
    SummariesAccuracy(lists, ks, q, all);
  }

  // ---------- end to end ----------

  lemma {:induction false} DeliveredKeyed(flushed: seq<Window>, fates: seq<Fate>)
    requires |fates| <= |flushed| && WindowsKeyed(flushed)
    ensures WindowsKeyed(DeliveredWindows(flushed, fates))
  {
    if fates != [] {
      DeliveredKeyed(flushed, fates[..|fates| - 1]);
    }
  }

  /** Over every run of recorder and uploader: whatever part of the delivered windows a query selects, the
      percentile it shows is within alpha of the true quantile of the delivered requests it is about. */
  lemma {:induction false} DeliveredAccuracy(
    h: SeriesKey -> Shard, cap: nat, steps: seq<Pipeline.Step>, u: Uploader,
    lists: seq<seq<Record>>, p: SeriesKey -> bool, ks: seq<int>, q: real, all: seq<Record>)
    requires 1 <= cap && u == RunLoop(cap, LoopEvents(h, steps))
    requires RowsOf(lists, DeliveredWindows(u.flushed, u.fates), p)
    requires Selects(all, p, WindowsBag(DeliveredWindows(u.flushed, u.fates))) && all != []
    requires SortedKeysOf(SumSketch(StoredRows(lists)), ks) && 0.0 <= q <= 1.0
    ensures WithinAlpha(Percentile(StoredRows(lists), ks, q), TrueQuantile(all, q))
  {
    FlushedAreBuilt(h, cap, steps);
    RunKeyed(h, ClientEvents(steps));
    DeliveredKeyed(u.flushed, u.fates);
    SelectionAccuracy(lists, DeliveredWindows(u.flushed, u.fates), p, ks, q, all);
  }

  lemma {:induction false} LastWindowKeyed(h: SeriesKey -> Shard, es: seq<Event>)
    ensures WindowKeyed(LastWindow(h, es))
  {
    var fs := es + Swaps(NUM_SHARDS);
    RunInvariant(h, fs);
    RunKeyed(h, fs);
    ContentsKeyed(Run(h, fs).merged, Run(h, fs));
  }

  /** Nothing was evicted, so the delivered windows are all windows. */
  lemma {:induction false} NoneEvicted(flushed: seq<Window>, fates: seq<Fate>)
    requires |fates| <= |flushed| && forall i :: 0 <= i < |fates| ==> fates[i].Acked?
    ensures EvictedWindows(flushed, fates) == []
  {
    if fates != [] {
      NoneEvicted(flushed, fates[..|fates| - 1]);
    }
  }

  /** The uploader after a graceful stop that drained the ring. */
  ghost predicate Stopped(h: SeriesKey -> Shard, cap: nat, steps: seq<Pipeline.Step>, v: Uploader)
    requires 1 <= cap
  {
    && !Run(h, ClientEvents(steps)).flushing
    && v.flushed == WithWindow(RunLoop(cap, LoopEvents(h, steps)).flushed, LastWindow(h, ClientEvents(steps)))
    && History(v) && v.ring == []
  }

  lemma {:induction false} StoppedKeyed(h: SeriesKey -> Shard, cap: nat, steps: seq<Pipeline.Step>, v: Uploader)
    requires 1 <= cap && Stopped(h, cap, steps, v)
    ensures WindowsKeyed(DeliveredWindows(v.flushed, v.fates))
  {
    FlushedAreBuilt(h, cap, steps);
    RunKeyed(h, ClientEvents(steps));
    LastWindowKeyed(h, ClientEvents(steps));
    DeliveredKeyed(v.flushed, v.fates);
  }

  lemma {:induction false} AllDelivered(h: SeriesKey -> Shard, cap: nat, steps: seq<Pipeline.Step>, v: Uploader)
    requires 1 <= cap && Stopped(h, cap, steps, v) && !HasRacyCopy(h, ClientEvents(steps))
    requires forall i :: 0 <= i < |v.fates| ==> v.fates[i].Acked?
    ensures WindowsBag(DeliveredWindows(v.flushed, v.fates)) == Accepted(ClientEvents(steps))
  {
    ShutdownConserves(h, cap, steps, v, LastWindow(h, ClientEvents(steps)));
    NoneEvicted(v.flushed, v.fates);
  }

  /** From the observed requests to the dashboard: after a graceful stop that drained the ring, with no copy
      raced and nothing evicted, the percentile that any query shows is within alpha of the true
      quantile of all requests ever observed for the series it selects. */
  lemma {:induction false} ObservedAccuracy(
    h: SeriesKey -> Shard, cap: nat, steps: seq<Pipeline.Step>, v: Uploader,
    lists: seq<seq<Record>>, p: SeriesKey -> bool, ks: seq<int>, q: real, all: seq<Record>)
    requires 1 <= cap && Stopped(h, cap, steps, v) && !HasRacyCopy(h, ClientEvents(steps))
    requires forall i :: 0 <= i < |v.fates| ==> v.fates[i].Acked?
    requires RowsOf(lists, DeliveredWindows(v.flushed, v.fates), p)
    requires Selects(all, p, Accepted(ClientEvents(steps))) && all != []
    requires SortedKeysOf(SumSketch(StoredRows(lists)), ks) && 0.0 <= q <= 1.0
    ensures WithinAlpha(Percentile(StoredRows(lists), ks, q), TrueQuantile(all, q))
  {
    AllDelivered(h, cap, steps, v);
    StoppedKeyed(h, cap, steps, v);
    SelectionAccuracy(lists, DeliveredWindows(v.flushed, v.fates), p, ks, q, all);
  }
}
