/** Aggregation and upload together: where every observed request is, over whole runs. */
module Pipeline {
  import opened Prelude
  import opened SeriesModel
  import opened SeriesKeys
  import opened Bags
  import opened Aggregation
  import opened Uploads

  /** A step of the aggregation, or the retry timer firing with the outcome of its send. */
  datatype Step = Client(e: Event) | Retry(ok: bool)

  function ClientEvents(steps: seq<Step>): seq<Event> {
    if steps == [] then []
    else
      ClientEvents(steps[..|steps| - 1]) +
      match steps[|steps| - 1] case Client(e) => [e] case Retry(_) => []
  }

  /** The window a build hands to the ring, if it builds one. */
  function BuiltWindow(s: State, e: Event): Window {
    if e.Build? && Enabled(s, e) then Contents(s.merged, s.heap) else map[]
  }

  /** What the uploader sees of a run: each window built is flushed, each firing retries. */
  function LoopEvents(h: SeriesKey -> Shard, steps: seq<Step>): seq<LoopEvent> {
    if steps == [] then []
    else
      var before := steps[..|steps| - 1];
      LoopEvents(h, before) +
      match steps[|steps| - 1]
      case Client(e) => [FlushFired(BuiltWindow(Run(h, ClientEvents(before)), e))]
      case Retry(ok) => [RetryFired(ok)]
  }

  // ---------- every window built is in the ring, delivered or evicted ----------

  function DeliveredWindows(flushed: seq<Window>, fates: seq<Fate>): seq<Window>
    requires |fates| <= |flushed|
  {
    if fates == [] then []
    else
      var n := |fates| - 1;
      DeliveredWindows(flushed, fates[..n]) + if fates[n].Acked? then [flushed[n]] else []
  }

  function EvictedWindows(flushed: seq<Window>, fates: seq<Fate>): seq<Window>
    requires |fates| <= |flushed|
  {
    if fates == [] then []
    else
      var n := |fates| - 1;
      EvictedWindows(flushed, fates[..n]) + if fates[n].Evicted? then [flushed[n]] else []
  }

  lemma {:induction false} WindowsAppend(a: seq<Window>, b: seq<Window>)
    ensures WindowsBag(a + b) == WindowsBag(a) + WindowsBag(b)
  {
    if b == [] {
      assert a + b == a;
    } else {
      var n := |b| - 1;
      assert (a + b)[..|a + b| - 1] == a + b[..n];
      WindowsAppend(a, b[..n]);
    }
  }

  lemma {:induction false} WindowsSnoc(a: seq<Window>, w: Window)
    ensures WindowsBag(a + [w]) == WindowsBag(a) + Bag(w)
  {
    assert (a + [w])[..|a|] == a;
  }

  lemma Regroup<R>(d: multiset<R>, e: multiset<R>, w: multiset<R>)
    ensures (d + e) + w == (d + w) + e == d + (e + w) == w + (d + e)
  {
  }

  lemma {:induction false} FateStep(flushed: seq<Window>, fates: seq<Fate>, n: nat)
    requires n + 1 == |fates| <= |flushed|
    ensures WindowsBag(DeliveredWindows(flushed, fates)) ==
            WindowsBag(DeliveredWindows(flushed, fates[..n])) + if fates[n].Acked? then Bag(flushed[n]) else multiset{}
    ensures WindowsBag(EvictedWindows(flushed, fates)) ==
            WindowsBag(EvictedWindows(flushed, fates[..n])) + if fates[n].Acked? then multiset{} else Bag(flushed[n])
  {
    var d, e := DeliveredWindows(flushed, fates[..n]), EvictedWindows(flushed, fates[..n]);
    if fates[n].Acked? {
      WindowsSnoc(d, flushed[n]);
      assert e + [] == e;
    } else {
      WindowsSnoc(e, flushed[n]);
      assert d + [] == d;
    }
  }

  lemma PrefixSnoc<T>(s: seq<T>, n: nat)
    requires 1 <= n <= |s|
    ensures s[..n] == s[..n - 1] + [s[n - 1]]
  {
  }

  lemma {:induction false} FatesSplit(flushed: seq<Window>, fates: seq<Fate>, n: nat)
    requires n == |fates| <= |flushed|
    ensures WindowsBag(flushed[..n]) ==
            WindowsBag(DeliveredWindows(flushed, fates)) + WindowsBag(EvictedWindows(flushed, fates))
  {
    if n > 0 {
      var d, e := DeliveredWindows(flushed, fates[..n - 1]), EvictedWindows(flushed, fates[..n - 1]);
      FatesSplit(flushed, fates[..n - 1], n - 1);
      FateStep(flushed, fates, n - 1);
      PrefixSnoc(flushed, n);
      WindowsSnoc(flushed[..n - 1], flushed[n - 1]);
      Regroup(WindowsBag(d), WindowsBag(e), Bag(flushed[n - 1]));
    }
  }

  lemma {:induction false} HistorySplit(u: Uploader)
    requires History(u)
    ensures WindowsBag(u.flushed) == WindowsBag(u.ring)
      + (WindowsBag(DeliveredWindows(u.flushed, u.fates)) + WindowsBag(EvictedWindows(u.flushed, u.fates)))
  {
    var done := u.flushed[..|u.fates|];
    var d, e := DeliveredWindows(u.flushed, u.fates), EvictedWindows(u.flushed, u.fates);
    assert u.flushed == done + u.ring;
    WindowsAppend(done, u.ring);
    FatesSplit(u.flushed, u.fates, |u.fates|);
    Regroup(WindowsBag(d), WindowsBag(e), WindowsBag(u.ring));
  }

  /** The requests in delivered and in evicted windows. */
  ghost function Settled(u: Uploader): multiset<Record>
    requires |u.fates| <= |u.flushed|
  {
    WindowsBag(DeliveredWindows(u.flushed, u.fates)) + WindowsBag(EvictedWindows(u.flushed, u.fates))
  }

  // ---------- the two halves agree on the windows ----------

  lemma BuildAddsWindow(s: State, e: Event)
    requires WellFormed(s)
    ensures
      var w := BuiltWindow(s, e);
      Next(s, e).windows == if w == map[] then s.windows else s.windows + [w]
  {
    if e.Build? && Enabled(s, e) {
      var w := Contents(s.merged, s.heap);
      assert w.Keys == s.merged.Keys;
      assert w == map[] <==> s.merged == map[];
    }
  }

  lemma {:induction false} FlushedAreBuilt(h: SeriesKey -> Shard, cap: nat, steps: seq<Step>)
    requires 1 <= cap
    ensures RunLoop(cap, LoopEvents(h, steps)).flushed == Run(h, ClientEvents(steps)).windows
  {
    if steps != [] {
      var before := steps[..|steps| - 1];
      var es, ls := ClientEvents(before), LoopEvents(h, before);
      FlushedAreBuilt(h, cap, before);
      match steps[|steps| - 1]
      case Client(e) =>
        var l := FlushFired(BuiltWindow(Run(h, es), e));
        assert (es + [e])[..|es|] == es && (ls + [l])[..|ls|] == ls;
        RunInvariant(h, es);
        BuildAddsWindow(Run(h, es), e);
      case Retry(ok) =>
        assert es + [] == es;
        assert (ls + [RetryFired(ok)])[..|ls|] == ls;
    }
  }

  /** Conservation from request to collector: over every run, the observed requests are exactly
      those in live shards, being swapped, in the ring, delivered and evicted, each counted once,
      if and only if no copy raced with an Observe. */
  lemma {:induction false} Conservation(h: SeriesKey -> Shard, cap: nat, steps: seq<Step>)
    requires 1 <= cap
    ensures
      var s, u := Run(h, ClientEvents(steps)), RunLoop(cap, LoopEvents(h, steps));
      && History(u) && LossAccounted(u) && TimerOk(u)
      && (LiveBag(s.shards, s.heap) + PendingBag(s.copying, s.heap) + Bag(Contents(s.merged, s.heap))
            + (WindowsBag(u.ring)
               + (WindowsBag(DeliveredWindows(u.flushed, u.fates))
                  + WindowsBag(EvictedWindows(u.flushed, u.fates))))
          == Accepted(ClientEvents(steps))
          <==> !HasRacyCopy(h, ClientEvents(steps)))
  {
    LoopSafety(cap, LoopEvents(h, steps));
    FlushedAreBuilt(h, cap, steps);
    HistorySplit(RunLoop(cap, LoopEvents(h, steps)));
    ExactlyOnce(h, ClientEvents(steps));
  }

  /** The same for the recorder as it is configured: FNV shards, and a ring sized for the window. */
  lemma {:induction false} RecorderConserves(flushWindow: int, steps: seq<Step>)
    ensures
      var h := (k: SeriesKey) => ShardOf(k);
      var s, u := Run(h, ClientEvents(steps)), RunLoop(RingCapacity(flushWindow), LoopEvents(h, steps));
      && History(u)
      && (!HasRacyCopy(h, ClientEvents(steps)) ==>
            |Accepted(ClientEvents(steps))| ==
              |LiveBag(s.shards, s.heap)| + |PendingBag(s.copying, s.heap)| + |Bag(Contents(s.merged, s.heap))|
              + |WindowsBag(u.ring)| + |WindowsBag(DeliveredWindows(u.flushed, u.fates))|
              + |WindowsBag(EvictedWindows(u.flushed, u.fates))|)
  {
    Conservation((k: SeriesKey) => ShardOf(k), RingCapacity(flushWindow), steps);
  }

  // ---------- the last flush, at shutdown ----------

  /** The window of a flush during which nothing is observed. */
  function LastWindow(h: SeriesKey -> Shard, es: seq<Event>): Window {
    BuiltWindow(Run(h, es + Swaps(NUM_SHARDS)), Build)
  }

  function WithWindow(ws: seq<Window>, w: Window): seq<Window> {
    if w == map[] then ws else ws + [w]
  }

  /** The windows flushed so far and the last one hold the accepted records. */
  ghost predicate AllInWindows(h: SeriesKey -> Shard, es: seq<Event>, last: Window) {
    WindowsBag(WithWindow(Run(h, es).windows, last)) == Accepted(es)
  }

  lemma {:induction false} BuildsLastWindow(h: SeriesKey -> Shard, es: seq<Event>, fs: seq<Event>)
    requires Swept(Run(h, fs), NUM_SHARDS) && Quiet(h, es, fs)
    ensures AllInWindows(h, es, BuiltWindow(Run(h, fs), Build)) <==> !HasRacyCopy(h, es)
  {
    LastFlush(h, es, fs, fs + [Build]);
    RunSnoc(h, fs, Build);
    RunInvariant(h, fs);
    BuildAddsWindow(Run(h, fs), Build);
  }

  lemma {:induction false} LastWindowCompletes(h: SeriesKey -> Shard, es: seq<Event>)
    requires !Run(h, es).flushing
    ensures AllInWindows(h, es, LastWindow(h, es)) <==> !HasRacyCopy(h, es)
  {
    var fs := es + Swaps(NUM_SHARDS);
    SweepAll(h, es, NUM_SHARDS, fs);
    BuildsLastWindow(h, es, fs);
  }

  lemma {:induction false} DrainedHistory(v: Uploader)
    requires History(v) && v.ring == []
    ensures WindowsBag(v.flushed) == Settled(v)
  {
    HistorySplit(v);
  }

  /** Conservation at shutdown: once the ring has drained behind a last flush, the accepted requests
      are exactly the delivered and the evicted ones, if and only if no copy raced with an Observe. */
  lemma {:induction false} ShutdownConserves(
    h: SeriesKey -> Shard, cap: nat, steps: seq<Step>, v: Uploader, last: Window)
    requires 1 <= cap && !Run(h, ClientEvents(steps)).flushing && last == LastWindow(h, ClientEvents(steps))
    requires v.flushed == WithWindow(RunLoop(cap, LoopEvents(h, steps)).flushed, last)
    requires History(v) && v.ring == []
    ensures Settled(v) == Accepted(ClientEvents(steps)) <==> !HasRacyCopy(h, ClientEvents(steps))
  {
    FlushedAreBuilt(h, cap, steps);
    LastWindowCompletes(h, ClientEvents(steps));
    DrainedHistory(v);
  }

  /** How the windows left the ring in a run and a stop that made n successful sends: as the events tell,
      then the last flush if the ring was full, then the drain. */
  ghost predicate LeftAsTold(cap: nat, ls: seq<LoopEvent>, last: Window, n: nat, fates: seq<Fate>) {
    WereAcked(fates) == Departures(cap, ls)
                        + (if last != map[] && Backlog(cap, ls) == cap then [false] else [])
                        + seq(n, _ => true)
  }

  lemma AckedAppend(a: seq<Fate>, b: seq<Fate>)
    ensures WereAcked(a + b) == WereAcked(a) + WereAcked(b)
  {
  }

  lemma {:induction false} StopLeaves(
    cap: nat, ls: seq<LoopEvent>, last: Window, mid: Uploader, v: Uploader, n: nat)
    requires 1 <= cap && FlushedOnce(RunLoop(cap, ls), last, mid) && DeliveredFrom(mid, v, n)
    ensures LeftAsTold(cap, ls, last, n, v.fates) && |mid.ring| <= cap
  {
    var u := RunLoop(cap, ls);
    LoopFollowsEvents(cap, ls);
    var tail := v.fates[|mid.fates|..];
    assert v.fates == mid.fates + tail;
    AckedAppend(mid.fates, tail);
    AckedAppend(u.fates, if last != map[] && |u.ring| == cap then [Evicted] else []);
    assert WereAcked(tail) == seq(n, _ => true);
  }

  lemma {:induction false} EnoughForAny(
    mid: Uploader, v: Uploader, outcomes: seq<bool>, attempts: nat, deadline: nat, cap: nat, n: nat)
    requires Draining(mid, v, outcomes, attempts) && attempts <= deadline && |mid.ring| <= cap
    requires v.ring != [] ==> attempts == deadline
    ensures n < deadline && cap <= Successes(outcomes, n) ==> attempts < deadline
  {
    if n < deadline && cap <= Successes(outcomes, n) {
      EnoughSuccessesDrain(mid, v, outcomes, attempts, deadline, n);
    }
  }

  /** The whole life of a recorder: its run loop over any steps that end between flushes, then a
      graceful stop. Windows leave the ring as events and outcomes tell and no other way. As many
      successes before the deadline as the ring has slots make the stop return nil; then nothing is
      pending, and every accepted request was delivered or evicted, without a race each once. */
  method Lifetime(flushWindow: int, steps: seq<Step>, outcomes: seq<bool>, deadline: nat, expiredAtReturn: bool)
    returns (err: bool, ghost attempts: nat, ghost v: Uploader)
    requires !Run(ShardOf, ClientEvents(steps)).flushing
    ensures History(v) && LossAccounted(v) && SendsMatch(v)
    ensures LeftAsTold(RingCapacity(flushWindow), LoopEvents(ShardOf, steps), LastWindow(ShardOf, ClientEvents(steps)),
                       Successes(outcomes, attempts), v.fates)
    ensures forall n: nat :: n < deadline && RingCapacity(flushWindow) <= Successes(outcomes, n) ==>
              err == expiredAtReturn
    ensures !err ==> |v.fates| == |v.flushed|
    ensures !err ==>
      (Settled(v) == Accepted(ClientEvents(steps)) <==> !HasRacyCopy(ShardOf, ClientEvents(steps)))
  {
    var recorder := new Recorder(flushWindow);
    var ls := LoopEvents(ShardOf, steps);
    recorder.Run(ls);
    LoopSafety(RingCapacity(flushWindow), ls);
    var last := LastWindow(ShardOf, ClientEvents(steps));
    ghost var mid;
    err, attempts, mid := recorder.Shutdown(last, outcomes, deadline, expiredAtReturn);
    v := recorder.View();
    StopLeaves(RingCapacity(flushWindow), ls, last, mid, v, Successes(outcomes, attempts));
    forall n: nat | n < deadline && RingCapacity(flushWindow) <= Successes(outcomes, n)
      ensures err == expiredAtReturn
    {
      EnoughForAny(mid, v, outcomes, attempts, deadline, RingCapacity(flushWindow), n);
    }
    if !err {
      ShutdownConserves(ShardOf, RingCapacity(flushWindow), steps, v, last);
    }
  }
}
