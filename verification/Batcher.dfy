/** The batching writer in front of ClickHouse: rows arrive over a bounded channel, are inserted in
    batches on a threshold or a tick, dropped when an insert fails, and drained on close. */
module Batcher {
  import opened Prelude

  const FINAL_FLUSH_ATTEMPTS: nat := 3
  const DEFAULT_FLUSH_ROWS: nat := 100_000

  type Positive = n: int | n >= 1 witness 1

  /** Whether the n-th insert attempt of a stream succeeds. */
  type Outcomes = nat -> bool

  /** One batch handed to the database: its rows, how often it was tried, whether it got in. */
  datatype Entry<T> = Entry(rows: seq<T>, tries: nat, ok: bool)

  /** One stream. accepted, log and attempts are history; batch and chan are the writer's own. */
  datatype Stream<T> = Stream(accepted: seq<T>, log: seq<Entry<T>>, batch: seq<T>, chan: seq<T>, attempts: nat)

  function Empty<T>(): Stream<T> {
    Stream([], [], [], [], 0)
  }

  // ---------- operations ----------

  function Enqueued<T>(s: Stream<T>, row: T): Stream<T> {
    s.(accepted := s.accepted + [row], chan := s.chan + [row])
  }

  /** flushBatch: one attempt, and the batch is gone either way. */
  function Flush<T>(s: Stream<T>, outcomes: Outcomes): Stream<T> {
    if s.batch == [] then s
    else s.(log := s.log + [Entry(s.batch, 1, outcomes(s.attempts))], batch := [], attempts := s.attempts + 1)
  }

  /** Attempts made from number n on, with left of them allowed: up to the first success. */
  function Tries(outcomes: Outcomes, n: nat, left: nat): (t: nat)
    requires left >= 1
    ensures 1 <= t <= left
    ensures forall i :: n <= i < n + t - 1 ==> !outcomes(i)
    ensures t < left ==> outcomes(n + t - 1)
    decreases left
  {
    if left == 1 || outcomes(n) then 1 else 1 + Tries(outcomes, n + 1, left - 1)
  }

  /** finalFlushBatch: bounded retries before the batch is given up. */
  function FinalFlush<T>(s: Stream<T>, outcomes: Outcomes): Stream<T> {
    if s.batch == [] then s
    else
      var t := Tries(outcomes, s.attempts, FINAL_FLUSH_ATTEMPTS);
      s.(log := s.log + [Entry(s.batch, t, outcomes(s.attempts + t - 1))],
         batch := [], attempts := s.attempts + t)
  }

  function Add<T>(s: Stream<T>, row: T, flushRows: nat, outcomes: Outcomes): Stream<T> {
    var grown := s.(batch := s.batch + [row]);
    if |grown.batch| >= flushRows then Flush(grown, outcomes) else grown
  }

  /** The batcher takes the next row off the channel, if there is one. */
  function Receive<T>(s: Stream<T>, flushRows: nat, outcomes: Outcomes): Stream<T> {
    if s.chan == [] then s else Add(s.(chan := s.chan[1..]), s.chan[0], flushRows, outcomes)
  }

  /** drain, one stream's part: empty the channel, then the final flush. */
  function Drain<T>(s: Stream<T>, flushRows: nat, outcomes: Outcomes): Stream<T>
    decreases |s.chan|
  {
    if s.chan == [] then FinalFlush(s, outcomes)
    else Drain(Receive(s, flushRows, outcomes), flushRows, outcomes)
  }

  // ---------- conservation ----------

  /** The rows of all batches handed over, in order. */
  function Rows<T>(log: seq<Entry<T>>): seq<T> {
    if log == [] then [] else Rows(log[..|log| - 1]) + log[|log| - 1].rows
  }

  /** Every accepted row is, in order, in a past batch, in the current batch or in the channel. */
  ghost predicate Conserves<T>(s: Stream<T>) {
    s.accepted == Rows(s.log) + s.batch + s.chan
  }

  ghost predicate BatchesSized<T>(log: seq<Entry<T>>, flushRows: nat) {
    forall i :: 0 <= i < |log| ==> 1 <= |log[i].rows| <= flushRows
  }

  ghost predicate TriedOnce<T>(log: seq<Entry<T>>) {
    forall i :: 0 <= i < |log| ==> log[i].tries == 1
  }

  /** At every select: the batch is below the threshold, each insert carried 1 to flushRows rows and
      was tried once. */
  ghost predicate Steady<T>(s: Stream<T>, flushRows: nat) {
    && Conserves(s)
    && |s.batch| < flushRows && |s.chan| <= flushRows
    && BatchesSized(s.log, flushRows) && TriedOnce(s.log)
  }

  lemma RowsSnoc<T>(log: seq<Entry<T>>, e: Entry<T>)
    ensures Rows(log + [e]) == Rows(log) + e.rows
  {
    assert (log + [e])[..|log|] == log;
  }

  lemma Assoc<T>(a: seq<T>, b: seq<T>, c: seq<T>, d: seq<T>)
    ensures a + b + (c + d) == a + (b + c) + d
  {
  }

  lemma NoBatch<T>(rows: seq<T>, chan: seq<T>)
    ensures rows + [] + chan == rows + chan
  {
  }

  lemma SnocForall<T>(log: seq<Entry<T>>, e: Entry<T>, flushRows: nat)
    requires BatchesSized(log, flushRows) && 1 <= |e.rows| <= flushRows
    ensures BatchesSized(log + [e], flushRows)
    ensures TriedOnce(log) && e.tries == 1 ==> TriedOnce(log + [e])
  {
  }

  lemma {:induction false} FlushKeeps<T>(s: Stream<T>, flushRows: nat, outcomes: Outcomes)
    requires Conserves(s) && |s.batch| <= flushRows && |s.chan| <= flushRows && 1 <= flushRows
    requires BatchesSized(s.log, flushRows) && TriedOnce(s.log)
    ensures Steady(Flush(s, outcomes), flushRows) && Flush(s, outcomes).batch == []
  {
    if s.batch != [] {
      var e := Entry(s.batch, 1, outcomes(s.attempts));
      RowsSnoc(s.log, e);
      SnocForall(s.log, e, flushRows);
      NoBatch(Rows(s.log) + s.batch, s.chan);
    }
  }

  lemma {:induction false} ReceiveKeeps<T>(s: Stream<T>, flushRows: nat, outcomes: Outcomes)
    requires Steady(s, flushRows)
    ensures Steady(Receive(s, flushRows, outcomes), flushRows)
    ensures s.chan != [] ==> Receive(s, flushRows, outcomes).chan == s.chan[1..]
    ensures Receive(s, flushRows, outcomes).accepted == s.accepted
  {
    if s.chan != [] {
      var row := s.chan[0];
      var grown := s.(chan := s.chan[1..], batch := s.batch + [row]);
      assert s.chan == [row] + s.chan[1..];
      Assoc(Rows(s.log), s.batch, [row], s.chan[1..]);
      if |grown.batch| >= flushRows {
        FlushKeeps(grown, flushRows, outcomes);
      }
    }
  }

  /** The rows that fill no batch when the channel is emptied: the remainder after full batches. */
  function LeftOver<T>(s: Stream<T>, flushRows: nat): seq<T>
    requires flushRows >= 1
  {
    Remainder(s.batch + s.chan, flushRows)
  }

  /** What remains of rows after cutting off full batches. */
  function Remainder<T>(rows: seq<T>, size: nat): (r: seq<T>)
    requires size >= 1
    ensures |r| < size
    decreases |rows|
  {
    if |rows| < size then rows else Remainder(rows[size..], size)
  }

  lemma RemainderSkips<T>(full: seq<T>, rest: seq<T>, size: nat)
    requires |full| == size >= 1
    ensures Remainder(full + rest, size) == Remainder(rest, size)
  {
    assert (full + rest)[size..] == rest;
  }

  /** Receiving a row leaves the remainder as it is. */
  lemma {:induction false} ReceiveKeepsLeftOver<T>(s: Stream<T>, flushRows: nat, outcomes: Outcomes)
    requires |s.batch| < flushRows
    ensures LeftOver(Receive(s, flushRows, outcomes), flushRows) == LeftOver(s, flushRows)
  {
    if s.chan != [] {
      var grown, rest := s.batch + [s.chan[0]], s.chan[1..];
      assert s.batch + s.chan == grown + rest;
      if |grown| >= flushRows {
        RemainderSkips(grown, rest, flushRows);
        assert [] + rest == rest;
      }
    }
  }

  /** The entry of the final flush: it got in or was tried three times. */
  ghost predicate FinalEntry<T>(e: Entry<T>, left: seq<T>) {
    e.rows == left && e.tries <= FINAL_FLUSH_ATTEMPTS && (e.ok || e.tries == FINAL_FLUSH_ATTEMPTS)
  }

  /** Every accepted row was handed over. Each batch was tried once, except that the rows left over,
      if any, are the last batch, given up only after three failed attempts. */
  ghost predicate Settled<T>(s: Stream<T>, flushRows: nat, left: seq<T>) {
    && s.batch == [] && s.chan == []
    && s.accepted == Rows(s.log)
    && BatchesSized(s.log, flushRows)
    && if left == [] then TriedOnce(s.log)
       else s.log != [] && TriedOnce(s.log[..|s.log| - 1]) && FinalEntry(s.log[|s.log| - 1], left)
  }

  lemma {:induction false} HandOver<T>(s: Stream<T>, flushRows: nat, e: Entry<T>, n: nat)
    requires Steady(s, flushRows) && s.chan == [] && s.batch != [] && FinalEntry(e, s.batch)
    ensures Settled(s.(log := s.log + [e], batch := [], attempts := n), flushRows, s.batch)
  {
    assert s.accepted == Rows(s.log) + s.batch;
    RowsSnoc(s.log, e);
    SnocForall(s.log, e, flushRows);
    assert (s.log + [e])[..|s.log|] == s.log;
  }

  lemma {:induction false} FinalFlushSettles<T>(s: Stream<T>, flushRows: nat, outcomes: Outcomes)
    requires Steady(s, flushRows) && s.chan == []
    ensures Settled(FinalFlush(s, outcomes), flushRows, s.batch)
  {
    if s.batch == [] {
      assert s.accepted == Rows(s.log);
    } else {
      var t := Tries(outcomes, s.attempts, FINAL_FLUSH_ATTEMPTS);
      HandOver(s, flushRows, Entry(s.batch, t, outcomes(s.attempts + t - 1)), s.attempts + t);
    }
  }

  lemma NothingInChannel<T>(s: Stream<T>, flushRows: nat)
    requires s.chan == [] && |s.batch| < flushRows
    ensures LeftOver(s, flushRows) == s.batch
  {
    assert s.batch + s.chan == s.batch;
  }

  /** After the drain everything was handed over: full batches tried once, and what was left over. */
  lemma {:induction false} DrainSettles<T>(s: Stream<T>, flushRows: nat, outcomes: Outcomes)
    requires Steady(s, flushRows)
    ensures Settled(Drain(s, flushRows, outcomes), flushRows, LeftOver(s, flushRows))
    ensures Drain(s, flushRows, outcomes).accepted == s.accepted
    decreases |s.chan|
  {
    if s.chan == [] {
      NothingInChannel(s, flushRows);
      FinalFlushSettles(s, flushRows, outcomes);
    } else {
      ReceiveKeeps(s, flushRows, outcomes);
      ReceiveKeepsLeftOver(s, flushRows, outcomes);
      DrainSettles(Receive(s, flushRows, outcomes), flushRows, outcomes);
    }
  }

  // ---------- what the log says is what happened ----------

  function Attempts<T>(log: seq<Entry<T>>): nat {
    if log == [] then 0 else Attempts(log[..|log| - 1]) + log[|log| - 1].tries
  }

  /** Batch i took the attempts from number Attempts(log[..i]) on: all but the last of them failed,
      and the last one decided whether it got in. */
  ghost predicate EntryTruthful<T>(log: seq<Entry<T>>, i: nat, outcomes: Outcomes)
    requires i < |log|
  {
    var from, e := Attempts(log[..i]), log[i];
    e.tries >= 1 && e.ok == outcomes(from + e.tries - 1) && forall j :: from <= j < from + e.tries - 1 ==> !outcomes(j)
  }

  ghost predicate Truthful<T>(s: Stream<T>, outcomes: Outcomes) {
    s.attempts == Attempts(s.log) && forall i :: 0 <= i < |s.log| ==> EntryTruthful(s.log, i, outcomes)
  }

  lemma {:induction false} TruthfulSnoc<T>(s: Stream<T>, e: Entry<T>, outcomes: Outcomes, t: Stream<T>)
    requires Truthful(s, outcomes) && e.tries >= 1 && e.ok == outcomes(s.attempts + e.tries - 1)
    requires forall j :: s.attempts <= j < s.attempts + e.tries - 1 ==> !outcomes(j)
    requires t.log == s.log + [e] && t.attempts == s.attempts + e.tries
    ensures Truthful(t, outcomes)
  {
    assert t.log[..|s.log|] == s.log;
    forall i | 0 <= i < |t.log| ensures EntryTruthful(t.log, i, outcomes) {
      if i < |s.log| {
        assert EntryTruthful(s.log, i, outcomes) && t.log[..i] == s.log[..i];
      }
    }
  }

  lemma {:induction false} FlushTruthful<T>(s: Stream<T>, outcomes: Outcomes)
    requires Truthful(s, outcomes)
    ensures Truthful(Flush(s, outcomes), outcomes)
  {
    if s.batch != [] {
      TruthfulSnoc(s, Entry(s.batch, 1, outcomes(s.attempts)), outcomes, Flush(s, outcomes));
    }
  }

  lemma {:induction false} ReceiveTruthful<T>(s: Stream<T>, flushRows: nat, outcomes: Outcomes)
    requires Truthful(s, outcomes)
    ensures Truthful(Receive(s, flushRows, outcomes), outcomes)
  {
    if s.chan != [] {
      FlushTruthful(s.(chan := s.chan[1..], batch := s.batch + [s.chan[0]]), outcomes);
    }
  }

  /** The rows left at close are given up only after three failed attempts. */
  lemma {:induction false} FinalFlushTruthful<T>(s: Stream<T>, outcomes: Outcomes)
    requires Truthful(s, outcomes)
    ensures Truthful(FinalFlush(s, outcomes), outcomes)
    ensures s.batch != [] ==>
      var log := FinalFlush(s, outcomes).log;
      log[|log| - 1].rows == s.batch && (log[|log| - 1].ok || log[|log| - 1].tries == FINAL_FLUSH_ATTEMPTS)
  {
    if s.batch != [] {
      var t := Tries(outcomes, s.attempts, FINAL_FLUSH_ATTEMPTS);
      TruthfulSnoc(s, Entry(s.batch, t, outcomes(s.attempts + t - 1)), outcomes, FinalFlush(s, outcomes));
    }
  }

  lemma {:induction false} DrainTruthful<T>(s: Stream<T>, flushRows: nat, outcomes: Outcomes)
    requires Truthful(s, outcomes)
    ensures Truthful(Drain(s, flushRows, outcomes), outcomes)
    decreases |s.chan|
  {
    if s.chan == [] {
      FinalFlushTruthful(s, outcomes);
    } else {
      ReceiveTruthful(s, flushRows, outcomes);
      assert |Receive(s, flushRows, outcomes).chan| < |s.chan|;
      DrainTruthful(Receive(s, flushRows, outcomes), flushRows, outcomes);
    }
  }

  // ---------- inserted and dropped rows ----------

  function RowsWith<T>(log: seq<Entry<T>>, ok: bool): seq<T> {
    if log == [] then []
    else RowsWith(log[..|log| - 1], ok) + if log[|log| - 1].ok == ok then log[|log| - 1].rows else []
  }

  /** Every row of a past batch was either inserted or dropped, never both. */
  lemma {:induction false} InsertedOrDropped<T>(log: seq<Entry<T>>)
    ensures multiset(Rows(log)) == multiset(RowsWith(log, true)) + multiset(RowsWith(log, false))
  {
    if log != [] {
      InsertedOrDropped(log[..|log| - 1]);
    }
  }

  // ---------- runs of the writer ----------

  /** Events of one stream: a completed Enqueue, the batcher receiving, the ticker. */
  datatype Event<T> = Enqueue(row: T) | Recv | Tick

  /** An Enqueue completes only while the channel has room. */
  function StreamNext<T>(s: Stream<T>, e: Event<T>, flushRows: nat, outcomes: Outcomes): Stream<T> {
    match e
    case Enqueue(row) => if |s.chan| < flushRows then Enqueued(s, row) else s
    case Recv => Receive(s, flushRows, outcomes)
    case Tick => Flush(s, outcomes)
  }

  function StreamRun<T>(es: seq<Event<T>>, flushRows: nat, outcomes: Outcomes): Stream<T> {
    if es == [] then Empty()
    else StreamNext(StreamRun(es[..|es| - 1], flushRows, outcomes), es[|es| - 1], flushRows, outcomes)
  }

  lemma {:induction false} RunSteady<T>(es: seq<Event<T>>, flushRows: nat, outcomes: Outcomes)
    requires 1 <= flushRows
    ensures Steady(StreamRun(es, flushRows, outcomes), flushRows)
    ensures Truthful(StreamRun(es, flushRows, outcomes), outcomes)
  {
    if es != [] {
      var s := StreamRun(es[..|es| - 1], flushRows, outcomes);
      RunSteady(es[..|es| - 1], flushRows, outcomes);
      ReceiveTruthful(s, flushRows, outcomes);
      FlushTruthful(s, outcomes);
      match es[|es| - 1]
      case Enqueue(row) => assert Rows(s.log) + s.batch + (s.chan + [row]) == Rows(s.log) + s.batch + s.chan + [row];
      case Recv => ReceiveKeeps(s, flushRows, outcomes);
      case Tick => FlushKeeps(s, flushRows, outcomes);
    }
  }

  // ---------- which rows a run accepts, told by its events alone ----------

  /** How many rows wait in the channel. */
  function InChannel<T>(es: seq<Event<T>>, flushRows: nat): (n: nat)
    ensures n <= flushRows
  {
    if es == [] then 0
    else
      var n := InChannel(es[..|es| - 1], flushRows);
      match es[|es| - 1]
      case Enqueue(_) => if n < flushRows then n + 1 else n
      case Recv => if n > 0 then n - 1 else n
      case Tick => n
  }

  /** The rows handed in while the channel had room, in order. */
  function HandedIn<T>(es: seq<Event<T>>, flushRows: nat): seq<T> {
    if es == [] then []
    else
      HandedIn(es[..|es| - 1], flushRows) +
      match es[|es| - 1]
      case Enqueue(row) => if InChannel(es[..|es| - 1], flushRows) < flushRows then [row] else []
      case Recv => []
      case Tick => []
  }

  lemma ReceiveTakesOne<T>(s: Stream<T>, flushRows: nat, outcomes: Outcomes)
    ensures Receive(s, flushRows, outcomes).accepted == s.accepted
    ensures |Receive(s, flushRows, outcomes).chan| == if s.chan == [] then 0 else |s.chan| - 1
  {
  }

  /** Over every run: the accepted rows are exactly those handed in while the channel had room, and a tick
      leaves no row in the batch. */
  lemma {:induction false} RunAccepts<T>(es: seq<Event<T>>, flushRows: nat, outcomes: Outcomes)
    ensures
      var s := StreamRun(es, flushRows, outcomes);
      && s.accepted == HandedIn(es, flushRows) && |s.chan| == InChannel(es, flushRows)
      && (es != [] && es[|es| - 1].Tick? ==> s.batch == [])
  {
    if es != [] {
      RunAccepts(es[..|es| - 1], flushRows, outcomes);
      ReceiveTakesOne(StreamRun(es[..|es| - 1], flushRows, outcomes), flushRows, outcomes);
    }
  }

  /** Over every run: when the drain is over, the rows whose Enqueue completed before it, that is those
      handed in while the channel had room, are exactly the inserted and the dropped ones; full batches
      had one attempt, and the rows left over at the close were dropped only after three. */
  lemma {:induction false} CloseSettlesAll<T>(es: seq<Event<T>>, flushRows: nat, outcomes: Outcomes)
    requires 1 <= flushRows
    ensures
      var s := StreamRun(es, flushRows, outcomes);
      var d := Drain(s, flushRows, outcomes);
      && Settled(d, flushRows, LeftOver(s, flushRows)) && Truthful(d, outcomes)
      && d.accepted == HandedIn(es, flushRows)
      && multiset(HandedIn(es, flushRows)) == multiset(RowsWith(d.log, true)) + multiset(RowsWith(d.log, false))
  {
    var s := StreamRun(es, flushRows, outcomes);
    RunSteady(es, flushRows, outcomes);
    RunAccepts(es, flushRows, outcomes);
    DrainSettles(s, flushRows, outcomes);
    DrainTruthful(s, flushRows, outcomes);
    InsertedOrDropped(Drain(s, flushRows, outcomes).log);
  }

  // ---------- the writer object ----------

  datatype EnqueueResult = Accepted | EmptyTenant | WriterClosed | Waiting

  /** A row as it is handed in; an empty tenant is the zero tenant. */
  datatype Row<T> = Row(tenant: seq<Byte>, data: T)

  /** One stream of the writer: its channel and the batch in progress. */
  class StreamBatcher<T(==)> {
    const flushRows: Positive
    const outcomes: Outcomes
    var chan: seq<Row<T>>
    var batch: seq<Row<T>>
    var attempts: nat
    ghost var accepted: seq<Row<T>>
    ghost var log: seq<Entry<Row<T>>>

    ghost function View(): Stream<Row<T>>
      reads this
    {
      Stream(accepted, log, batch, chan, attempts)
    }

    constructor (flushRows: Positive, outcomes: Outcomes)
      ensures View() == Empty() && this.flushRows == flushRows && this.outcomes == outcomes
    {
      this.flushRows, this.outcomes := flushRows, outcomes;
      chan, batch, attempts, accepted, log := [], [], 0, [], [];
    }

    /** A row without tenant is refused before anything else; a full channel makes the caller wait. */
    method Enqueue(row: Row<T>, closed: bool) returns (res: EnqueueResult)
      modifies this
      ensures res == (if row.tenant == [] then EmptyTenant else if closed then WriterClosed
                      else if |old(chan)| < flushRows then Accepted else Waiting)
      ensures View() == if res == Accepted then Enqueued(old(View()), row) else old(View())
      ensures res == Accepted ==> accepted == old(accepted) + [row] && chan == old(chan) + [row]
    {
      if row.tenant == [] {
        return EmptyTenant;
      }
      if closed {
        return WriterClosed;
      }
      if |chan| >= flushRows {
        return Waiting;
      }
      chan, accepted := chan + [row], accepted + [row];
      return Accepted;
    }

    method Insert() returns (ok: bool)
      modifies this`attempts
      ensures attempts == old(attempts) + 1 && ok == outcomes(old(attempts))
    {
      ok := outcomes(attempts);
      attempts := attempts + 1;
    }

    method FlushBatch()
      modifies this
      ensures View() == Flush(old(View()), outcomes)
    {
      if |batch| == 0 {
        return;
      }
      var ok := Insert();
      log := log + [Entry(batch, 1, ok)];
      batch := [];
    }

    /** Insert attempts up to the first success, at most three of them. */
    method InsertWithRetry() returns (tries: nat, ok: bool)
      modifies this`attempts
      ensures tries == Tries(outcomes, old(attempts), FINAL_FLUSH_ATTEMPTS)
      ensures ok == outcomes(old(attempts) + tries - 1) && attempts == old(attempts) + tries
    {
      ghost var n := attempts;
      var limit := FINAL_FLUSH_ATTEMPTS;
      var attempt := 1;
      while attempt <= limit
        invariant 1 <= attempt <= limit + 1 && attempts == n + attempt - 1
        invariant forall i :: n <= i < n + attempt - 1 ==> !outcomes(i)
        decreases limit + 1 - attempt
      {
        ok := Insert();
        if ok {
          TriesIs(outcomes, n, limit, attempt);
          return attempt, true;
        }
        attempt := attempt + 1;
      }
      TriesIs(outcomes, n, limit, limit);
      return limit, false;
    }

    method FinalFlushBatch()
      modifies this
      ensures View() == FinalFlush(old(View()), outcomes)
    {
      if |batch| == 0 {
        return;
      }
      var tries, ok := InsertWithRetry();
      log := log + [Entry(batch, tries, ok)];
      batch := [];
    }

    /** Take one row off the channel and add it to the batch. */
    method ReceiveOne()
      requires chan != []
      modifies this
      ensures View() == Receive(old(View()), flushRows, outcomes)
      ensures |chan| == |old(chan)| - 1
    {
      var row := chan[0];
      chan := chan[1..];
      batch := batch + [row];
      if |batch| >= flushRows {
        FlushBatch();
      }
    }

    method DrainAll()
      modifies this
      ensures View() == Drain(old(View()), flushRows, outcomes)
    {
      while chan != []
        invariant Drain(View(), flushRows, outcomes) == Drain(old(View()), flushRows, outcomes)
        decreases |chan|
      {
        ReceiveOne();
      }
      FinalFlushBatch();
    }
  }

  lemma {:induction false} TriesIs(outcomes: Outcomes, n: nat, left: nat, t: nat)
    requires 1 <= t <= left
    requires forall i :: n <= i < n + t - 1 ==> !outcomes(i)
    requires t < left ==> outcomes(n + t - 1)
    ensures Tries(outcomes, n, left) == t
    decreases left
  {
    if t > 1 {
      TriesIs(outcomes, n + 1, left - 1, t - 1);
    }
  }

  // ---------- both streams under one loop ----------

  /** What the batcher goroutine and its callers do, in the order the select picks. */
  datatype WriterEvent<R, I> =
    EnqueueRow(row: Row<R>) | EnqueueWindow(window: Row<I>) | RowReady | WindowReady | TickerFired | CloseCalled

  predicate CloseSeen<R, I>(es: seq<WriterEvent<R, I>>) {
    es != [] && (es[|es| - 1].CloseCalled? || CloseSeen(es[..|es| - 1]))
  }

  /** What the events mean for the summary stream. */
  function RowEvents<R, I>(es: seq<WriterEvent<R, I>>): seq<Event<Row<R>>> {
    if es == [] then []
    else
      var before := es[..|es| - 1];
      RowEvents(before) +
      match es[|es| - 1]
      case EnqueueRow(r) => if r.tenant != [] && !CloseSeen(before) then [Enqueue(r)] else []
      case RowReady => [Recv]
      case TickerFired => [Tick]
      case _ => []
  }

  /** What the events mean for the instance-window stream. */
  function WindowEvents<R, I>(es: seq<WriterEvent<R, I>>): seq<Event<Row<I>>> {
    if es == [] then []
    else
      var before := es[..|es| - 1];
      WindowEvents(before) +
      match es[|es| - 1]
      case EnqueueWindow(r) => if r.tenant != [] && !CloseSeen(before) then [Enqueue(r)] else []
      case WindowReady => [Recv]
      case TickerFired => [Tick]
      case _ => []
  }

  lemma StreamSnoc<T>(es: seq<Event<T>>, e: Event<T>, flushRows: nat, outcomes: Outcomes)
    ensures StreamRun(es + [e], flushRows, outcomes) ==
            StreamNext(StreamRun(es, flushRows, outcomes), e, flushRows, outcomes)
    ensures es + [] == es
  {
    assert (es + [e])[..|es|] == es;
  }

  function RowStep<R, I>(s: Stream<Row<R>>, e: WriterEvent<R, I>, closed: bool, n: nat, outcomes: Outcomes)
    : Stream<Row<R>>
  {
    match e
    case EnqueueRow(r) => if r.tenant != [] && !closed && |s.chan| < n then Enqueued(s, r) else s
    case RowReady => Receive(s, n, outcomes)
    case TickerFired => Flush(s, outcomes)
    case _ => s
  }

  function WindowStep<R, I>(s: Stream<Row<I>>, e: WriterEvent<R, I>, closed: bool, n: nat, outcomes: Outcomes)
    : Stream<Row<I>>
  {
    match e
    case EnqueueWindow(r) => if r.tenant != [] && !closed && |s.chan| < n then Enqueued(s, r) else s
    case WindowReady => Receive(s, n, outcomes)
    case TickerFired => Flush(s, outcomes)
    case _ => s
  }

  lemma {:induction false} RowEventStep<R, I>(
    es: seq<WriterEvent<R, I>>, e: WriterEvent<R, I>, n: nat, outcomes: Outcomes)
    ensures CloseSeen(es + [e]) == (CloseSeen(es) || e.CloseCalled?)
    ensures StreamRun(RowEvents(es + [e]), n, outcomes) ==
            RowStep(StreamRun(RowEvents(es), n, outcomes), e, CloseSeen(es), n, outcomes)
  {
    assert (es + [e])[..|es|] == es;
    match e
    case EnqueueRow(r) => StreamSnoc(RowEvents(es), Enqueue(r), n, outcomes);
    case RowReady => StreamSnoc(RowEvents(es), Recv, n, outcomes);
    case TickerFired => StreamSnoc(RowEvents(es), Tick, n, outcomes);
    case _ => assert RowEvents(es) + [] == RowEvents(es);
  }

  lemma {:induction false} WindowEventStep<R, I>(
    es: seq<WriterEvent<R, I>>, e: WriterEvent<R, I>, n: nat, outcomes: Outcomes)
    ensures StreamRun(WindowEvents(es + [e]), n, outcomes) ==
            WindowStep(StreamRun(WindowEvents(es), n, outcomes), e, CloseSeen(es), n, outcomes)
  {
    assert (es + [e])[..|es|] == es;
    match e
    case EnqueueWindow(r) => StreamSnoc(WindowEvents(es), Enqueue(r), n, outcomes);
    case WindowReady => StreamSnoc(WindowEvents(es), Recv, n, outcomes);
    case TickerFired => StreamSnoc(WindowEvents(es), Tick, n, outcomes);
    case _ => assert WindowEvents(es) + [] == WindowEvents(es);
  }

  class Writer<R(==), I(==)> {
    const rows: StreamBatcher<R>
    const windows: StreamBatcher<I>
    var closed: bool

    /** A threshold that is not positive is replaced by the default. */
    constructor (configured: int, rowOutcomes: Outcomes, windowOutcomes: Outcomes)
      ensures Follows([])
      ensures rows.flushRows == windows.flushRows == if configured <= 0 then DEFAULT_FLUSH_ROWS else configured
      ensures rows.outcomes == rowOutcomes && windows.outcomes == windowOutcomes
      ensures fresh(rows) && fresh(windows)
    {
      var flushRows: Positive := if configured <= 0 then DEFAULT_FLUSH_ROWS else configured;
      rows := new StreamBatcher(flushRows, rowOutcomes);
      windows := new StreamBatcher(flushRows, windowOutcomes);
      closed := false;
    }

    ghost predicate Follows(es: seq<WriterEvent<R, I>>)
      reads this, rows, windows
    {
      && rows as object != windows && closed == CloseSeen(es)
      && rows.View() == StreamRun(RowEvents(es), rows.flushRows, rows.outcomes)
      && windows.View() == StreamRun(WindowEvents(es), windows.flushRows, windows.outcomes)
    }

    /** One turn: the two streams never touch each other. */
    method Turn(e: WriterEvent<R, I>)
      requires rows as object != windows
      modifies this, rows, windows
      ensures closed == (old(closed) || e.CloseCalled?)
      ensures rows.View() == RowStep(old(rows.View()), e, old(closed), rows.flushRows, rows.outcomes)
      ensures windows.View() == WindowStep(old(windows.View()), e, old(closed), windows.flushRows, windows.outcomes)
      ensures e.TickerFired? ==> rows.batch == [] && windows.batch == []
      ensures e.RowReady? && old(rows.chan) != [] ==> rows.chan == old(rows.chan)[1..]
      ensures e.WindowReady? && old(windows.chan) != [] ==> windows.chan == old(windows.chan)[1..]
      ensures e.EnqueueRow? && e.row.tenant != [] && !old(closed) && |old(rows.chan)| < rows.flushRows ==>
                rows.accepted == old(rows.accepted) + [e.row]
      ensures e.EnqueueWindow? && e.window.tenant != [] && !old(closed) && |old(windows.chan)| < windows.flushRows ==>
                windows.accepted == old(windows.accepted) + [e.window]
      ensures old(closed) && (e.EnqueueRow? || e.EnqueueWindow?) ==>
                rows.View() == old(rows.View()) && windows.View() == old(windows.View())
      ensures (e.EnqueueRow? && e.row.tenant == []) || (e.EnqueueWindow? && e.window.tenant == []) ==>
                rows.View() == old(rows.View()) && windows.View() == old(windows.View())
    {
      match e
      case EnqueueRow(r) =>
        var _ := rows.Enqueue(r, closed);
      case EnqueueWindow(r) =>
        var _ := windows.Enqueue(r, closed);
      case RowReady =>
        if rows.chan != [] {
          rows.ReceiveOne();
        }
      case WindowReady =>
        if windows.chan != [] {
          windows.ReceiveOne();
        }
      case TickerFired =>
        rows.FlushBatch();
        windows.FlushBatch();
      case CloseCalled =>
        closed := true;
    }

    ghost function RowsAtClose(events: seq<WriterEvent<R, I>>): Stream<Row<R>> {
      StreamRun(RowEvents(events), rows.flushRows, rows.outcomes)
    }

    ghost function WindowsAtClose(events: seq<WriterEvent<R, I>>): Stream<Row<I>> {
      StreamRun(WindowEvents(events), windows.flushRows, windows.outcomes)
    }

    /** The batcher goroutine, from an empty writer to the end of the drain: on both streams every
        row whose Enqueue was accepted has been inserted or dropped, and the rows left over at the
        close were dropped only after three failed attempts. */
    method Run(events: seq<WriterEvent<R, I>>)
      requires Follows([])
      modifies this, rows, windows
      ensures rows.View() == Drain(RowsAtClose(events), rows.flushRows, rows.outcomes)
      ensures windows.View() == Drain(WindowsAtClose(events), windows.flushRows, windows.outcomes)
      ensures Settled(rows.View(), rows.flushRows, LeftOver(RowsAtClose(events), rows.flushRows))
      ensures Settled(windows.View(), windows.flushRows, LeftOver(WindowsAtClose(events), windows.flushRows))
      ensures rows.accepted == HandedIn(RowEvents(events), rows.flushRows)
      ensures windows.accepted == HandedIn(WindowEvents(events), windows.flushRows)
    {
      for i := 0 to |events|
        invariant Follows(events[..i])
      {
        assert events[..i + 1] == events[..i] + [events[i]];
        RowEventStep(events[..i], events[i], rows.flushRows, rows.outcomes);
        WindowEventStep(events[..i], events[i], windows.flushRows, windows.outcomes);
        Turn(events[i]);
      }
      assert events[..|events|] == events;
      RunAccepts(RowEvents(events), rows.flushRows, rows.outcomes);
      RunAccepts(WindowEvents(events), windows.flushRows, windows.outcomes);
      RunSteady(RowEvents(events), rows.flushRows, rows.outcomes);
      RunSteady(WindowEvents(events), windows.flushRows, windows.outcomes);
      DrainSettles(rows.View(), rows.flushRows, rows.outcomes);
      DrainSettles(windows.View(), windows.flushRows, windows.outcomes);
      rows.DrainAll();
      windows.DrainAll();
    }
  }
}
