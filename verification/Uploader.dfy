/** The fail-open uploader: flushed windows wait in the ring, a retry loop with backoff drains
    the oldest one, and losses are stamped on the next envelope that gets through. */
module Uploads {
  import opened Prelude
  import opened Rings
  import opened Aggregation

  const BASE_BACKOFF: nat := 1_000_000_000
  const MAX_BACKOFF: nat := 30_000_000_000
  const MIN_RING_CAPACITY: nat := 8
  const RING_WINDOWS_SPAN: nat := 300

  function NextBackoff(cur: nat): nat {
    if cur * 2 > MAX_BACKOFF then MAX_BACKOFF else cur * 2
  }

  function Pow2(k: nat): (p: nat)
    ensures p >= 1
  {
    if k == 0 then 1 else 2 * Pow2(k - 1)
  }

  /** The backoff after k failures in a row. */
  function BackoffAfter(k: nat): nat {
    if BASE_BACKOFF * Pow2(k) < MAX_BACKOFF then BASE_BACKOFF * Pow2(k) else MAX_BACKOFF
  }

  lemma {:induction false} BackoffDoubles(k: nat)
    ensures NextBackoff(BackoffAfter(k)) == BackoffAfter(k + 1)
  {
    assert Pow2(k + 1) == 2 * Pow2(k);
  }

  // ---------- the uploader as a value, with its history ----------

  /** What became of a flushed window: delivered in an envelope stamped with a loss count, or
      evicted from the ring. */
  datatype Fate = Acked(stamp: nat) | Evicted

  /** One upload: the window, the loss count stamped on its envelope, and whether it got through. */
  datatype Send = Send(window: Window, stamp: nat, ok: bool)

  /** flushed, fates and sends are history; the rest is the uploader's own state. failures counts the
      failed sends since the last success. */
  datatype Uploader = Uploader(
    flushed: seq<Window>, fates: seq<Fate>, sends: seq<Send>,
    ring: seq<Window>, cap: nat, dropped: nat,
    backoff: nat, armed: bool, failures: nat)

  function Start(cap: nat): Uploader {
    Uploader([], [], [], [], cap, 0, BASE_BACKOFF, false, 0)
  }

  /** flush: push a window; an evicted one adds its summaries to the loss counter. */
  function Flushed(u: Uploader, w: Window): Uploader
    requires 1 <= u.cap && |u.ring| <= u.cap
  {
    var full := |u.ring| == u.cap;
    u.(flushed := u.flushed + [w],
       ring := Pushed(u.ring, u.cap, w),
       fates := if full then u.fates + [Evicted] else u.fates,
       dropped := if full then u.dropped + |u.ring[0]| else u.dropped)
  }

  /** tryDrainOldest when the send succeeds. */
  function Delivered(u: Uploader): Uploader
    requires u.ring != []
  {
    u.(ring := u.ring[1..], fates := u.fates + [Acked(u.dropped)], dropped := 0,
       sends := u.sends + [Send(u.ring[0], u.dropped, true)])
  }

  /** tryDrainOldest when the send fails. */
  function Undelivered(u: Uploader): Uploader
    requires u.ring != []
  {
    u.(sends := u.sends + [Send(u.ring[0], u.dropped, false)])
  }

  datatype LoopEvent = FlushFired(w: Window) | RetryFired(ok: bool)

  /** One iteration of the run loop. An empty window pushes nothing; the retry timer fires only
      while it is armed. */
  function LoopNext(u: Uploader, e: LoopEvent): Uploader
    requires 1 <= u.cap && |u.ring| <= u.cap
  {
    match e
    case FlushFired(w) =>
      if w == map[] then u
      else
        var v := Flushed(u, w);
        if |v.ring| == 1 then v.(armed := true) else v
    case RetryFired(ok) =>
      if !u.armed then u
      else if u.ring == [] then u.(armed := false)
      else if ok then
        var v := Delivered(u).(backoff := BASE_BACKOFF, failures := 0);
        v.(armed := v.ring != [])
      else Undelivered(u).(backoff := NextBackoff(u.backoff), failures := u.failures + 1)
  }

  function RunLoop(cap: nat, es: seq<LoopEvent>): (u: Uploader)
    requires 1 <= cap
    ensures u.cap == cap && |u.ring| <= cap && |u.fates| + |u.ring| == |u.flushed|
  {
    if es == [] then Start(cap) else LoopNext(RunLoop(cap, es[..|es| - 1]), es[|es| - 1])
  }

  // ---------- delivery history ----------

  /** The ring is a suffix of the flushed windows and every window before it has met its fate, in
      flush order. */
  ghost predicate History(u: Uploader) {
    && 1 <= u.cap && |u.ring| <= u.cap
    && |u.fates| <= |u.flushed|
    && u.ring == u.flushed[|u.fates|..]
  }

  // ---------- loss accounting ----------

  /** Sum of the loss counts stamped on delivered envelopes. */
  function Reported(fates: seq<Fate>): nat {
    if fates == [] then 0
    else Reported(fates[..|fates| - 1]) + match fates[|fates| - 1] case Acked(n) => n case Evicted => 0
  }

  /** Summaries in evicted windows. */
  function Lost(flushed: seq<Window>, fates: seq<Fate>): nat
    requires |fates| <= |flushed|
  {
    if fates == [] then 0
    else
      var n := |fates| - 1;
      Lost(flushed, fates[..n]) + if fates[n].Evicted? then |flushed[n]| else 0
  }

  ghost predicate LossAccounted(u: Uploader)
    requires |u.fates| <= |u.flushed|
  {
    Reported(u.fates) + u.dropped == Lost(u.flushed, u.fates)
  }

  lemma {:induction false} LostPrefix(flushed: seq<Window>, w: Window, fates: seq<Fate>)
    requires |fates| <= |flushed|
    ensures Lost(flushed + [w], fates) == Lost(flushed, fates)
  {
    if fates != [] {
      LostPrefix(flushed, w, fates[..|fates| - 1]);
    }
  }

  lemma {:induction false} FlushKeeps(u: Uploader, w: Window)
    requires History(u) && LossAccounted(u)
    ensures History(Flushed(u, w)) && LossAccounted(Flushed(u, w))
  {
    LostPrefix(u.flushed, w, u.fates);
    assert (u.fates + [Evicted])[..|u.fates|] == u.fates;
  }

  lemma {:induction false} DeliveryKeeps(u: Uploader)
    requires History(u) && LossAccounted(u) && u.ring != []
    ensures History(Delivered(u)) && LossAccounted(Delivered(u))
  {
    assert (u.fates + [Acked(u.dropped)])[..|u.fates|] == u.fates;
  }

  // ---------- sends ----------

  /** The sends that got through. */
  function Confirmed(sends: seq<Send>): seq<Send> {
    if sends == [] then []
    else Confirmed(sends[..|sends| - 1]) + if sends[|sends| - 1].ok then [sends[|sends| - 1]] else []
  }

  /** The successful sends that the fates speak of. */
  function AckedSends(flushed: seq<Window>, fates: seq<Fate>): seq<Send>
    requires |fates| <= |flushed|
  {
    if fates == [] then []
    else
      var n := |fates| - 1;
      AckedSends(flushed, fates[..n]) +
      match fates[n] case Acked(stamp) => [Send(flushed[n], stamp, true)] case Evicted => []
  }

  /** Each delivered window got through in one send with its stamp, in flush order, and no other did. */
  ghost predicate SendsMatch(u: Uploader)
    requires |u.fates| <= |u.flushed|
  {
    Confirmed(u.sends) == AckedSends(u.flushed, u.fates)
  }

  lemma {:induction false} AckedPrefix(flushed: seq<Window>, w: Window, fates: seq<Fate>)
    requires |fates| <= |flushed|
    ensures AckedSends(flushed + [w], fates) == AckedSends(flushed, fates)
  {
    if fates != [] {
      AckedPrefix(flushed, w, fates[..|fates| - 1]);
    }
  }

  lemma ConfirmedSnoc(sends: seq<Send>, x: Send)
    ensures Confirmed(sends + [x]) == Confirmed(sends) + if x.ok then [x] else []
  {
    assert (sends + [x])[..|sends|] == sends;
  }

  lemma AckedSnocSends(flushed: seq<Window>, fates: seq<Fate>, f: Fate)
    requires |fates| < |flushed|
    ensures AckedSends(flushed, fates + [f]) == AckedSends(flushed, fates) +
              match f case Acked(stamp) => [Send(flushed[|fates|], stamp, true)] case Evicted => []
  {
    assert (fates + [f])[..|fates|] == fates;
  }

  lemma {:induction false} FlushMatches(u: Uploader, w: Window)
    requires History(u) && SendsMatch(u)
    ensures |Flushed(u, w).fates| <= |Flushed(u, w).flushed| && SendsMatch(Flushed(u, w))
  {
    AckedPrefix(u.flushed, w, u.fates);
    AckedSnocSends(u.flushed + [w], u.fates, Evicted);
  }

  lemma {:induction false} DeliveryMatches(u: Uploader)
    requires History(u) && SendsMatch(u) && u.ring != []
    ensures |Delivered(u).fates| <= |Delivered(u).flushed| && SendsMatch(Delivered(u))
    ensures SendsMatch(Undelivered(u))
  {
    ConfirmedSnoc(u.sends, Send(u.ring[0], u.dropped, true));
    ConfirmedSnoc(u.sends, Send(u.ring[0], u.dropped, false));
    AckedSnocSends(u.flushed, u.fates, Acked(u.dropped));
  }

  lemma {:induction false} LoopMatches(u: Uploader, e: LoopEvent)
    requires History(u) && SendsMatch(u)
    ensures |LoopNext(u, e).fates| <= |LoopNext(u, e).flushed| && SendsMatch(LoopNext(u, e))
  {
    match e
    case FlushFired(w) => FlushMatches(u, w);
    case RetryFired(ok) =>
      if u.ring != [] {
        DeliveryMatches(u);
      }
  }

  // ---------- the retry timer ----------

  /** At every loop head: the timer is armed exactly while uploads are pending, and the backoff is
      that of the current row of failures. */
  ghost predicate TimerOk(u: Uploader) {
    && (u.armed <==> u.ring != [])
    && u.backoff == BackoffAfter(u.failures)
    && (u.ring == [] ==> u.backoff == BASE_BACKOFF && u.failures == 0)
  }

  lemma {:induction false} LoopKeeps(u: Uploader, e: LoopEvent)
    requires History(u) && LossAccounted(u) && TimerOk(u)
    ensures History(LoopNext(u, e)) && LossAccounted(LoopNext(u, e)) && TimerOk(LoopNext(u, e))
  {
    match e
    case FlushFired(w) => FlushKeeps(u, w);
    case RetryFired(ok) =>
      if u.armed {
        DeliveryKeeps(u);
        BackoffDoubles(u.failures);
        assert Pow2(0) == 1;
      }
  }

  /** Over every run of the loop, whatever flushes and send outcomes it sees: the delivery history
      is in order, every lost summary is either reported or still to be reported, the delivered windows
      are those that got through in a send, and no pending upload is stranded. */
  lemma {:induction false} LoopSafety(cap: nat, es: seq<LoopEvent>)
    requires 1 <= cap
    ensures
      var u := RunLoop(cap, es);
      History(u) && LossAccounted(u) && SendsMatch(u) && TimerOk(u)
  {
    if es == [] {
      assert Pow2(0) == 1;
    } else {
      LoopSafety(cap, es[..|es| - 1]);
      LoopKeeps(RunLoop(cap, es[..|es| - 1]), es[|es| - 1]);
      LoopMatches(RunLoop(cap, es[..|es| - 1]), es[|es| - 1]);
    }
  }

  // ---------- what a run does, told by its events alone ----------

  /** The windows flushed, in order. */
  function WindowsFlushed(es: seq<LoopEvent>): seq<Window> {
    if es == [] then []
    else
      WindowsFlushed(es[..|es| - 1]) +
      match es[|es| - 1]
      case FlushFired(w) => if w == map[] then [] else [w]
      case RetryFired(_) => []
  }

  /** How many windows wait: a flush adds one, up to cap, and a successful send takes one away. */
  function Backlog(cap: nat, es: seq<LoopEvent>): (n: nat)
    ensures n <= cap
  {
    if es == [] then 0
    else
      var n := Backlog(cap, es[..|es| - 1]);
      match es[|es| - 1]
      case FlushFired(w) => if w == map[] || n == cap then n else n + 1
      case RetryFired(ok) => if ok && n > 0 then n - 1 else n
  }

  /** How windows left the ring, in order: true for a successful send while one was waiting, false for a
      flush onto a full ring. Nothing else makes a window leave. */
  function Departures(cap: nat, es: seq<LoopEvent>): seq<bool> {
    if es == [] then []
    else
      var n := Backlog(cap, es[..|es| - 1]);
      Departures(cap, es[..|es| - 1]) +
      match es[|es| - 1]
      case FlushFired(w) => if w != map[] && n == cap then [false] else []
      case RetryFired(ok) => if ok && n > 0 then [true] else []
  }

  /** Sends made: one for each retry while a window was waiting. */
  function SendsMade(cap: nat, es: seq<LoopEvent>): nat {
    if es == [] then 0
    else
      SendsMade(cap, es[..|es| - 1]) +
      if es[|es| - 1].RetryFired? && Backlog(cap, es[..|es| - 1]) > 0 then 1 else 0
  }

  /** Failed sends since the last successful one. */
  function FailuresInRow(cap: nat, es: seq<LoopEvent>): nat {
    if es == [] then 0
    else
      var k := FailuresInRow(cap, es[..|es| - 1]);
      if es[|es| - 1].FlushFired? || Backlog(cap, es[..|es| - 1]) == 0 then k
      else if es[|es| - 1].ok then 0
      else k + 1
  }

  function WereAcked(fates: seq<Fate>): (ks: seq<bool>)
    ensures |ks| == |fates|
  {
    seq(|fates|, i requires 0 <= i < |fates| => fates[i].Acked?)
  }

  lemma AckedSnoc(fates: seq<Fate>, f: Fate)
    ensures WereAcked(fates + [f]) == WereAcked(fates) + [f.Acked?]
  {
  }

  lemma FlushDeparts(u: Uploader, w: Window)
    requires History(u)
    ensures
      var v, full := LoopNext(u, FlushFired(w)), w != map[] && |u.ring| == u.cap;
      && v.flushed == u.flushed + (if w == map[] then [] else [w]) && v.failures == u.failures
      && |v.ring| == |u.ring| + (if w == map[] || full then 0 else 1) && v.sends == u.sends
      && WereAcked(v.fates) == WereAcked(u.fates) + if full then [false] else []
  {
    AckedSnoc(u.fates, Evicted);
  }

  lemma RetryDeparts(u: Uploader, ok: bool)
    requires History(u) && TimerOk(u)
    ensures
      var v, sent := LoopNext(u, RetryFired(ok)), ok && u.ring != [];
      && v.flushed == u.flushed
      && v.failures == (if u.ring == [] then u.failures else if ok then 0 else u.failures + 1)
      && |v.ring| == |u.ring| - (if sent then 1 else 0)
      && |v.sends| == |u.sends| + (if u.ring == [] then 0 else 1)
      && WereAcked(v.fates) == WereAcked(u.fates) + if sent then [true] else []
  {
    AckedSnoc(u.fates, Acked(u.dropped));
  }

  /** Over every run: the windows flushed, the length of the ring, the sends made, the failures in a row and
      the fate of every departed window are those the events tell. So an eviction is a flush onto a full ring and
      nothing else, every successful send delivers, and a failed one takes nothing away. */
  lemma {:induction false} LoopFollowsEvents(cap: nat, es: seq<LoopEvent>)
    requires 1 <= cap
    ensures
      var u := RunLoop(cap, es);
      && u.flushed == WindowsFlushed(es) && |u.ring| == Backlog(cap, es)
      && WereAcked(u.fates) == Departures(cap, es)
      && u.failures == FailuresInRow(cap, es) && |u.sends| == SendsMade(cap, es)
  {
    if es != [] {
      var before := es[..|es| - 1];
      var u := RunLoop(cap, before);
      LoopFollowsEvents(cap, before);
      LoopSafety(cap, before);
      match es[|es| - 1]
      case FlushFired(w) => FlushDeparts(u, w);
      case RetryFired(ok) => RetryDeparts(u, ok);
    }
  }

  /** A failed send leaves everything but the backoff as it was. */
  lemma {:induction false} FailedSendKeeps(cap: nat, es: seq<LoopEvent>)
    requires 1 <= cap
    ensures
      var u, v := RunLoop(cap, es), RunLoop(cap, es + [RetryFired(false)]);
      v.ring == u.ring && v.fates == u.fates && v.dropped == u.dropped && v.flushed == u.flushed
  {
    LoopSafety(cap, es);
    assert (es + [RetryFired(false)])[..|es|] == es;
  }

  /** While no more windows were flushed than fit into the ring, none is lost. */
  lemma {:induction false} NothingLostEarly(cap: nat, es: seq<LoopEvent>)
    requires 1 <= cap && |WindowsFlushed(es)| <= cap
    ensures Backlog(cap, es) <= |WindowsFlushed(es)|
    ensures forall i :: 0 <= i < |Departures(cap, es)| ==> Departures(cap, es)[i]
  {
    if es != [] {
      NothingLostEarly(cap, es[..|es| - 1]);
    }
  }

  // ---------- the final drain ----------

  /** Send number n of a drain; past the outcomes given, sends fail. */
  predicate SendSucceeds(outcomes: seq<bool>, n: nat) {
    n < |outcomes| && outcomes[n]
  }

  /** Successful ones among the first n sends. */
  function Successes(outcomes: seq<bool>, n: nat): nat {
    if n == 0 then 0 else Successes(outcomes, n - 1) + if SendSucceeds(outcomes, n - 1) then 1 else 0
  }

  /** v is u after a last flush of w: only a non-empty window onto a full ring evicts, and then the oldest. */
  ghost predicate FlushedOnce(u: Uploader, w: Window, v: Uploader) {
    var full := w != map[] && |u.ring| == u.cap;
    && v.flushed == u.flushed + (if w == map[] then [] else [w]) && v.sends == u.sends
    && v.fates == u.fates + (if full then [Evicted] else [])
    && v.ring == (if full && u.ring != [] then u.ring[1..] else u.ring) + (if w == map[] then [] else [w])
  }

  /** v is u after its n oldest pending windows were delivered, and nothing else happened. */
  ghost predicate DeliveredFrom(u: Uploader, v: Uploader, n: nat) {
    && n <= |u.ring| && v.ring == u.ring[n..] && v.flushed == u.flushed
    && |v.fates| == |u.fates| + n && v.fates[..|u.fates|] == u.fates
    && (forall i :: |u.fates| <= i < |v.fates| ==> v.fates[i].Acked?)
    && v.dropped == if n == 0 then u.dropped else 0
  }

  lemma FlushedOnceIs(u: Uploader, w: Window)
    requires History(u)
    ensures FlushedOnce(u, w, if w == map[] then u else Flushed(u, w))
  {
  }

  lemma DeliverOneMore(u: Uploader, v: Uploader, n: nat)
    requires DeliveredFrom(u, v, n) && v.ring != []
    ensures DeliveredFrom(u, Delivered(v), n + 1)
  {
    assert u.ring[n..][1..] == u.ring[n + 1..];
  }

  /** After some tries, each made while a window was pending, the successful ones have delivered. */
  ghost predicate Draining(mid: Uploader, v: Uploader, outcomes: seq<bool>, tries: nat) {
    && History(v) && LossAccounted(v) && SendsMatch(v)
    && DeliveredFrom(mid, v, Successes(outcomes, tries)) && |v.sends| == |mid.sends| + tries
    && forall n: nat :: n < tries ==> Successes(outcomes, n) < |mid.ring|
  }

  lemma {:induction false} DrainStep(mid: Uploader, v: Uploader, outcomes: seq<bool>, tries: nat)
    requires Draining(mid, v, outcomes, tries) && v.ring != []
    ensures Draining(mid, if SendSucceeds(outcomes, tries) then Delivered(v) else Undelivered(v), outcomes, tries + 1)
  {
    DeliveryKeeps(v);
    DeliveryMatches(v);
    DeliverOneMore(mid, v, Successes(outcomes, tries));
  }

  // ---------- the uploader object ----------

  /** A built request; its envelope is stamped anew before every send. */
  class UploadRequest {
    const window: Window
    var droppedSummaries: nat

    constructor (w: Window)
      ensures window == w
    {
      window, droppedSummaries := w, 0;
    }
  }

  datatype DrainResult = DrainEmpty | DrainSent | DrainFailed

  ghost function WindowsOf(reqs: seq<UploadRequest>): (ws: seq<Window>)
    ensures |ws| == |reqs|
  {
    seq(|reqs|, i requires 0 <= i < |reqs| => reqs[i].window)
  }

  /** Ring size for a flush window given in nanoseconds: about five minutes of windows. A window below
      one second, also a negative one, counts as one second. */
  function RingCapacity(flushWindow: int): (c: nat)
    ensures c >= MIN_RING_CAPACITY
  {
    var secs := if flushWindow / 1_000_000_000 < 1 then 1 else flushWindow / 1_000_000_000;
    if MIN_RING_CAPACITY < RING_WINDOWS_SPAN / secs then RING_WINDOWS_SPAN / secs else MIN_RING_CAPACITY
  }

  lemma WindowsThatFit(secs: nat)
    requires secs >= 1
    ensures
      var n := RING_WINDOWS_SPAN / secs;
      n * secs <= RING_WINDOWS_SPAN < (n + 1) * secs
  {
  }

  lemma Fewer(n: nat, m: nat, secs: nat)
    requires n <= m
    ensures n * secs <= m * secs
  {
  }

  /** The ring holds as many windows as fit into 300 seconds, and eight exactly when no more than eight
      do. */
  lemma RingSpansFiveMinutes(flushWindow: int)
    ensures
      var c, secs := RingCapacity(flushWindow), if flushWindow < 2_000_000_000 then 1 else flushWindow / 1_000_000_000;
      && (c == MIN_RING_CAPACITY <==> RING_WINDOWS_SPAN < (MIN_RING_CAPACITY + 1) * secs)
      && (c > MIN_RING_CAPACITY ==> c * secs <= RING_WINDOWS_SPAN < (c + 1) * secs)
  {
    var secs := if flushWindow < 2_000_000_000 then 1 else flushWindow / 1_000_000_000;
    var n := RING_WINDOWS_SPAN / secs;
    WindowsThatFit(secs);
    if n <= MIN_RING_CAPACITY {
      Fewer(n + 1, MIN_RING_CAPACITY + 1, secs);
    } else {
      Fewer(MIN_RING_CAPACITY + 1, n, secs);
    }
  }

  class Recorder {
    const ring: Ring<UploadRequest>
    var droppedSummaries: nat
    var backoff: nat
    var retryArmed: bool
    ghost var flushed: seq<Window>
    ghost var fates: seq<Fate>
    ghost var sends: seq<Send>
    ghost var failures: nat

    ghost function Pending(): set<object>
      reads this, ring
    {
      set r: UploadRequest | r in ring.contents :: r as object
    }

    ghost predicate Valid()
      reads this, ring, ring.buf
    {
      ring.Valid()
    }

    ghost function View(): Uploader
      reads this, ring
    {
      Uploader(flushed, fates, sends, WindowsOf(ring.contents), ring.buf.Length, droppedSummaries,
               backoff, retryArmed, failures)
    }

    constructor (flushWindow: int)
      ensures Valid() && View() == Start(RingCapacity(flushWindow))
      ensures fresh(ring) && fresh(ring.buf)
    {
      ring := new Ring<UploadRequest>(RingCapacity(flushWindow));
      droppedSummaries, backoff, retryArmed := 0, BASE_BACKOFF, false;
      flushed, fates, sends, failures := [], [], [], 0;
    }

    /** The part of flush after the shards were swapped. An empty window pushes nothing. */
    method Flush(window: Window) returns (pushed: bool)
      requires Valid() && View().cap >= 1 && |View().ring| <= View().cap
      modifies this, ring, ring.buf
      ensures Valid() && pushed == (window != map[])
      ensures View() == if pushed then Flushed(old(View()), window) else old(View())
      ensures fresh(Pending() - old(Pending()))
    {
      if |window| == 0 {
        return false;
      }
      var req := new UploadRequest(window);
      var evicted := ring.Push(req);
      if evicted.Some? {
        droppedSummaries := droppedSummaries + |evicted.value.window|;
        fates := fates + [Evicted];
      }
      flushed := flushed + [window];
      assert forall r :: r in ring.contents ==> r == req || r in old(ring.contents);
      return true;
    }

    /** Stamp, send, and on success take the stamped amount off the loss counter. */
    method SendStamped(req: UploadRequest, ok: bool) returns (err: bool)
      modifies this`droppedSummaries, this`sends, req
      ensures err == !ok
      ensures req.droppedSummaries == old(droppedSummaries)
      ensures sends == old(sends) + [Send(req.window, req.droppedSummaries, ok)]
      ensures droppedSummaries == if ok then 0 else old(droppedSummaries)
    {
      var stamped := droppedSummaries;
      req.droppedSummaries := stamped;
      sends := sends + [Send(req.window, req.droppedSummaries, ok)];
      if !ok {
        return true;
      }
      droppedSummaries := droppedSummaries - stamped;
      return false;
    }

    /** One attempt at the oldest pending request; ok is the outcome of the upload. */
    method TryDrainOldest(ok: bool) returns (res: DrainResult)
      requires Valid()
      modifies this, ring, ring.buf, Pending()
      ensures Valid()
      ensures res == if old(View()).ring == [] then DrainEmpty else if ok then DrainSent else DrainFailed
      ensures View() == match res
                        case DrainSent => Delivered(old(View()))
                        case DrainFailed => Undelivered(old(View()))
                        case DrainEmpty => old(View())
      ensures Pending() <= old(Pending())
    {
      var req := ring.Peek();
      if req == None {
        return DrainEmpty;
      }
      assert req.value in ring.contents && req.value as object in Pending();
      var err := SendStamped(req.value, ok);
      if err {
        return DrainFailed;
      }
      var _ := ring.PopOldest();
      fates := fates + [Acked(req.value.droppedSummaries)];
      assert forall r :: r in ring.contents ==> r in old(ring.contents);
      return DrainSent;
    }

    /** The flush case of the run loop: the first pending upload since the ring drained kicks the
        retry timer. */
    method OnFlush(w: Window)
      requires Valid() && 1 <= View().cap && |View().ring| <= View().cap
      modifies this, ring, ring.buf
      ensures Valid() && View() == LoopNext(old(View()), FlushFired(w))
      ensures fresh(Pending() - old(Pending()))
    {
      var pushed := Flush(w);
      var n := ring.Len();
      if pushed && n == 1 {
        retryArmed := true;
      }
    }

    /** The retry case of the run loop, when the armed timer fires; drainEmpty never comes up. */
    method OnRetry(ok: bool)
      requires Valid() && History(View()) && TimerOk(View()) && retryArmed
      modifies this, ring, ring.buf, Pending()
      ensures Valid() && View() == LoopNext(old(View()), RetryFired(ok))
      ensures Pending() <= old(Pending())
    {
      var res := TryDrainOldest(ok);
      match res
      case DrainSent =>
        backoff, failures := BASE_BACKOFF, 0;
        var n := ring.Len();
        retryArmed := n > 0;
      case DrainFailed =>
        backoff, failures := NextBackoff(backoff), failures + 1;
      case DrainEmpty =>
        assert false;
    }

    /** The run loop over a script of timer events; a retry event is one firing of the retry timer
        with the outcome of its send. */
    method Run(events: seq<LoopEvent>)
      requires Valid() && View() == Start(View().cap) && View().cap >= 1
      modifies this, ring, ring.buf
      ensures Valid() && View() == RunLoop(old(View()).cap, events)
      ensures fresh(Pending())
    {
      for i := 0 to |events|
        invariant Valid() && View() == RunLoop(old(View()).cap, events[..i])
        invariant fresh(Pending())
      {
        assert events[..i + 1][..i] == events[..i];
        LoopSafety(View().cap, events[..i]);
        match events[i]
        case FlushFired(w) =>
          OnFlush(w);
        case RetryFired(ok) =>
          if retryArmed {
            OnRetry(ok);
          }
      }
      assert events[..|events|] == events;
    }

    /** Oldest-first until the ring is empty or the context has expired, after deadline checks. */
    method DrainPending(outcomes: seq<bool>, deadline: nat) returns (tries: nat)
      requires Valid() && History(View()) && LossAccounted(View()) && SendsMatch(View())
      modifies this, ring, ring.buf, Pending()
      ensures Valid() && tries <= deadline && (View().ring != [] ==> tries == deadline)
      ensures Draining(old(View()), View(), outcomes, tries)
    {
      tries := 0;
      while ring.count > 0 && tries < deadline
        invariant Valid() && tries <= deadline
        invariant Draining(old(View()), View(), outcomes, tries)
        invariant Pending() <= old(Pending())
        decreases deadline - tries
      {
        DrainStep(old(View()), View(), outcomes, tries);
        var res := TryDrainOldest(SendSucceeds(outcomes, tries));
        tries := tries + 1;
      }
    }

    /** Graceful stop: a last flush, then the drain; outcomes are those of the sends. The last flush may
        evict one window from a full ring, every successful send delivers one, and nothing else leaves.
        The drain gives up only at the deadline, and a nil error means that nothing is pending. */
    method Shutdown(last: Window, outcomes: seq<bool>, deadline: nat, expiredAtReturn: bool)
      returns (err: bool, ghost attempts: nat, ghost mid: Uploader)
      requires Valid() && History(View()) && LossAccounted(View()) && SendsMatch(View())
      modifies this, ring, ring.buf, Pending()
      ensures Valid() && FlushedOnce(old(View()), last, mid)
      ensures Draining(mid, View(), outcomes, attempts)
      ensures attempts <= deadline && (View().ring != [] ==> attempts == deadline)
      ensures err <==> attempts == deadline || expiredAtReturn
      ensures !err ==> View().ring == [] && |View().fates| == |View().flushed|
    {
      FlushKeeps(View(), last);
      FlushMatches(View(), last);
      FlushedOnceIs(View(), last);
      var pushed := Flush(last);
      mid := View();
      var tries := DrainPending(outcomes, deadline);
      attempts := tries;
      err := tries >= deadline || expiredAtReturn;
    }
  }

  /** Enough successes before the deadline: the drain returns nil with every pending window delivered. */
  lemma {:induction false} EnoughSuccessesDrain(
    mid: Uploader, v: Uploader, outcomes: seq<bool>, attempts: nat, deadline: nat, n: nat)
    requires Draining(mid, v, outcomes, attempts) && attempts <= deadline
    requires v.ring != [] ==> attempts == deadline
    requires n < deadline && |mid.ring| <= Successes(outcomes, n)
    ensures attempts < deadline && v.ring == []
    ensures |v.fates| == |mid.fates| + |mid.ring|
  {
  }
}
