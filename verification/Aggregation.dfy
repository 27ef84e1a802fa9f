/** The sharded aggregation map under concurrent Observe calls and the flush that swaps it out.

    Series objects live in a heap and are shared by reference, so that a map copied without
    being replaced first still reaches live series. Steps are as fine as the locks: one Observe
    critical section, the locked part of one shard's swap, the copy that follows the unlock.
    The key-to-shard hash is a parameter; nothing depends on which one it is. */
module Aggregation {
  import opened Prelude
  import opened SeriesModel
  import opened SeriesKeys
  import opened Bags

  // ---------- the step system ----------

  type SeriesMap = map<SeriesKey, nat>

  /** The records behind each summary of a flushed window. */
  type Window = map<SeriesKey, seq<Record>>

  /** Between the unlock of a shard and its copy: nothing pending, a map taken out of the shard,
      or the shard's own map, which was empty and therefore left in place. */
  datatype Copying = Idle | Owned(taken: SeriesMap) | Shared

  /** heap holds the records folded into each series object, owner the key it was made for. */
  datatype State = State(
    shardOf: SeriesKey -> Shard, heap: seq<seq<Record>>, owner: seq<SeriesKey>, shards: seq<SeriesMap>,
    flushing: bool, turn: nat, copying: Copying, merged: SeriesMap, windows: seq<Window>)

  datatype Event = Observe(rec: Record) | Begin | Unlock | Copy | Build

  function Init(h: SeriesKey -> Shard): State {
    State(h, [], [], seq(NUM_SHARDS, _ => map[]), false, 0, Idle, map[], [])
  }

  predicate Enabled(s: State, e: Event) {
    match e
    case Observe(_) => true
    case Begin => !s.flushing
    case Unlock => s.flushing && s.turn < NUM_SHARDS && s.copying.Idle?
    case Copy => s.flushing && s.turn < NUM_SHARDS && !s.copying.Idle?
    case Build => s.flushing && s.turn == NUM_SHARDS
  }

  function Contents(m: SeriesMap, heap: seq<seq<Record>>): Window {
    map k | k in m && m[k] < |heap| :: heap[m[k]]
  }

  /** A new key refers to the next object to be allocated. */
  function Grown(m: SeriesMap, k: SeriesKey, heap: seq<seq<Record>>): SeriesMap {
    m[k := |heap|]
  }

  function ObserveStep(s: State, r: Record): State
    requires |s.shards| == NUM_SHARDS
  {
    var k := KeyOf(r);
    var i := s.shardOf(k);
    if k in s.shards[i] && s.shards[i][k] < |s.heap| then
      var ref := s.shards[i][k];
      s.(heap := s.heap[ref := s.heap[ref] + [r]])
    else
      s.(heap := s.heap + [[r]], owner := s.owner + [k],
         shards := s.shards[i := Grown(s.shards[i], k, s.heap)])
  }

  function UnlockStep(s: State): State
    requires s.turn < |s.shards|
  {
    var taken := s.shards[s.turn];
    if |taken| > 0 then s.(shards := s.shards[s.turn := map[]], copying := Owned(taken))
    else s.(copying := Shared)
  }

  function CopyStep(s: State): State
    requires s.turn < |s.shards|
  {
    var src := if s.copying.Owned? then s.copying.taken else s.shards[s.turn];
    s.(merged := s.merged + src, turn := s.turn + 1, copying := Idle)
  }

  /** A window with no series builds no request. */
  function BuildStep(s: State): State {
    s.(flushing := false, merged := map[],
       windows := if s.merged == map[] then s.windows else s.windows + [Contents(s.merged, s.heap)])
  }

  function Next(s: State, e: Event): State
    requires |s.shards| == NUM_SHARDS
  {
    if !Enabled(s, e) then s
    else
      match e
      case Observe(r) => ObserveStep(s, r)
      case Begin => s.(flushing := true, turn := 0, merged := map[], copying := Idle)
      case Unlock => UnlockStep(s)
      case Copy => CopyStep(s)
      case Build => BuildStep(s)
  }

  function Run(h: SeriesKey -> Shard, es: seq<Event>): (s: State)
    ensures |s.shards| == NUM_SHARDS && s.shardOf == h
  {
    if es == [] then Init(h) else Next(Run(h, es[..|es| - 1]), es[|es| - 1])
  }

  // ---------- where records are ----------

  ghost function LiveBag(shards: seq<SeriesMap>, heap: seq<seq<Record>>): multiset<Record> {
    if shards == [] then multiset{}
    else LiveBag(shards[..|shards| - 1], heap) + Bag(Contents(shards[|shards| - 1], heap))
  }

  ghost function WindowsBag(ws: seq<Window>): multiset<Record> {
    if ws == [] then multiset{} else WindowsBag(ws[..|ws| - 1]) + Bag(ws[|ws| - 1])
  }

  ghost function PendingBag(c: Copying, heap: seq<seq<Record>>): multiset<Record> {
    if c.Owned? then Bag(Contents(c.taken, heap)) else multiset{}
  }

  /** Everything held in live shards, in a map being copied, in the partial merge and in the
      windows built so far, counted with multiplicity. */
  ghost function Places(s: State): multiset<Record> {
    LiveBag(s.shards, s.heap) + PendingBag(s.copying, s.heap)
      + Bag(Contents(s.merged, s.heap)) + WindowsBag(s.windows)
  }

  ghost function Accepted(es: seq<Event>): multiset<Record> {
    if es == [] then multiset{}
    else Accepted(es[..|es| - 1]) + match es[|es| - 1] case Observe(r) => multiset{r} case _ => multiset{}
  }

  // ---------- invariants ----------

  /** Every reference is to an allocated series made for that key. */
  ghost predicate Bound(m: SeriesMap, s: State) {
    forall k :: k in m ==> m[k] < |s.heap| && |s.owner| == |s.heap| && s.owner[m[k]] == k
  }

  ghost predicate HeapOk(s: State) {
    && |s.owner| == |s.heap|
    && (forall ref :: 0 <= ref < |s.heap| ==> s.heap[ref] != [])
  }

  /** Each shard holds only keys that hash to it. */
  ghost predicate ShardsOk(s: State) {
    && |s.shards| == NUM_SHARDS
    && (forall i :: 0 <= i < NUM_SHARDS ==> Bound(s.shards[i], s))
    && (forall i, k :: 0 <= i < NUM_SHARDS && k in s.shards[i] ==> s.shardOf(k) == i)
  }

  /** The partial merge holds keys of the shards already done, a taken map keys of the current one. */
  ghost predicate FlushOk(s: State) {
    && s.turn <= NUM_SHARDS
    && Bound(s.merged, s)
    && (forall k :: k in s.merged ==> s.shardOf(k) < s.turn)
    && (s.copying.Owned? ==> Bound(s.copying.taken, s))
    && (s.copying.Owned? ==> forall k :: k in s.copying.taken ==> s.shardOf(k) == s.turn)
    && (!s.copying.Idle? ==> s.turn < NUM_SHARDS)
    && (!s.flushing ==> s.merged == map[] && s.copying.Idle?)
  }

  ghost predicate WellFormed(s: State) {
    HeapOk(s) && ShardsOk(s) && FlushOk(s)
  }

  /** No series is reachable both from a live shard and from a swapped-out map. */
  ghost predicate Separate(s: State)
    requires |s.shards| == NUM_SHARDS
  {
    && Apart(s.shardOf, s.merged, s.shards)
    && (s.copying.Owned? ==> Apart(s.shardOf, s.copying.taken, s.shards))
  }

  ghost predicate Apart(h: SeriesKey -> Shard, m: SeriesMap, shards: seq<SeriesMap>)
    requires |shards| == NUM_SHARDS
  {
    forall k :: k in m && k in shards[h(k)] ==> shards[h(k)][k] != m[k]
  }

  // ---------- observing ----------

  /** Appending to one series object shows in a map exactly when the map refers to it. */
  lemma {:induction false} AppendShows(m: SeriesMap, s: State, k: SeriesKey, r: Record, ref: nat)
    requires Bound(m, s) && ref < |s.heap| && |s.owner| == |s.heap| && s.owner[ref] == k
    ensures Bag(Contents(m, s.heap[ref := s.heap[ref] + [r]])) ==
            Bag(Contents(m, s.heap)) + if k in m && m[k] == ref then multiset{r} else multiset{}
  {
    var before, after := Contents(m, s.heap), Contents(m, s.heap[ref := s.heap[ref] + [r]]);
    if k in m && m[k] == ref {
      assert after == before[k := before[k] + [r]];
      BagAppend(before, k, r);
    } else {
      assert after == before;
    }
  }

  /** A fresh series object is invisible to every older map. */
  lemma AllocHidden(m: SeriesMap, s: State, r: Record)
    requires Bound(m, s)
    ensures Contents(m, s.heap + [[r]]) == Contents(m, s.heap)
  {
  }

  lemma AddAside<R>(a: multiset<R>, b: multiset<R>, x: multiset<R>, a': multiset<R>, b': multiset<R>, i: nat, n: nat)
    requires a' == a + if i < n then x else multiset{}
    requires b' == b + if i == n then x else multiset{}
    ensures a' + b' == (a + b) + if i < n + 1 then x else multiset{}
  {
  }

  /** Appending to a series that only shard i refers to adds one record to the live shards. */
  lemma {:induction false} LiveAppend(shards: seq<SeriesMap>, s: State, i: nat, k: SeriesKey, r: Record, ref: nat)
    requires forall j :: 0 <= j < |shards| ==> Bound(shards[j], s)
    requires ref < |s.heap| && |s.owner| == |s.heap| && s.owner[ref] == k
    requires forall j :: 0 <= j < |shards| ==> (k in shards[j] && shards[j][k] == ref <==> j == i)
    ensures LiveBag(shards, s.heap[ref := s.heap[ref] + [r]]) ==
            LiveBag(shards, s.heap) + if i < |shards| then multiset{r} else multiset{}
  {
    if shards != [] {
      var n := |shards| - 1;
      LiveAppend(shards[..n], s, i, k, r, ref);
      AppendShows(shards[n], s, k, r, ref);
      var heap := s.heap[ref := s.heap[ref] + [r]];
      AddAside(LiveBag(shards[..n], s.heap), Bag(Contents(shards[n], s.heap)), multiset{r},
               LiveBag(shards[..n], heap), Bag(Contents(shards[n], heap)), i, n);
    }
  }

  lemma {:induction false} LiveHidden(shards: seq<SeriesMap>, s: State, r: Record)
    requires forall j :: 0 <= j < |shards| ==> Bound(shards[j], s)
    ensures LiveBag(shards, s.heap + [[r]]) == LiveBag(shards, s.heap)
  {
    if shards != [] {
      LiveHidden(shards[..|shards| - 1], s, r);
      AllocHidden(shards[|shards| - 1], s, r);
    }
  }

  lemma Exchange<R>(a: multiset<R>, b: multiset<R>, x: multiset<R>, y: multiset<R>, l: multiset<R>)
    requires a + x == b + y
    ensures (a + l) + x == (b + l) + y
  {
    forall r ensures ((a + l) + x)[r] == ((b + l) + y)[r] {
      assert (a + x)[r] == (b + y)[r];
    }
  }

  /** Replacing one shard's map trades its records for those of the new map. */
  lemma {:induction false} LiveReplace(shards: seq<SeriesMap>, i: nat, m: SeriesMap, heap: seq<seq<Record>>)
    requires i < |shards|
    ensures LiveBag(shards[i := m], heap) + Bag(Contents(shards[i], heap)) ==
            LiveBag(shards, heap) + Bag(Contents(m, heap))
  {
    var n := |shards| - 1;
    if i < n {
      assert shards[i := m][..n] == shards[..n][i := m];
      LiveReplace(shards[..n], i, m, heap);
      Exchange(LiveBag(shards[..n][i := m], heap), LiveBag(shards[..n], heap),
               Bag(Contents(shards[i], heap)), Bag(Contents(m, heap)), Bag(Contents(shards[n], heap)));
    } else {
      assert shards[i := m][..n] == shards[..n];
    }
  }

  lemma Cancel<R>(a: multiset<R>, b: multiset<R>, l: multiset<R>, x: multiset<R>)
    requires a + b == l + (b + x)
    ensures a == l + x
  {
    forall r ensures a[r] == (l + x)[r] {
      assert (a + b)[r] == (l + (b + x))[r];
    }
  }

  lemma GrownContents(s: State, i: nat, k: SeriesKey, r: Record)
    requires i < |s.shards| && k !in s.shards[i] && Bound(s.shards[i], s)
    ensures Bag(Contents(Grown(s.shards[i], k, s.heap), s.heap + [[r]])) ==
            Bag(Contents(s.shards[i], s.heap)) + multiset{r}
  {
    var m, heap := Grown(s.shards[i], k, s.heap), s.heap + [[r]];
    assert Contents(m, heap) == Contents(s.shards[i], s.heap)[k := [r]];
    BagInsert(Contents(s.shards[i], s.heap), k, [r]);
    assert multiset([r]) == multiset{r};
  }

  lemma {:induction false} LiveAlloc(s: State, i: nat, k: SeriesKey, r: Record)
    requires i < |s.shards| && k !in s.shards[i]
    requires forall j :: 0 <= j < |s.shards| ==> Bound(s.shards[j], s)
    ensures LiveBag(s.shards[i := Grown(s.shards[i], k, s.heap)], s.heap + [[r]]) ==
            LiveBag(s.shards, s.heap) + multiset{r}
  {
    var m, heap := Grown(s.shards[i], k, s.heap), s.heap + [[r]];
    LiveHidden(s.shards, s, r);
    LiveReplace(s.shards, i, m, heap);
    AllocHidden(s.shards[i], s, r);
    GrownContents(s, i, k, r);
    Cancel(LiveBag(s.shards[i := m], heap), Bag(Contents(s.shards[i], s.heap)),
           LiveBag(s.shards, s.heap), multiset{r});
  }

  // ---------- what each step does to the places ----------

  lemma AddOne<R>(l: multiset<R>, p: multiset<R>, m: multiset<R>, w: multiset<R>, x: multiset<R>,
                  p': multiset<R>, m': multiset<R>)
    requires p <= p' && m <= m'
    ensures (l + p + m + w) + x <= (l + x) + p' + m' + w
    ensures p == p' && m == m' ==> (l + x) + p' + m' + w == (l + p + m + w) + x
  {
  }

  lemma {:induction false} LiveKnown(s: State, r: Record)
    requires WellFormed(s) && KeyOf(r) in s.shards[s.shardOf(KeyOf(r))]
    ensures
      var k := KeyOf(r);
      var ref := s.shards[s.shardOf(k)][k];
      && ref < |s.heap| && s.owner[ref] == k
      && ObserveStep(s, r) == s.(heap := s.heap[ref := s.heap[ref] + [r]])
      && LiveBag(s.shards, ObserveStep(s, r).heap) == LiveBag(s.shards, s.heap) + multiset{r}
  {
    var k := KeyOf(r);
    var i := s.shardOf(k);
    assert Bound(s.shards[i], s);
    LiveAppend(s.shards, s, i, k, r, s.shards[i][k]);
  }

  /** Another record for a series that a live shard refers to. */
  lemma {:induction false} ObserveKnown(s: State, r: Record)
    requires WellFormed(s) && KeyOf(r) in s.shards[s.shardOf(KeyOf(r))]
    ensures Places(s) + multiset{r} <= Places(ObserveStep(s, r))
    ensures Separate(s) ==> Places(ObserveStep(s, r)) == Places(s) + multiset{r}
  {
    var k := KeyOf(r);
    var ref := s.shards[s.shardOf(k)][k];
    var heap := ObserveStep(s, r).heap;
    LiveKnown(s, r);
    AppendShows(s.merged, s, k, r, ref);
    if s.copying.Owned? {
      AppendShows(s.copying.taken, s, k, r, ref);
    }
    AddOne(LiveBag(s.shards, s.heap), PendingBag(s.copying, s.heap), Bag(Contents(s.merged, s.heap)),
           WindowsBag(s.windows), multiset{r}, PendingBag(s.copying, heap), Bag(Contents(s.merged, heap)));
  }

  /** The first record of a series. */
  lemma {:induction false} ObserveNew(s: State, r: Record)
    requires WellFormed(s) && KeyOf(r) !in s.shards[s.shardOf(KeyOf(r))]
    ensures Places(ObserveStep(s, r)) == Places(s) + multiset{r}
  {
    var k := KeyOf(r);
    var i := s.shardOf(k);
    LiveAlloc(s, i, k, r);
    AllocHidden(s.merged, s, r);
    if s.copying.Owned? {
      AllocHidden(s.copying.taken, s, r);
    }
    var p, m := PendingBag(s.copying, s.heap), Bag(Contents(s.merged, s.heap));
    AddOne(LiveBag(s.shards, s.heap), p, m, WindowsBag(s.windows), multiset{r}, p, m);
  }

  lemma Move<R>(l: multiset<R>, l': multiset<R>, x: multiset<R>, m: multiset<R>, w: multiset<R>)
    requires l' + x == l
    ensures l' + x + m + w == l + multiset{} + m + w
  {
  }

  lemma {:induction false} UnlockPlaces(s: State)
    requires WellFormed(s) && Enabled(s, Unlock)
    ensures Places(UnlockStep(s)) == Places(s)
  {
    if |s.shards[s.turn]| > 0 {
      LiveReplace(s.shards, s.turn, map[], s.heap);
      assert Contents(map[], s.heap) == map[];
      Move(LiveBag(s.shards, s.heap), LiveBag(s.shards[s.turn := map[]], s.heap),
           Bag(Contents(s.shards[s.turn], s.heap)), Bag(Contents(s.merged, s.heap)), WindowsBag(s.windows));
    }
  }

  lemma ContentsUnion(m: SeriesMap, n: SeriesMap, s: State)
    requires Bound(m, s) && Bound(n, s)
    ensures Contents(m + n, s.heap) == Contents(m, s.heap) + Contents(n, s.heap)
  {
  }

  /** A copy finds no key that the partial merge already has. */
  lemma {:induction false} MergeBag(s: State, src: SeriesMap)
    requires WellFormed(s) && Bound(src, s) && forall k :: k in src ==> s.shardOf(k) == s.turn
    ensures s.merged.Keys !! src.Keys
    ensures Bag(Contents(s.merged + src, s.heap)) == Bag(Contents(s.merged, s.heap)) + Bag(Contents(src, s.heap))
  {
    ContentsUnion(s.merged, src, s);
    BagUnion(Contents(s.merged, s.heap), Contents(src, s.heap));
  }

  lemma {:induction false} CopyTaken(s: State)
    requires WellFormed(s) && Enabled(s, Copy) && s.copying.Owned?
    ensures Places(CopyStep(s)) == Places(s)
  {
    MergeBag(s, s.copying.taken);
  }

  /** A map of series holds no record exactly when it is empty. */
  lemma {:induction false} HeldBag(m: SeriesMap, s: State)
    requires HeapOk(s) && Bound(m, s)
    ensures m == map[] ==> Bag(Contents(m, s.heap)) == multiset{}
    ensures m != map[] ==> |Bag(Contents(m, s.heap))| > 0
  {
    var c := Contents(m, s.heap);
    assert c.Keys == m.Keys;
    if m == map[] {
      assert c == map[];
    } else {
      assert c != map[];
      BagNonEmpty(c);
    }
  }

  /** Copying a map that is still live duplicates everything it holds. */
  lemma {:induction false} CopyShared(s: State)
    requires WellFormed(s) && Enabled(s, Copy) && s.copying.Shared?
    ensures Places(CopyStep(s)) == Places(s) + Bag(Contents(s.shards[s.turn], s.heap))
    ensures s.shards[s.turn] == map[] ==> Bag(Contents(s.shards[s.turn], s.heap)) == multiset{}
    ensures s.shards[s.turn] != map[] ==> |Bag(Contents(s.shards[s.turn], s.heap))| > 0
  {
    assert Bound(s.shards[s.turn], s);
    MergeBag(s, s.shards[s.turn]);
    HeldBag(s.shards[s.turn], s);
  }

  lemma {:induction false} BuildPlaces(s: State)
    requires WellFormed(s) && Enabled(s, Build)
    ensures Places(BuildStep(s)) == Places(s)
  {
    assert Contents(map[], s.heap) == map[];
    var w := Contents(s.merged, s.heap);
    assert (s.windows + [w])[..|s.windows|] == s.windows;
  }

  // ---------- the invariants are kept ----------

  lemma {:induction false} WellFormedObserve(s: State, r: Record)
    requires WellFormed(s)
    ensures WellFormed(ObserveStep(s, r))
  {
    var t := ObserveStep(s, r);
    assert HeapOk(t);
    assert forall m :: Bound(m, s) ==> Bound(m, t);
  }

  lemma {:induction false} WellFormedCopy(s: State)
    requires WellFormed(s) && Enabled(s, Copy)
    ensures WellFormed(CopyStep(s))
  {
    assert Bound(s.shards[s.turn], s);
  }

  lemma {:induction false} WellFormedNext(s: State, e: Event)
    requires WellFormed(s)
    ensures WellFormed(Next(s, e))
  {
    if Enabled(s, e) {
      match e
      case Observe(r) => WellFormedObserve(s, r);
      case Begin =>
      case Unlock => assert Bound(s.shards[s.turn], s);
      case Copy => WellFormedCopy(s);
      case Build =>
    }
  }

  lemma {:induction false} SeparateObserve(s: State, r: Record)
    requires WellFormed(s) && Separate(s)
    ensures Separate(ObserveStep(s, r))
  {
  }

  lemma {:induction false} SeparateNext(s: State, e: Event)
    requires WellFormed(s) && Separate(s) && !RacyCopy(s, e)
    ensures Separate(Next(s, e))
  {
    if Enabled(s, e) {
      match e
      case Observe(r) => SeparateObserve(s, r);
      case Begin =>
      case Unlock =>
      case Copy =>
      case Build =>
    }
  }

  // ---------- runs ----------

  /** The copy reads a map that an Observe has filled since the unlock: the shard was empty when
      it was locked, so its map was never replaced. */
  ghost predicate RacyCopy(s: State, e: Event)
    requires |s.shards| == NUM_SHARDS
  {
    e.Copy? && Enabled(s, e) && s.copying.Shared? && s.shards[s.turn] != map[]
  }

  ghost predicate HasRacyCopy(h: SeriesKey -> Shard, es: seq<Event>) {
    es != [] && (HasRacyCopy(h, es[..|es| - 1]) || RacyCopy(Run(h, es[..|es| - 1]), es[|es| - 1]))
  }

  /** The records an event brings in. */
  ghost function Brought(e: Event): multiset<Record> {
    match e case Observe(r) => multiset{r} case _ => multiset{}
  }

  /** One step: nothing is lost, and nothing is duplicated except by a racy copy. */
  lemma {:induction false} StepPlaces(s: State, e: Event)
    requires WellFormed(s)
    ensures Places(s) + Brought(e) <= Places(Next(s, e))
    ensures Separate(s) && !RacyCopy(s, e) ==> Places(Next(s, e)) == Places(s) + Brought(e)
    ensures RacyCopy(s, e) ==> |Places(Next(s, e))| > |Places(s)|
  {
    if Enabled(s, e) {
      match e
      case Observe(r) =>
        if KeyOf(r) in s.shards[s.shardOf(KeyOf(r))] { ObserveKnown(s, r); } else { ObserveNew(s, r); }
      case Begin =>
        assert Contents(map[], s.heap) == map[];
      case Unlock => UnlockPlaces(s);
      case Copy =>
        if s.copying.Owned? { CopyTaken(s); } else { CopyShared(s); }
      case Build => BuildPlaces(s);
    }
  }

  lemma {:induction false} NothingLive(shards: seq<SeriesMap>, heap: seq<seq<Record>>)
    requires forall i :: 0 <= i < |shards| ==> shards[i] == map[]
    ensures LiveBag(shards, heap) == multiset{}
  {
    if shards != [] {
      NothingLive(shards[..|shards| - 1], heap);
      assert Contents(map[], heap) == map[];
    }
  }

  lemma {:induction false} InitPlaces(h: SeriesKey -> Shard)
    ensures WellFormed(Init(h)) && Separate(Init(h)) && Places(Init(h)) == multiset{}
  {
    NothingLive(Init(h).shards, []);
    assert Contents(map[], []) == map[];
  }

  lemma SubBag<R>(a: multiset<R>, b: multiset<R>)
    requires a <= b
    ensures |a| <= |b|
  {
    assert b == a + (b - a);
  }

  /** Slack between what was accepted and what is held never shrinks. */
  lemma Slack<R>(accepted: multiset<R>, places: multiset<R>, x: multiset<R>, places': multiset<R>)
    requires accepted <= places && places + x <= places'
    ensures accepted + x <= places'
    ensures |accepted| < |places| ==> |accepted + x| < |places'|
    ensures |x| == 0 && |places| < |places'| ==> |accepted + x| < |places'|
  {
    SubBag(accepted, places);
    SubBag(places + x, places');
  }

  lemma {:induction false} RunInvariant(h: SeriesKey -> Shard, es: seq<Event>)
    ensures WellFormed(Run(h, es))
    ensures Accepted(es) <= Places(Run(h, es))
    ensures HasRacyCopy(h, es) ==> |Accepted(es)| < |Places(Run(h, es))|
    ensures !HasRacyCopy(h, es) ==> Separate(Run(h, es)) && Places(Run(h, es)) == Accepted(es)
  {
    if es == [] {
      InitPlaces(h);
    } else {
      var pre, e := es[..|es| - 1], es[|es| - 1];
      var s := Run(h, pre);
      RunInvariant(h, pre);
      WellFormedNext(s, e);
      StepPlaces(s, e);
      Slack(Accepted(pre), Places(s), Brought(e), Places(Next(s, e)));
      if !HasRacyCopy(h, es) {
        SeparateNext(s, e);
      }
    }
  }

  /** Exactly-once: every accepted record is in exactly one place, once, at every moment of a run
      if and only if no copy has raced with an Observe; and no record is ever lost either way. */
  lemma {:induction false} ExactlyOnce(h: SeriesKey -> Shard, es: seq<Event>)
    ensures Places(Run(h, es)) == Accepted(es) <==> !HasRacyCopy(h, es)
    ensures Accepted(es) <= Places(Run(h, es))
  {
    RunInvariant(h, es);
  }

  // ---------- every record is filed under its own key ----------

  ghost predicate OfKey(rs: seq<Record>, k: SeriesKey) {
    forall j :: 0 <= j < |rs| ==> KeyOf(rs[j]) == k
  }

  ghost predicate WindowKeyed(w: Window) {
    forall k :: k in w ==> OfKey(w[k], k)
  }

  ghost predicate Keyed(s: State) {
    && |s.owner| == |s.heap|
    && (forall ref :: 0 <= ref < |s.heap| ==> OfKey(s.heap[ref], s.owner[ref]))
    && (forall i :: 0 <= i < |s.windows| ==> WindowKeyed(s.windows[i]))
  }

  lemma {:induction false} ContentsKeyed(m: SeriesMap, s: State)
    requires Keyed(s) && Bound(m, s)
    ensures WindowKeyed(Contents(m, s.heap))
  {
  }

  lemma {:induction false} KeyedObserve(s: State, r: Record)
    requires WellFormed(s) && Keyed(s)
    ensures Keyed(ObserveStep(s, r))
  {
    assert Bound(s.shards[s.shardOf(KeyOf(r))], s);
  }

  lemma {:induction false} KeyedNext(s: State, e: Event)
    requires WellFormed(s) && Keyed(s)
    ensures Keyed(Next(s, e))
  {
    if e.Observe? {
      KeyedObserve(s, e.rec);
    } else if e.Build? {
      ContentsKeyed(s.merged, s);
    }
  }

  /** Over every run, racy or not, each summary of a window holds requests of its own series only. */
  lemma {:induction false} RunKeyed(h: SeriesKey -> Shard, es: seq<Event>)
    ensures Keyed(Run(h, es))
  {
    if es != [] {
      var pre := es[..|es| - 1];
      RunKeyed(h, pre);
      RunInvariant(h, pre);
      KeyedNext(Run(h, pre), es[|es| - 1]);
    }
  }

  // ---------- order ----------

  /** The observed records of one series, in order. */
  function ObservedOf(es: seq<Event>, k: SeriesKey): seq<Record> {
    if es == [] then []
    else
      ObservedOf(es[..|es| - 1], k) +
      match es[|es| - 1] case Observe(r) => (if KeyOf(r) == k then [r] else []) case _ => []
  }

  /** The records held by the series objects made for k, in the order the objects were made. */
  function Held(heap: seq<seq<Record>>, owner: seq<SeriesKey>, k: SeriesKey): seq<Record>
    requires |owner| == |heap|
  {
    if heap == [] then []
    else
      var n := |heap| - 1;
      Held(heap[..n], owner[..n], k) + if owner[n] == k then heap[n] else []
  }

  /** The live series object of a key is the newest made for it. */
  ghost predicate NewestLive(s: State) {
    && |s.shards| == NUM_SHARDS && |s.owner| == |s.heap|
    && forall k, ref :: k in s.shards[s.shardOf(k)] && s.shards[s.shardOf(k)][k] < ref < |s.heap| ==> s.owner[ref] != k
  }

  lemma {:induction false} NewestNext(s: State, e: Event)
    requires WellFormed(s) && NewestLive(s)
    ensures NewestLive(Next(s, e))
  {
  }

  lemma {:induction false} HeldAppend(
    heap: seq<seq<Record>>, owner: seq<SeriesKey>, k: SeriesKey, j: SeriesKey, ref: nat, r: Record)
    requires |owner| == |heap| && ref < |heap| && owner[ref] == k
    requires forall i :: ref < i < |heap| ==> owner[i] != k
    ensures Held(heap[ref := heap[ref] + [r]], owner, j) == Held(heap, owner, j) + if j == k then [r] else []
  {
    var n := |heap| - 1;
    var grown := heap[ref := heap[ref] + [r]];
    if ref < n {
      assert grown[..n] == heap[..n][ref := heap[..n][ref] + [r]];
      HeldAppend(heap[..n], owner[..n], k, j, ref, r);
    } else {
      assert grown[..n] == heap[..n];
    }
  }

  lemma HeldAlloc(heap: seq<seq<Record>>, owner: seq<SeriesKey>, k: SeriesKey, j: SeriesKey, r: Record)
    requires |owner| == |heap|
    ensures Held(heap + [[r]], owner + [k], j) == Held(heap, owner, j) + if j == k then [r] else []
  {
    assert (heap + [[r]])[..|heap|] == heap && (owner + [k])[..|heap|] == owner;
  }

  lemma {:induction false} HeldObserve(s: State, r: Record, j: SeriesKey)
    requires WellFormed(s) && NewestLive(s)
    ensures
      var t := ObserveStep(s, r);
      |t.owner| == |t.heap| &&
      Held(t.heap, t.owner, j) == Held(s.heap, s.owner, j) + if KeyOf(r) == j then [r] else []
  {
    var k := KeyOf(r);
    var m := s.shards[s.shardOf(k)];
    assert Bound(m, s);
    if k in m {
      HeldAppend(s.heap, s.owner, k, j, m[k], r);
    } else {
      HeldAlloc(s.heap, s.owner, k, j, r);
    }
  }

  /** Over every run, racy or not, and for every series: the objects made for it hold, one after the
      other, exactly its observed records in their order. */
  lemma {:induction false} SeriesInOrder(h: SeriesKey -> Shard, es: seq<Event>, k: SeriesKey)
    ensures NewestLive(Run(h, es)) && Held(Run(h, es).heap, Run(h, es).owner, k) == ObservedOf(es, k)
  {
    if es != [] {
      var pre, e := es[..|es| - 1], es[|es| - 1];
      SeriesInOrder(h, pre, k);
      RunInvariant(h, pre);
      NewestNext(Run(h, pre), e);
      if e.Observe? {
        HeldObserve(Run(h, pre), e.rec, k);
      }
    }
  }

  // ---------- swapped-out series are frozen ----------

  /** An allocated series that no live shard refers to. */
  ghost predicate NotLive(s: State, ref: nat)
    requires |s.shards| == NUM_SHARDS
  {
    ref < |s.heap| && forall i, k :: 0 <= i < NUM_SHARDS && k in s.shards[i] ==> s.shards[i][k] != ref
  }

  /** From s to t the series keeps its records. */
  ghost predicate Unchanged(s: State, t: State, ref: nat) {
    ref < |s.heap| <= |t.heap| && t.heap[ref] == s.heap[ref]
  }

  lemma {:induction false} NotLiveNext(s: State, e: Event, ref: nat)
    requires |s.shards| == NUM_SHARDS && NotLive(s, ref)
    ensures NotLive(Next(s, e), ref) && Unchanged(s, Next(s, e), ref)
  {
  }

  lemma {:induction false} NotLiveStays(h: SeriesKey -> Shard, es: seq<Event>, fs: seq<Event>, ref: nat)
    requires NotLive(Run(h, es), ref)
    ensures NotLive(Run(h, es + fs), ref) && Unchanged(Run(h, es), Run(h, es + fs), ref)
  {
    if fs == [] {
      assert es + fs == es;
    } else {
      var n := |fs| - 1;
      assert (es + fs)[..|es| + n] == es + fs[..n];
      NotLiveStays(h, es, fs[..n], ref);
      NotLiveNext(Run(h, es + fs[..n]), fs[n], ref);
    }
  }

  lemma {:induction false} ApartNotLive(s: State, m: SeriesMap, k: SeriesKey)
    requires WellFormed(s) && Bound(m, s) && Apart(s.shardOf, m, s.shards) && k in m
    ensures NotLive(s, m[k])
  {
    forall i, j | 0 <= i < NUM_SHARDS && j in s.shards[i] ensures s.shards[i][j] != m[k] {
      assert Bound(s.shards[i], s);
    }
  }

  /** The maps a flush has swapped out and not yet built into a window. */
  ghost predicate SwappedOut(s: State, m: SeriesMap) {
    m == s.merged || s.copying == Owned(m)
  }

  lemma {:induction false} SwappedOutNotLive(s: State, m: SeriesMap, k: SeriesKey)
    requires WellFormed(s) && Separate(s) && SwappedOut(s, m) && k in m
    ensures NotLive(s, m[k])
  {
    ApartNotLive(s, m, k);
  }

  lemma ContentsFrozen(m: SeriesMap, s: State, t: State)
    requires forall k :: k in m ==> Unchanged(s, t, m[k])
    ensures Contents(m, t.heap) == Contents(m, s.heap)
  {
    assert forall k :: k in m ==> Unchanged(s, t, m[k]) && m[k] < |s.heap|;
  }

  /** Without a racy copy, a series that was swapped out never changes again: in every continuation of
      the run, through the build and after it, the swapped-out maps reach the same records. */
  lemma {:induction false} SwappedOutIsFrozen(h: SeriesKey -> Shard, es: seq<Event>, fs: seq<Event>, m: SeriesMap)
    requires !HasRacyCopy(h, es) && SwappedOut(Run(h, es), m)
    ensures forall k :: k in m ==> Unchanged(Run(h, es), Run(h, es + fs), m[k])
    ensures Contents(m, Run(h, es + fs).heap) == Contents(m, Run(h, es).heap)
  {
    var s, t := Run(h, es), Run(h, es + fs);
    RunInvariant(h, es);
    forall k | k in m ensures Unchanged(s, t, m[k]) {
      SwappedOutNotLive(s, m, k);
      NotLiveStays(h, es, fs, m[k]);
    }
    ContentsFrozen(m, s, t);
  }

  /** A record that is counted under k. */
  function RecordFor(k: SeriesKey): (r: Record)
    ensures KeyOf(r) == k
  {
    var status := match k.cls case Class2xx => 200 case Class3xx => 300 case Class4xx => 400
                               case Class5xx => 500 case NoStatus => 0;
    Record(k.verb, k.route, status, 0, 0, 0, 0, [], [], [], [], 0, 0)
  }

  lemma {:induction false} LiveChanges(s: State, i: nat, k: SeriesKey)
    requires WellFormed(s) && i < NUM_SHARDS && k in s.shards[i]
    ensures !Unchanged(s, Next(s, Observe(RecordFor(k))), s.shards[i][k])
  {
    assert Bound(s.shards[i], s);
    var ref := s.shards[i][k];
    assert |s.heap[ref] + [RecordFor(k)]| > |s.heap[ref]|;
  }

  /** Exactly the series out of reach of the live shards are frozen, with or without a race. */
  lemma {:induction false} FrozenIffNotLive(h: SeriesKey -> Shard, es: seq<Event>, ref: nat)
    requires ref < |Run(h, es).heap|
    ensures (forall fs :: Unchanged(Run(h, es), Run(h, es + fs), ref)) <==> NotLive(Run(h, es), ref)
  {
    var s := Run(h, es);
    if NotLive(s, ref) {
      forall fs ensures Unchanged(s, Run(h, es + fs), ref) {
        NotLiveStays(h, es, fs, ref);
      }
    } else {
      var i, k :| 0 <= i < NUM_SHARDS && k in s.shards[i] && s.shards[i][k] == ref;
      RunInvariant(h, es);
      LiveChanges(s, i, k);
      RunSnoc(h, es, Observe(RecordFor(k)));
    }
  }

  // ---------- coarse swaps, and the race ----------

  /** Every event happens when it can. */
  ghost predicate Feasible(h: SeriesKey -> Shard, es: seq<Event>) {
    es == [] || (Feasible(h, es[..|es| - 1]) && Enabled(Run(h, es[..|es| - 1]), es[|es| - 1]))
  }

  /** Each copy directly follows its unlock, as if the lock covered both. */
  ghost predicate AtomicSwaps(es: seq<Event>) {
    forall i :: 0 <= i < |es| && es[i].Copy? ==> i > 0 && es[i - 1].Unlock?
  }

  lemma {:induction false} AtomicSwapsNeverRace(h: SeriesKey -> Shard, es: seq<Event>)
    requires Feasible(h, es) && AtomicSwaps(es)
    ensures !HasRacyCopy(h, es)
  {
    if es != [] {
      var n := |es| - 1;
      assert forall i :: 0 <= i < n ==> es[..n][i] == es[i];
      AtomicSwapsNeverRace(h, es[..n]);
      if es[n].Copy? {
        assert es[n - 1].Unlock?;
        assert es[..n][n - 1] == es[n - 1];
        UnlockLeavesEmpty(Run(h, es[..n][..n - 1]));
      }
    }
  }

  lemma UnlockLeavesEmpty(s: State)
    requires |s.shards| == NUM_SHARDS && Enabled(s, Unlock)
    ensures UnlockStep(s).shards[s.turn] == map[]
  {
  }

  lemma RunSnoc(h: SeriesKey -> Shard, es: seq<Event>, e: Event)
    ensures Run(h, es + [e]) == Next(Run(h, es), e)
    ensures Accepted(es + [e]) == Accepted(es) + Brought(e)
    ensures HasRacyCopy(h, es + [e]) <==> HasRacyCopy(h, es) || RacyCopy(Run(h, es), e)
  {
    assert (es + [e])[..|es|] == es;
  }

  /** n shards swapped one after the other. */
  function Swaps(n: nat): seq<Event> {
    if n == 0 then [Begin] else Swaps(n - 1) + [Unlock] + [Copy]
  }

  /** Between es and its continuation fs nothing was accepted, no window built and no copy raced. */
  ghost predicate Quiet(h: SeriesKey -> Shard, es: seq<Event>, fs: seq<Event>) {
    && Accepted(fs) == Accepted(es) && (HasRacyCopy(h, fs) <==> HasRacyCopy(h, es))
    && Run(h, fs).windows == Run(h, es).windows
  }

  /** A flush whose first n shards have been swapped and are empty since. */
  ghost predicate Swept(s: State, n: nat) {
    && |s.shards| == NUM_SHARDS && s.flushing && s.turn == n && s.copying.Idle?
    && (forall i :: 0 <= i < n && i < NUM_SHARDS ==> s.shards[i] == map[])
  }

  lemma SweepOne(s: State, n: nat)
    requires Swept(s, n) && n < NUM_SHARDS
    ensures
      var t := Next(s, Unlock);
      !RacyCopy(t, Copy) && Swept(Next(t, Copy), n + 1) && Next(t, Copy).windows == s.windows
  {
  }

  lemma {:induction false} SweepNext(h: SeriesKey -> Shard, es: seq<Event>, n: nat)
    requires Swept(Run(h, es), n) && n < NUM_SHARDS
    ensures Swept(Run(h, es + [Unlock] + [Copy]), n + 1) && Quiet(h, es, es + [Unlock] + [Copy])
  {
    SweepOne(Run(h, es), n);
    RunSnoc(h, es, Unlock);
    RunSnoc(h, es + [Unlock], Copy);
  }

  lemma Reassociate<T>(a: seq<T>, b: seq<T>, x: seq<T>, y: seq<T>)
    ensures a + (b + x + y) == (a + b) + x + y
  {
  }

  /** With nothing observed meanwhile, swapping n shards leaves those n empty. */
  lemma {:induction false} SweepAll(h: SeriesKey -> Shard, es: seq<Event>, n: nat, fs: seq<Event>)
    requires !Run(h, es).flushing && n <= NUM_SHARDS && fs == es + Swaps(n)
    ensures Swept(Run(h, fs), n) && Quiet(h, es, fs)
  {
    if n == 0 {
      RunSnoc(h, es, Begin);
    } else {
      var pre := es + Swaps(n - 1);
      SweepAll(h, es, n - 1, pre);
      Reassociate(es, Swaps(n - 1), [Unlock], [Copy]);
      SweepNext(h, pre, n - 1);
    }
  }

  lemma {:induction false} OnlyWindows(s: State)
    requires s.copying.Idle? && s.merged == map[] && forall i :: 0 <= i < |s.shards| ==> s.shards[i] == map[]
    ensures Places(s) == WindowsBag(s.windows)
  {
    NothingLive(s.shards, s.heap);
    assert Contents(map[], s.heap) == map[];
  }

  lemma {:induction false} BuildClears(s: State)
    requires Swept(s, NUM_SHARDS)
    ensures Places(Next(s, Build)) == WindowsBag(Next(s, Build).windows)
  {
    OnlyWindows(Next(s, Build));
  }

  lemma {:induction false} BuildIsQuiet(h: SeriesKey -> Shard, fs: seq<Event>, gs: seq<Event>)
    requires gs == fs + [Build]
    ensures Accepted(gs) == Accepted(fs) && (HasRacyCopy(h, gs) <==> HasRacyCopy(h, fs))
    ensures Run(h, gs) == Next(Run(h, fs), Build)
  {
    RunSnoc(h, fs, Build);
  }

  /** A last flush with nothing observed meanwhile puts everything into windows: afterwards the windows
      hold exactly the accepted records if and only if no copy ever raced. */
  lemma {:induction false} LastFlush(h: SeriesKey -> Shard, es: seq<Event>, fs: seq<Event>, gs: seq<Event>)
    requires Swept(Run(h, fs), NUM_SHARDS) && Quiet(h, es, fs) && gs == fs + [Build]
    ensures WindowsBag(Run(h, gs).windows) == Accepted(es) <==> !HasRacyCopy(h, es)
  {
    BuildIsQuiet(h, fs, gs);
    BuildClears(Run(h, fs));
    ExactlyOnce(h, gs);
  }

  /** Swapping one empty shard. */
  lemma SwapNothing(s: State)
    requires Enabled(s, Unlock) && |s.shards| == NUM_SHARDS && s.shards[s.turn] == map[] && s.merged == map[]
    ensures Next(s, Unlock) == s.(copying := Shared)
    ensures Next(Next(s, Unlock), Copy) == s.(turn := s.turn + 1)
    ensures !RacyCopy(Next(s, Unlock), Copy)
  {
  }

  /** A flush that has swapped n shards and found nothing. */
  function Swapping(h: SeriesKey -> Shard, n: nat): State {
    Init(h).(flushing := true, turn := n)
  }

  lemma {:induction false} SwapRun(h: SeriesKey -> Shard, es: seq<Event>, n: nat)
    requires n < NUM_SHARDS && Run(h, es) == Swapping(h, n)
    ensures Run(h, es + [Unlock] + [Copy]) == Swapping(h, n + 1)
    ensures HasRacyCopy(h, es + [Unlock] + [Copy]) <==> HasRacyCopy(h, es)
    ensures Accepted(es + [Unlock] + [Copy]) == Accepted(es)
  {
    SwapNothing(Swapping(h, n));
    RunSnoc(h, es, Unlock);
    RunSnoc(h, es + [Unlock], Copy);
  }

  lemma {:induction false} BeginRun(h: SeriesKey -> Shard)
    ensures Run(h, [Begin]) == Swapping(h, 0)
    ensures Accepted([Begin]) == multiset{} && !HasRacyCopy(h, [Begin])
  {
    assert [] + [Begin] == [Begin];
    RunSnoc(h, [], Begin);
  }

  lemma {:induction false} SwapsOfNothing(h: SeriesKey -> Shard, n: nat, es: seq<Event>)
    requires n <= NUM_SHARDS && es == Swaps(n)
    ensures Run(h, es) == Swapping(h, n)
    ensures Accepted(es) == multiset{} && !HasRacyCopy(h, es)
  {
    if n == 0 {
      BeginRun(h);
    } else {
      var pre := Swaps(n - 1);
      SwapsOfNothing(h, n - 1, pre);
      SwapRun(h, pre, n - 1);
    }
  }

  lemma {:induction false} FirstObserve(s: State, r: Record)
    requires s.heap == [] && |s.shards| == NUM_SHARDS && s.shards[s.shardOf(KeyOf(r))] == map[]
    ensures
      var t := Next(s, Observe(r));
      && t == ObserveStep(s, r) && t.turn == s.turn && t.copying == s.copying && t.flushing == s.flushing
      && t.shards[s.shardOf(KeyOf(r))] != map[]
      && Bag(Contents(t.shards[s.shardOf(KeyOf(r))], t.heap)) == multiset{r}
  {
    var t, k := ObserveStep(s, r), KeyOf(r);
    var m := t.shards[s.shardOf(k)];
    assert k in m;
    assert Contents(m, t.heap) == map[][k := [r]];
    BagInsert(map[], k, [r]);
  }

  lemma {:induction false} RaceStates(s: State, r: Record)
    requires WellFormed(s) && Enabled(s, Unlock) && s.turn == s.shardOf(KeyOf(r))
    requires s.heap == [] && s.merged == map[] && s.shards[s.turn] == map[]
    ensures
      var t := Next(Next(s, Unlock), Observe(r));
      && RacyCopy(t, Copy)
      && Places(Next(t, Copy)) == Places(t) + multiset{r}
  {
    SwapNothing(s);
    var u := Next(s, Unlock);
    FirstObserve(u, r);
    WellFormedNext(s, Unlock);
    WellFormedNext(u, Observe(r));
    CopyShared(Next(u, Observe(r)));
  }

  lemma {:induction false} RaceReached(h: SeriesKey -> Shard, es: seq<Event>, r: Record) returns (fs: seq<Event>)
    requires Run(h, es) == Swapping(h, h(KeyOf(r))) && Accepted(es) == multiset{} && !HasRacyCopy(h, es)
    ensures fs == es + [Unlock] + [Observe(r)]
    ensures Accepted(fs) == multiset{r} && !HasRacyCopy(h, fs) && RacyCopy(Run(h, fs), Copy)
    ensures Places(Next(Run(h, fs), Copy)) == Places(Run(h, fs)) + multiset{r}
  {
    RunInvariant(h, es);
    RaceStates(Run(h, es), r);
    RunSnoc(h, es, Unlock);
    fs := es + [Unlock];
    RunSnoc(h, fs, Observe(r));
    fs := fs + [Observe(r)];
  }

  lemma {:induction false} RaceRun(h: SeriesKey -> Shard, es: seq<Event>, r: Record)
    requires Run(h, es) == Swapping(h, h(KeyOf(r))) && Accepted(es) == multiset{} && !HasRacyCopy(h, es)
    ensures
      var fs := es + [Unlock] + [Observe(r)] + [Copy];
      Accepted(fs) == multiset{r} && HasRacyCopy(h, fs) && Places(Run(h, fs)) == multiset{r, r}
  {
    var fs := RaceReached(h, es, r);
    RunSnoc(h, fs, Copy);
    RunInvariant(h, fs);
  }

  /** The race is real under every hash: an Observe between the unlock and the copy of its empty
      shard leaves its record in two places. */
  lemma {:induction false} RaceDuplicates(h: SeriesKey -> Shard, r: Record)
    ensures
      var es := Swaps(h(KeyOf(r))) + [Unlock] + [Observe(r)] + [Copy];
      Accepted(es) == multiset{r} && HasRacyCopy(h, es) && Places(Run(h, es)) == multiset{r, r}
  {
    var es := Swaps(h(KeyOf(r)));
    SwapsOfNothing(h, h(KeyOf(r)), es);
    RaceRun(h, es, r);
  }
}
