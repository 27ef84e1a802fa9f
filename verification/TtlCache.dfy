/** The lazily swept TTL cache behind key resolution and plan limits. */
module TtlCaches {
  import opened Prelude
  import opened MapSums

  /** Nanoseconds: 30 s for positive results, 5 s for negative ones. */
  const POSITIVE_TTL: int := 30_000_000_000
  const NEGATIVE_TTL: int := 5_000_000_000
  const SWEEP_THRESHOLD: nat := 4096

  datatype Entry<V> = Entry(value: V, ok: bool, expiry: int)

  /** What the backing lookup says: a result, found or not, or a database failure. */
  datatype Outcome<V> = Result(value: V, ok: bool) | Failed

  /** One call: its key, the clock readings of the hit test, of the expiry and of the sweep, and
      what the backing lookup would answer. */
  datatype Query<K, V> = Query(key: K, hitAt: int, stampAt: int, sweepAt: int, outcome: Outcome<V>)

  datatype Answer<V> = Answered(value: V, ok: bool) | Rejected

  function Ttl(ok: bool): int { if ok then POSITIVE_TTL else NEGATIVE_TTL }

  // ---------- one call ----------

  predicate Hit<K, V>(c: map<K, Entry<V>>, k: K, now: int) {
    k in c && c[k].expiry > now
  }

  function Swept<K, V>(c: map<K, Entry<V>>, now: int): map<K, Entry<V>> {
    map k | k in c && c[k].expiry > now :: c[k]
  }

  function NewEntry<K, V>(q: Query<K, V>): Entry<V>
    requires q.outcome.Result?
  {
    Entry(q.outcome.value, q.outcome.ok, q.stampAt + Ttl(q.outcome.ok))
  }

  function Stored<K, V>(c: map<K, Entry<V>>, q: Query<K, V>): map<K, Entry<V>>
    requires q.outcome.Result?
  {
    (if |c| >= SWEEP_THRESHOLD then Swept(c, q.sweepAt) else c)[q.key := NewEntry(q)]
  }

  function AnswerOf<K, V>(c: map<K, Entry<V>>, q: Query<K, V>): Answer<V> {
    if Hit(c, q.key, q.hitAt) then Answered(c[q.key].value, c[q.key].ok)
    else match q.outcome
      case Failed => Rejected
      case Result(v, ok) => Answered(v, ok)
  }

  function After<K, V>(c: map<K, Entry<V>>, q: Query<K, V>): map<K, Entry<V>> {
    if Hit(c, q.key, q.hitAt) || q.outcome.Failed? then c else Stored(c, q)
  }

  // ---------- runs, with and without the sweep ----------

  function CacheAfter<K, V>(qs: seq<Query<K, V>>): map<K, Entry<V>> {
    if qs == [] then map[] else After(CacheAfter(qs[..|qs| - 1]), qs[|qs| - 1])
  }

  /** The same cache if it never removed anything. */
  function UnsweptAfter<K, V>(qs: seq<Query<K, V>>): map<K, Entry<V>> {
    if qs == [] then map[]
    else
      var c, q := UnsweptAfter(qs[..|qs| - 1]), qs[|qs| - 1];
      if Hit(c, q.key, q.hitAt) || q.outcome.Failed? then c else c[q.key := NewEntry(q)]
  }

  /** The clock never runs backwards, within a call or from call to call. */
  ghost predicate Timed<K(!new), V(!new)>(qs: seq<Query<K, V>>) {
    && (forall i :: 0 <= i < |qs| ==> qs[i].hitAt <= qs[i].stampAt <= qs[i].sweepAt)
    && (forall i, j :: 0 <= i < j < |qs| ==> qs[i].sweepAt <= qs[j].hitAt)
  }

  /** c is the never-swept cache u less some entries that had expired by now. */
  ghost predicate SweptFrom<K(!new), V(!new)>(c: map<K, Entry<V>>, u: map<K, Entry<V>>, now: int) {
    && (forall k :: k in c ==> k in u && c[k] == u[k])
    && (forall k :: k in u && k !in c ==> u[k].expiry <= now)
  }

  lemma {:induction false} SweepStep<K(!new), V(!new)>(
    c: map<K, Entry<V>>, u: map<K, Entry<V>>, q: Query<K, V>, now: int)
    requires SweptFrom(c, u, now) && now <= q.hitAt <= q.stampAt <= q.sweepAt
    ensures Hit(c, q.key, q.hitAt) <==> Hit(u, q.key, q.hitAt)
    ensures AnswerOf(c, q) == AnswerOf(u, q)
    ensures
      var u' := if Hit(u, q.key, q.hitAt) || q.outcome.Failed? then u else u[q.key := NewEntry(q)];
      SweptFrom(After(c, q), u', q.sweepAt)
  {
  }

  function Clock<K, V>(qs: seq<Query<K, V>>, first: int): int {
    if qs == [] then first else qs[|qs| - 1].sweepAt
  }

  lemma {:induction false} CacheIsSwept<K(!new), V(!new)>(qs: seq<Query<K, V>>, first: int)
    requires Timed(qs) && (qs != [] ==> first <= qs[0].hitAt)
    ensures SweptFrom(CacheAfter(qs), UnsweptAfter(qs), Clock(qs, first))
  {
    if qs != [] {
      var before := qs[..|qs| - 1];
      CacheIsSwept(before, first);
      SweepStep(CacheAfter(before), UnsweptAfter(before), qs[|qs| - 1], Clock(before, first));
    }
  }

  /** The sweep is invisible: after any run, a call answers as it would without any sweep. */
  lemma {:induction false} SweepInvisible<K(!new), V(!new)>(qs: seq<Query<K, V>>, q: Query<K, V>)
    requires Timed(qs + [q])
    ensures AnswerOf(CacheAfter(qs), q) == AnswerOf(UnsweptAfter(qs), q)
  {
    var all := qs + [q];
    assert Timed(qs) by {
      assert forall i :: 0 <= i < |qs| ==> all[i] == qs[i];
    }
    assert all[|qs|] == q;
    var first := if qs == [] then q.hitAt else qs[0].hitAt;
    CacheIsSwept(qs, first);
    assert qs != [] ==> all[|qs| - 1] == qs[|qs| - 1];
    SweepStep(CacheAfter(qs), UnsweptAfter(qs), q, Clock(qs, first));
  }

  // ---------- bounded staleness ----------

  /** Call j finds no fresh entry, so it looks its key up. */
  ghost predicate Misses<K(!new), V(!new)>(qs: seq<Query<K, V>>, j: nat)
    requires j < |qs|
  {
    !Hit(UnsweptAfter(qs[..j]), qs[j].key, qs[j].hitAt)
  }

  /** Query i looked its key up, and e is what it stored. */
  ghost predicate Source<K(!new), V(!new)>(qs: seq<Query<K, V>>, i: nat, k: K, e: Entry<V>) {
    i < |qs| && Misses(qs, i) && qs[i].key == k && qs[i].outcome.Result? && e == NewEntry(qs[i])
  }

  lemma {:induction false} EntriesHaveSources<K(!new), V(!new)>(qs: seq<Query<K, V>>, k: K)
    requires k in UnsweptAfter(qs)
    ensures exists i :: Source(qs, i, k, UnsweptAfter(qs)[k])
  {
    var n := |qs| - 1;
    var before, q := qs[..n], qs[n];
    var c := UnsweptAfter(before);
    if k == q.key && !Hit(c, k, q.hitAt) && q.outcome.Result? {
      assert Source(qs, n, k, UnsweptAfter(qs)[k]);
    } else {
      EntriesHaveSources(before, k);
      var i: nat :| Source(before, i, k, c[k]);
      assert before[..i] == qs[..i];
      assert Source(qs, i, k, UnsweptAfter(qs)[k]);
    }
  }

  /** Every answer that is not a rejection is the result of a lookup made for that very key, by this
      call or an earlier one, whose stamp lies within the last 30 s, or 5 s for a negative one. */
  lemma {:induction false} BoundedStaleness<K(!new), V(!new)>(qs: seq<Query<K, V>>, q: Query<K, V>)
    requires Timed(qs + [q]) && AnswerOf(CacheAfter(qs), q).Answered?
    ensures
      var a, all := AnswerOf(CacheAfter(qs), q), qs + [q];
      exists i: nat :: i < |all| && Misses(all, i) && all[i].key == q.key &&
        all[i].outcome == Result(a.value, a.ok) &&
        q.hitAt < all[i].stampAt + (if a.ok then POSITIVE_TTL else NEGATIVE_TTL)
  {
    var all := qs + [q];
    var u := UnsweptAfter(qs);
    SweepInvisible(qs, q);
    assert all[|qs|] == q && all[..|qs|] == qs;
    if Hit(u, q.key, q.hitAt) {
      EntriesHaveSources(qs, q.key);
      var i: nat :| Source(qs, i, q.key, u[q.key]);
      assert all[i] == qs[i] && all[..i] == qs[..i];
      assert Misses(all, i);
    } else {
      assert Misses(all, |qs|);
    }
  }

  /** A call misses in the swept cache exactly when it misses in the never-swept one. */
  lemma {:induction false} MissesAreReal<K(!new), V(!new)>(qs: seq<Query<K, V>>, j: nat)
    requires Timed(qs) && j < |qs|
    ensures Misses(qs, j) <==> !Hit(CacheAfter(qs[..j]), qs[j].key, qs[j].hitAt)
  {
    var pre := qs[..j];
    var first := qs[0].hitAt;
    assert Timed(pre);
    CacheIsSwept(pre, first);
    SweepStep(CacheAfter(pre), UnsweptAfter(pre), qs[j], Clock(pre, first));
  }

  // ---------- which lookup answers ----------

  /** The result of this lookup may still be served. */
  predicate StillFresh<K, V>(p: Query<K, V>, now: int)
    requires p.outcome.Result?
  {
    now < p.stampAt + (if p.outcome.ok then POSITIVE_TTL else NEGATIVE_TTL)
  }

  /** The latest call for k that reached the backing store and got a result: one that came when no
      earlier result for k was fresh. */
  function LastLookup<K(==), V>(qs: seq<Query<K, V>>, k: K): (p: Option<Query<K, V>>)
    ensures p.Some? ==> p.value.outcome.Result? && p.value.key == k
  {
    if qs == [] then None
    else
      var prev, q := LastLookup(qs[..|qs| - 1], k), qs[|qs| - 1];
      if q.key == k && q.outcome.Result? && !(prev.Some? && StillFresh(prev.value, q.hitAt)) then Some(q)
      else prev
  }

  lemma {:induction false} EntryIsLastLookup<K(!new), V(!new)>(qs: seq<Query<K, V>>, k: K)
    ensures k in UnsweptAfter(qs) <==> LastLookup(qs, k).Some?
    ensures k in UnsweptAfter(qs) ==> UnsweptAfter(qs)[k] == NewEntry(LastLookup(qs, k).value)
  {
    if qs != [] {
      EntryIsLastLookup(qs[..|qs| - 1], k);
    }
  }

  /** Over every run: a call answers with the latest lookup of its key while that is fresh, and otherwise
      with its own lookup, whatever that finds; it is rejected only when that fails. */
  lemma {:induction false} LookupsAnswer<K(!new), V(!new)>(qs: seq<Query<K, V>>, q: Query<K, V>)
    requires Timed(qs + [q])
    ensures
      var a, p := AnswerOf(CacheAfter(qs), q), LastLookup(qs, q.key);
      if p.Some? && StillFresh(p.value, q.hitAt) then a == Answered(p.value.outcome.value, p.value.outcome.ok)
      else if q.outcome.Result? then a == Answered(q.outcome.value, q.outcome.ok)
      else a == Rejected
  {
    SweepInvisible(qs, q);
    EntryIsLastLookup(qs, q.key);
  }

  /** A database failure rejects unless a fresh entry answers, and never changes the cache. */
  lemma FailureLeavesCache<K, V>(c: map<K, Entry<V>>, q: Query<K, V>)
    requires q.outcome.Failed?
    ensures After(c, q) == c
    ensures AnswerOf(c, q).Rejected? <==> !Hit(c, q.key, q.hitAt)
  {
  }

  // ---------- size ----------

  /** After a store the cache is within the threshold, or nothing but fresh entries and the new one
      is left. */
  lemma {:induction false} StoreBoundsSize<K(!new), V(!new)>(c: map<K, Entry<V>>, q: Query<K, V>)
    requires q.outcome.Result?
    ensures |Stored(c, q)| <= SWEEP_THRESHOLD ||
            forall k :: k in Stored(c, q) && k != q.key ==> Stored(c, q)[k].expiry > q.sweepAt
  {
    if |c| < SWEEP_THRESHOLD {
      var s := c[q.key := NewEntry(q)];
      assert s.Keys == c.Keys + {q.key};
      assert |c.Keys + {q.key}| <= |c.Keys| + 1;
      assert |s| == |s.Keys| && |c| == |c.Keys|;
    }
  }

  // ---------- at most one lookup per key and TTL ----------

  /** Until its expiry, the newest stored result of a key keeps any earlier one from being newer. */
  lemma {:induction false} StoredUntilExpiry<K(!new), V(!new)>(qs: seq<Query<K, V>>, i: nat)
    requires Timed(qs) && i < |qs| && qs[i].outcome.Result? && Misses(qs, i)
    ensures qs[i].key in UnsweptAfter(qs)
    ensures UnsweptAfter(qs)[qs[i].key].expiry >= NewEntry(qs[i]).expiry
            || (exists j :: i < j < |qs| && qs[j].hitAt >= NewEntry(qs[i]).expiry)
  {
    var n := |qs| - 1;
    var before, q := qs[..n], qs[n];
    var c := UnsweptAfter(before);
    if i < n {
      assert Timed(before) && before[i] == qs[i] && before[..i] == qs[..i];
      StoredUntilExpiry(before, i);
      if q.key == qs[i].key && !Hit(c, q.key, q.hitAt) && q.outcome.Result? {
        if c[q.key].expiry >= NewEntry(qs[i]).expiry {
          assert qs[n].hitAt >= NewEntry(qs[i]).expiry;
        }
      }
      if j :| i < j < |before| && before[j].hitAt >= NewEntry(before[i]).expiry {
        assert qs[j] == before[j];
      }
    } else {
      assert qs[..i] == before;
    }
  }

  /** Two lookups of one key are at least the first result's lifetime apart. */
  lemma {:induction false} LookupsAreSpaced<K(!new), V(!new)>(qs: seq<Query<K, V>>, i: nat, j: nat)
    requires Timed(qs) && i < j < |qs| && qs[i].key == qs[j].key
    requires Misses(qs, i) && qs[i].outcome.Result? && Misses(qs, j)
    ensures qs[i].stampAt + (if qs[i].outcome.ok then POSITIVE_TTL else NEGATIVE_TTL) <= qs[j].hitAt
  {
    var pre := qs[..j];
    assert Timed(pre) && pre[i] == qs[i] && pre[..i] == qs[..i];
    StoredUntilExpiry(pre, i);
    if m :| i < m < |pre| && pre[m].hitAt >= NewEntry(pre[i]).expiry {
      assert pre[m] == qs[m];
    }
  }

  // ---------- the cache object ----------

  class TtlCache<K(==), V> {
    var cache: map<K, Entry<V>>

    constructor ()
      ensures cache == map[]
    {
      cache := map[];
    }

    /** Entries are never removed on read, only skipped. */
    method GetFresh(k: K, now: int) returns (e: Option<Entry<V>>)
      ensures e.Some? <==> Hit(cache, k, now)
      ensures e.Some? ==> e.value == cache[k]
    {
      if k !in cache || !(cache[k].expiry > now) {
        return None;
      }
      return Some(cache[k]);
    }

    method Store(k: K, e: Entry<V>, now: int)
      modifies this
      ensures cache == (if |old(cache)| >= SWEEP_THRESHOLD then Swept(old(cache), now) else old(cache))[k := e]
    {
      if |cache| >= SWEEP_THRESHOLD {
        Sweep(now);
      }
      cache := cache[k := e];
    }

    method Sweep(now: int)
      modifies this
      ensures cache == Swept(old(cache), now)
    {
      var all := cache;
      var rest := all.Keys;
      while rest != {}
        invariant rest <= all.Keys
        invariant cache == map k | k in all && (k in rest || all[k].expiry > now) :: all[k]
        decreases |rest|
      {
        var k := Pick(rest);
        rest := rest - {k};
        if !(all[k].expiry > now) {
          cache := cache - {k};
        }
      }
    }

    /** Resolve after the key was decoded, and Limits, whose lookup never fails. */
    method Ask(q: Query<K, V>) returns (a: Answer<V>)
      modifies this
      ensures cache == After(old(cache), q) && a == AnswerOf(old(cache), q)
      ensures a == Rejected <==> q.outcome.Failed? && !Hit(old(cache), q.key, q.hitAt)
      ensures Hit(old(cache), q.key, q.hitAt) ==>
                a == Answered(old(cache)[q.key].value, old(cache)[q.key].ok) && cache == old(cache)
      ensures !Hit(old(cache), q.key, q.hitAt) && q.outcome.Result? ==>
                a == Answered(q.outcome.value, q.outcome.ok) &&
                q.key in cache && cache[q.key] == Entry(q.outcome.value, q.outcome.ok, q.stampAt + Ttl(q.outcome.ok))
    {
      var e := GetFresh(q.key, q.hitAt);
      if e.Some? {
        return Answered(e.value.value, e.value.ok);
      }
      match q.outcome
      case Failed =>
        return Rejected;
      case Result(v, ok) =>
        var ttl := POSITIVE_TTL;
        if !ok {
          ttl := NEGATIVE_TTL;
        }
        Store(q.key, Entry(v, ok, q.stampAt + ttl), q.sweepAt);
        return Answered(v, ok);
    }
  }
}
