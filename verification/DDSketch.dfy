/** The mutable fixed-array sketch of the client. */
module DDSketches {
  import opened SketchMapping
  import opened SketchBuckets
  import opened SparseBuckets
  import opened MapSums

  class DDSketch {
    const buckets: array<nat>
    var count: nat

    /** What every reachable sketch satisfies: the count is the bucket mass, and the part of
        the array past the domain stays empty. */
    ghost predicate Valid()
      reads this, buckets
    {
      && buckets.Length == NUM_BUCKETS
      && count == Total(buckets[..])
      && TailZero(buckets[..])
    }

    constructor ()
      ensures Valid() && fresh(buckets)
      ensures buckets[..] == SketchOf([]) && count == 0
    {
      buckets := new nat[NUM_BUCKETS](_ => 0);
      count := 0;
      new;
      assert buckets[..] == Zeros();
      TotalZeros(NUM_BUCKETS);
    }

    method Add(seconds: real)
      requires Valid()
      modifies this, buckets
      ensures Valid()
      ensures buckets[..] == Bump(old(buckets[..]), Slot(seconds)) && count == old(count) + 1
    {
      var i := Index(Clamp(seconds));
      ghost var before := buckets[..];
      assert i - MIN_INDEX == Slot(seconds);
      buckets[i - MIN_INDEX] := buckets[i - MIN_INDEX] + 1;
      count := count + 1;
      assert buckets[..] == Bump(before, Slot(seconds));
      TotalBump(before, Slot(seconds));
    }

    /** Bucket-wise addition; o may be this sketch itself. */
    method Merge(o: DDSketch)
      requires Valid() && o.Valid()
      requires this == o || buckets != o.buckets
      modifies this, buckets
      ensures Valid()
      ensures buckets[..] == Plus(old(buckets[..]), old(o.buckets[..]))
      ensures count == old(count) + old(o.count)
      ensures o != this ==> o.buckets[..] == old(o.buckets[..]) && o.count == old(o.count)
    {
      ghost var a, b := buckets[..], o.buckets[..];
      for i := 0 to buckets.Length
        invariant forall j :: 0 <= j < i ==> buckets[j] == a[j] + b[j]
        invariant forall j :: i <= j < buckets.Length ==> buckets[j] == a[j] && o.buckets[j] == b[j]
        invariant o != this ==> o.buckets[..] == b
        invariant count == old(count) && o.count == old(o.count)
      {
        buckets[i] := buckets[i] + o.buckets[i];
      }
      count := count + o.count;
      assert buckets[..] == Plus(a, b);
      TotalPlus(a, b);
    }

    /** Dense walk: the first slot whose cumulative count reaches the rank. */
    method Quantile(q: real) returns (r: real)
      requires Valid()
      ensures r == SketchBuckets.Quantile(buckets[..], q)
    {
      if count == 0 {
        return 0.0;
      }
      var rank := QuantileRank(q, count);
      ghost var b := buckets[..];
      assert b[..buckets.Length] == b;
      var cum := 0;
      for i := 0 to buckets.Length
        invariant cum == Total(b[..i]) < rank
      {
        TotalStep(b, i);
        cum := cum + buckets[i];
        if cum >= rank {
          RankSlotUnique(b, rank, i);
          return Value(i + MIN_INDEX);
        }
      }
      assert false;
      return Value(MAX_INDEX);
    }

    /** The sparse wire form. */
    method Buckets() returns (m: map<int, nat>)
      requires Valid()
      ensures m == ToMap(buckets[..])
    {
      m := map[];
      for i := 0 to buckets.Length
        invariant m == ToMap(buckets[..i])
      {
        var c := buckets[i];
        if c != 0 {
          m := m[i + MIN_INDEX := c];
        }
        WireStep(buckets[..], i);
      }
      assert buckets[..buckets.Length] == buckets[..];
    }

    static method FromBuckets(m: map<int, nat>) returns (s: DDSketch)
      ensures s.Valid() && fresh(s) && fresh(s.buckets)
      ensures s.buckets[..] == FromMap(m) && s.count == Sum(m)
    {
      s := new DDSketch();
      var rest := m.Keys;
      ghost var seen: map<int, nat> := map[];
      EmptyWire();
      while rest != {}
        invariant rest <= m.Keys && seen == m - rest
        invariant s.Valid() && fresh(s) && fresh(s.buckets)
        invariant s.buckets[..] == FromMap(seen) && s.count == Sum(seen)
        decreases |rest|
      {
        var absIdx := Pick(rest);
        rest := rest - {absIdx};
        s.FoldIn(absIdx, m[absIdx], seen);
        seen := seen[absIdx := m[absIdx]];
      }
      assert seen == m;
    }

    /** One entry of a wire map: an index outside the domain goes to the edge bucket. */
    method FoldIn(absIdx: int, c: nat, ghost seen: map<int, nat>)
      requires Valid() && absIdx !in seen
      requires buckets[..] == FromMap(seen) && count == Sum(seen)
      modifies this, buckets
      ensures Valid()
      ensures buckets[..] == FromMap(seen[absIdx := c]) && count == Sum(seen[absIdx := c])
    {
      var j := ClampIndex(absIdx) - MIN_INDEX;
      ghost var b := buckets[..];
      WireInsert(seen, absIdx, c);
      TotalRaise(b, j, c);
      SumInsert(seen, absIdx, c);
      buckets[j] := buckets[j] + c;
      count := count + c;
      assert buckets[..] == Raise(b, j, c);
    }
  }

  lemma WireStep(b: seq<nat>, i: nat)
    requires i < |b|
    ensures ToMap(b[..i + 1]) == if b[i] != 0 then ToMap(b[..i])[i + MIN_INDEX := b[i]] else ToMap(b[..i])
  {
  }

  lemma EmptyWire()
    ensures FromMap(map[]) == Zeros()
  {
    forall j | 0 <= j < NUM_BUCKETS ensures Sum(Folded(map[], j)) == 0 {
      assert Folded(map[], j) == map[];
    }
  }

  function Raise(b: seq<nat>, j: nat, c: nat): (r: seq<nat>)
    requires j < |b|
    ensures |r| == |b|
  {
    b[j := b[j] + c]
  }

  lemma {:induction false} TotalRaise(b: seq<nat>, j: nat, c: nat)
    requires j < |b|
    ensures Total(Raise(b, j, c)) == Total(b) + c
  {
    var n := |b| - 1;
    if j < n {
      assert Raise(b, j, c)[..n] == Raise(b[..n], j, c);
      TotalRaise(b[..n], j, c);
    } else {
      assert Raise(b, j, c)[..n] == b[..n];
    }
  }

  lemma {:induction false} WireInsert(m: map<int, nat>, k: int, c: nat)
    requires k !in m
    ensures FromMap(m[k := c]) == Raise(FromMap(m), ClampIndex(k) - MIN_INDEX, c)
  {
    var after, raised := FromMap(m[k := c]), Raise(FromMap(m), ClampIndex(k) - MIN_INDEX, c);
    forall j | 0 <= j < NUM_BUCKETS ensures after[j] == raised[j] {
      FoldedInsert(m, k, c, j);
    }
  }

  lemma {:induction false} FoldedInsert(m: map<int, nat>, k: int, c: nat, j: nat)
    requires k !in m
    ensures Sum(Folded(m[k := c], j)) ==
            Sum(Folded(m, j)) + if j == ClampIndex(k) - MIN_INDEX then c else 0
  {
    if j == ClampIndex(k) - MIN_INDEX {
      assert Folded(m[k := c], j) == Folded(m, j)[k := c];
      SumInsert(Folded(m, j), k, c);
    } else {
      assert Folded(m[k := c], j) == Folded(m, j);
    }
  }

  /** Shipping a sketch over the wire and rebuilding it gives an equal sketch. */
  method RoundTrip(s: DDSketch) returns (t: DDSketch)
    requires s.Valid()
    ensures t.Valid() && t.buckets[..] == s.buckets[..] && t.count == s.count
    ensures fresh(t)
  {
    var m := s.Buckets();
    t := DDSketch.FromBuckets(m);
    FromToMap(s.buckets[..]);
  }
}
