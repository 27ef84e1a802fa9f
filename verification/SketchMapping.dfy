/** The logarithmic mapping between latencies (seconds) and DDSketch bucket indices,
    over exact reals. */
module SketchMapping {

  const GAMMA: real := 1.01
  const MIN_VALUE: real := 0.000001
  const MAX_VALUE: real := 60.0

  /** Bucket indices of the domain bounds (see DomainSpan). */
  const MIN_INDEX: int := -1388
  const MAX_INDEX: int := 412

  /** Size of the fixed backing array of a sketch. */
  const NUM_BUCKETS: nat := 2048

  /** Relative accuracy of the mapping, (gamma-1)/(gamma+1). */
  const ALPHA: real := (GAMMA - 1.0) / (GAMMA + 1.0)

  // ---------- integer powers of gamma ----------

  function Pow(i: int): (p: real)
    ensures p > 0.0
    decreases if i < 0 then -i else i
  {
    if i == 0 then 1.0
    else if i > 0 then GAMMA * Pow(i - 1)
    else Pow(i + 1) / GAMMA
  }

  lemma PowSucc(i: int)
    ensures Pow(i + 1) == GAMMA * Pow(i)
  {
  }

  lemma {:induction false} PowMonotone(i: int, j: int)
    requires i <= j
    ensures Pow(i) <= Pow(j)
    ensures i < j ==> Pow(i) < Pow(j)
    decreases j - i
  {
    if i < j {
      PowMonotone(i, j - 1);
      PowSucc(j - 1);
    }
  }

  // ---------- the bucket index ----------

  /** For v above the bucket of 1: divide by gamma until it falls into that bucket. */
  function IndexAbove(v: real): (i: int)
    requires v * GAMMA > 1.0
    ensures Pow(i - 1) < v <= Pow(i)
    decreases (v * 200.0).Floor
  {
    if v <= 1.0 then 0
    else
      var i := IndexAbove(v / GAMMA);
      PowSucc(i - 1);
      PowSucc(i);
      i + 1
  }

  lemma ReciprocalShrinks(v: real)
    requires 0.0 < v && v * GAMMA <= 1.0
    ensures 1.0 / (v * GAMMA) * 200.0 <= 1.0 / v * 200.0 - 1.0
  {
    var r, s := 1.0 / v, 1.0 / (v * GAMMA);
    assert r * v == 1.0 && s * (v * GAMMA) == 1.0;
    assert (s * GAMMA - r) * v == 0.0;
    assert r == s * GAMMA;
    assert s >= 1.0;
  }

  /** For v at or below 1: multiply by gamma until it falls into the bucket of 1. */
  function IndexBelow(v: real): (i: int)
    requires 0.0 < v <= 1.0
    ensures Pow(i - 1) < v <= Pow(i)
    decreases (1.0 / v * 200.0).Floor
  {
    if v * GAMMA > 1.0 then 0
    else
      ReciprocalShrinks(v);
      var i := IndexBelow(v * GAMMA);
      PowSucc(i - 1);
      PowSucc(i - 2);
      i - 1
  }

  /** index(v) = ceil(log v / log gamma): the bucket (gamma^(i-1), gamma^i] that holds v. */
  function Index(v: real): (i: int)
    requires v > 0.0
    ensures Pow(i - 1) < v <= Pow(i)
  {
    if v <= 1.0 then IndexBelow(v) else IndexAbove(v)
  }

  /** Index is the lower adjoint of Pow, so it is the least i with v <= gamma^i. */
  lemma {:induction false} IndexAdjoint(v: real, j: int)
    requires v > 0.0
    ensures v <= Pow(j) <==> Index(v) <= j
  {
    var i := Index(v);
    if i <= j {
      PowMonotone(i, j);
    } else {
      PowMonotone(j, i - 1);
    }
  }

  lemma {:induction false} IndexMonotone(v: real, w: real)
    requires 0.0 < v <= w
    ensures Index(v) <= Index(w)
  {
    IndexAdjoint(v, Index(w));
  }

  /** value(i): the representative of bucket i. */
  function Value(i: int): (v: real)
    ensures v > 0.0
  {
    2.0 * Pow(i) / (GAMMA + 1.0)
  }

  /** est is within relative error alpha of the true value t. */
  ghost predicate WithinAlpha(est: real, t: real) {
    -ALPHA * t <= est - t <= ALPHA * t
  }

  lemma MidpointAccuracy(v: real, lo: real, hi: real)
    requires 0.0 < lo < v <= hi == GAMMA * lo
    ensures WithinAlpha(2.0 * hi / (GAMMA + 1.0), v)
  {
    assert GAMMA + 1.0 == 2.01 && ALPHA * 2.01 == 0.01;
    assert 2.0 * hi / 2.01 * 2.01 == 2.0 * hi;
  }

  /** The representative of a value's own bucket is within relative error alpha of it. */
  lemma {:induction false} ValueAccuracy(v: real)
    requires v > 0.0
    ensures WithinAlpha(Value(Index(v)), v)
  {
    var i := Index(v);
    PowSucc(i - 1);
    MidpointAccuracy(v, Pow(i - 1), Pow(i));
  }

  lemma {:induction false} ValueMonotone(i: int, j: int)
    requires i <= j
    ensures Value(i) <= Value(j)
  {
    PowMonotone(i, j);
  }

  // ---------- the clamped domain ----------

  function Clamp(seconds: real): (v: real)
    ensures MIN_VALUE <= v <= MAX_VALUE
    ensures MIN_VALUE <= seconds <= MAX_VALUE ==> v == seconds
  {
    if seconds < MIN_VALUE then MIN_VALUE
    else if seconds > MAX_VALUE then MAX_VALUE
    else seconds
  }

  lemma ClampMonotone(x: real, y: real)
    requires x <= y
    ensures Clamp(x) <= Clamp(y)
  {
  }

  // Growth of the powers over longer and longer spans of indices.

  lemma {:induction false} Growth4(i: int)
    ensures Pow(i + 4) == 1.04060401 * Pow(i)
  {
    PowSucc(i);
    PowSucc(i + 1);
    PowSucc(i + 2);
    PowSucc(i + 3);
  }

  lemma {:induction false} Growth8(i: int)
    ensures 1.082856705 * Pow(i) <= Pow(i + 8) <= 1.082856706 * Pow(i)
  {
    Growth4(i);
    Growth4(i + 4);
  }

  lemma {:induction false} Growth16(i: int)
    ensures 1.172578643 * Pow(i) <= Pow(i + 16) <= 1.172578646 * Pow(i)
  {
    Growth8(i);
    Growth8(i + 8);
  }

  lemma {:induction false} Growth32(i: int)
    ensures 1.374940674 * Pow(i) <= Pow(i + 32) <= 1.374940682 * Pow(i)
  {
    Growth16(i);
    Growth16(i + 16);
  }

  lemma {:induction false} Growth64(i: int)
    ensures 1.890461857 * Pow(i) <= Pow(i + 64) <= 1.89046188 * Pow(i)
  {
    Growth32(i);
    Growth32(i + 32);
  }

  lemma {:induction false} Growth128(i: int)
    ensures 3.573846032 * Pow(i) <= Pow(i + 128) <= 3.57384612 * Pow(i)
  {
    Growth64(i);
    Growth64(i + 64);
  }

  lemma {:induction false} Growth256(i: int)
    ensures 12.77237546 * Pow(i) <= Pow(i + 256) <= 12.77237609 * Pow(i)
  {
    Growth128(i);
    Growth128(i + 128);
  }

  lemma {:induction false} Growth512(i: int)
    ensures 163.1335748 * Pow(i) <= Pow(i + 512) <= 163.133591 * Pow(i)
  {
    Growth256(i);
    Growth256(i + 256);
  }

  lemma {:induction false} Growth1024(i: int)
    ensures 26612.56322 * Pow(i) <= Pow(i + 1024) <= 26612.56852 * Pow(i)
  {
    Growth512(i);
    Growth512(i + 512);
  }

  /** 1388 indices span less than a factor of a million, 1389 indices more. */
  lemma {:induction false} Growth1388(i: int)
    ensures 990100.0 * Pow(i) < Pow(i + 1388) < 1000000.0 * Pow(i)
  {
    Growth1024(i);
    Growth256(i + 1024);
    Growth64(i + 1280);
    Growth32(i + 1344);
    Growth8(i + 1376);
    Growth4(i + 1384);
  }

  /** 412 indices span more than a factor of 60, 411 indices less. */
  lemma {:induction false} Growth412(i: int)
    ensures 60.0 * Pow(i) < Pow(i + 412) < 60.6 * Pow(i)
  {
    Growth256(i);
    Growth128(i + 256);
    Growth16(i + 384);
    Growth8(i + 400);
    Growth4(i + 408);
  }

  lemma {:induction false} IndexUnique(v: real, i: int)
    requires v > 0.0 && Pow(i - 1) < v <= Pow(i)
    ensures Index(v) == i
  {
    IndexAdjoint(v, i);
    IndexAdjoint(v, i - 1);
  }

  // The two edges are computed for a variable index and value that happen to be the constants:
  // with literal arguments the verifier would evaluate Pow and Index step by step.

  lemma {:induction false} LowEdge(v: real, zero: int)
    requires v == MIN_VALUE && zero == 0
    ensures Index(v) == zero - 1388
  {
    Growth1388(zero - 1388);
    PowSucc(zero - 1389);
    IndexUnique(v, zero - 1388);
  }

  lemma {:induction false} HighEdge(v: real, zero: int)
    requires v == MAX_VALUE && zero == 0
    ensures Index(v) == zero + 412
  {
    Growth412(zero);
    PowSucc(zero + 411);
    IndexUnique(v, zero + 412);
  }

  /** The edge indices are those of the domain bounds; the domain spans 1801 indices,
      so the init-time size check never fires. */
  lemma {:induction false} DomainSpan()
    ensures Index(MIN_VALUE) == MIN_INDEX && Index(MAX_VALUE) == MAX_INDEX
    ensures MAX_INDEX - MIN_INDEX + 1 == 1801 <= NUM_BUCKETS
  {
    LowEdge(MIN_VALUE, 0);
    HighEdge(MAX_VALUE, 0);
  }
}
