/** Occurrence counters that admit only a bounded number of distinct keys. */
module BoundedCounters {
  import opened MapSums

  /** CappedBump k, unless it is new and the map is already at its cap. */
  function CappedBump<K>(m: map<K, nat>, k: K, cap: nat): map<K, nat> {
    if k in m then m[k := m[k] + 1]
    else if |m| >= cap then m
    else m[k := 1]
  }

  function CappedCounts<K>(ks: seq<K>, cap: nat): map<K, nat> {
    if ks == [] then map[] else CappedBump(CappedCounts(ks[..|ks| - 1], cap), ks[|ks| - 1], cap)
  }

  /** The distinct keys in order of first occurrence. */
  function Distinct<K(==)>(ks: seq<K>): seq<K> {
    if ks == [] then []
    else
      var d := Distinct(ks[..|ks| - 1]);
      if ks[|ks| - 1] in d then d else d + [ks[|ks| - 1]]
  }

  /** The first cap distinct keys. */
  function Retained<K(==)>(ks: seq<K>, cap: nat): seq<K> {
    var d := Distinct(ks);
    if |d| <= cap then d else d[..cap]
  }

  function Occurrences<K(==)>(ks: seq<K>, k: K): nat {
    if ks == [] then 0
    else Occurrences(ks[..|ks| - 1], k) + if ks[|ks| - 1] == k then 1 else 0
  }

  /** How many occurrences belong to keys past the cap. */
  function Refused<K(==)>(ks: seq<K>, kept: seq<K>): nat {
    if ks == [] then 0
    else Refused(ks[..|ks| - 1], kept) + if ks[|ks| - 1] in kept then 0 else 1
  }

  lemma {:induction false} DistinctMembers<K>(ks: seq<K>)
    ensures forall k :: k in Distinct(ks) <==> k in ks
  {
    if ks != [] {
      DistinctMembers(ks[..|ks| - 1]);
      assert ks == ks[..|ks| - 1] + [ks[|ks| - 1]];
    }
  }

  lemma {:induction false} NoOccurrences<K>(ks: seq<K>, k: K)
    requires k !in ks
    ensures Occurrences(ks, k) == 0
  {
    if ks != [] {
      NoOccurrences(ks[..|ks| - 1], k);
    }
  }

  /** What one more key does to the retained ones: nothing, unless it is new and there is room. */
  lemma {:induction false} RetainedStep<K>(ks: seq<K>, k: K, cap: nat)
    ensures
      var kept := Retained(ks, cap);
      Retained(ks + [k], cap) == if k in kept || |kept| >= cap then kept else kept + [k]
    ensures k !in Retained(ks, cap) && |Retained(ks, cap)| < cap ==> k !in ks
  {
    assert (ks + [k])[..|ks|] == ks;
    DistinctMembers(ks);
  }

  /** The counter holds the first cap distinct keys, each with its exact number of occurrences. */
  lemma {:induction false} CountsExact<K>(ks: seq<K>, cap: nat)
    ensures forall k :: k in CappedCounts(ks, cap) <==> k in Retained(ks, cap)
    ensures forall k :: k in CappedCounts(ks, cap) ==> CappedCounts(ks, cap)[k] == Occurrences(ks, k)
    ensures |CappedCounts(ks, cap)| == |Retained(ks, cap)| <= cap
  {
    if ks != [] {
      var pre, k := ks[..|ks| - 1], ks[|ks| - 1];
      CountsExact(pre, cap);
      assert ks == pre + [k];
      RetainedStep(pre, k, cap);
      if k !in pre {
        NoOccurrences(pre, k);
      }
    }
  }

  lemma {:induction false} RefusedUnseen<K>(ks: seq<K>, kept: seq<K>, k: K)
    requires k !in ks
    ensures Refused(ks, kept + [k]) == Refused(ks, kept)
  {
    if ks != [] {
      RefusedUnseen(ks[..|ks| - 1], kept, k);
    }
  }

  /** Every occurrence is either counted or belongs to a key refused by the cap. */
  lemma {:induction false} CountsConserve<K>(ks: seq<K>, cap: nat)
    ensures Sum(CappedCounts(ks, cap)) + Refused(ks, Retained(ks, cap)) == |ks|
  {
    if ks != [] {
      var pre, k := ks[..|ks| - 1], ks[|ks| - 1];
      var m := CappedCounts(pre, cap);
      CountsConserve(pre, cap);
      CountsExact(pre, cap);
      assert ks == pre + [k];
      RetainedStep(pre, k, cap);
      if k in m {
        SumUpdate(m, k, m[k] + 1);
      } else if |m| < cap {
        SumInsert(m, k, 1);
        RefusedUnseen(pre, Retained(pre, cap), k);
      }
    }
  }
}
