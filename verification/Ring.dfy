/** The bounded drop-oldest ring of pending uploads. */
module Rings {
  import opened Prelude

  // ---------- specification: a bounded queue that drops its oldest element ----------

  function Pushed<T>(s: seq<T>, cap: nat, x: T): (r: seq<T>)
    requires |s| <= cap && cap >= 1
    ensures |r| <= cap
  {
    (if |s| == cap then s[1..] else s) + [x]
  }

  datatype Op<T> = Push(x: T) | Pop

  /** Queue contents after a run of operations. */
  function Run<T>(ops: seq<Op<T>>, cap: nat): (s: seq<T>)
    requires cap >= 1
    ensures |s| <= cap
  {
    if ops == [] then []
    else
      var s := Run(ops[..|ops| - 1], cap);
      match ops[|ops| - 1]
      case Push(x) => Pushed(s, cap, x)
      case Pop => if s == [] then [] else s[1..]
  }

  /** Everything ever pushed, oldest first. */
  function Pushes<T>(ops: seq<Op<T>>): seq<T> {
    if ops == [] then []
    else
      Pushes(ops[..|ops| - 1]) + match ops[|ops| - 1] case Push(x) => [x] case Pop => []
  }

  /** How many elements left the queue, popped or evicted. */
  function Departed<T>(ops: seq<Op<T>>, cap: nat): nat
    requires cap >= 1
  {
    if ops == [] then 0
    else
      var s := Run(ops[..|ops| - 1], cap);
      Departed(ops[..|ops| - 1], cap) +
      match ops[|ops| - 1]
      case Push(_) => if |s| == cap then 1 else 0
      case Pop => if s == [] then 0 else 1
  }

  /** The queue always holds exactly the newest pushes that have not departed. */
  lemma {:induction false} HoldsNewestPushes<T>(ops: seq<Op<T>>, cap: nat)
    requires cap >= 1
    ensures Departed(ops, cap) <= |Pushes(ops)|
    ensures Run(ops, cap) == Pushes(ops)[Departed(ops, cap)..]
  {
    if ops != [] {
      var before := ops[..|ops| - 1];
      HoldsNewestPushes(before, cap);
      assert Pushes(before)[Departed(before, cap)..] == Run(before, cap);
    }
  }

  // ---------- the circular array ----------

  lemma QuotientAtMost(q: int, n: nat, k: int)
    requires q >= k && n > 0
    ensures q * n >= k * n
  {
  }

  lemma WrapAround(a: nat, n: nat)
    requires a < 2 * n
    ensures a % n == if a < n then a else a - n
  {
    var q, r := a / n, a % n;
    assert a == q * n + r;
    if q >= 2 {
      QuotientAtMost(q, n, 2);
    } else if q < 0 {
      QuotientAtMost(-1, n, q);
    }
    assert q == 0 || q == 1;
  }

  class Ring<T> {
    const buf: array<Option<T>>
    var head: nat
    var count: nat
    ghost var contents: seq<T>  // oldest first

    /** Array position of the i-th slot from the head on. */
    ghost function Position(i: nat): (p: nat)
      requires head < buf.Length && i < buf.Length
      reads this
      ensures p < buf.Length
    {
      if head + i < buf.Length then head + i else head + i - buf.Length
    }

    /** Distance of slot p from the head. */
    ghost function Offset(p: nat): (i: nat)
      requires head < buf.Length && p < buf.Length
      reads this
      ensures i < buf.Length && Position(i) == p
    {
      if head <= p then p - head else p - head + buf.Length
    }

    /** The live window holds the contents; every slot outside it is empty. */
    ghost predicate Valid()
      reads this, buf
    {
      && head < buf.Length && count == |contents| <= buf.Length
      && (forall p :: 0 <= p < buf.Length ==>
            buf[p] == if Offset(p) < count then Some(contents[Offset(p)]) else None)
    }

    constructor (capacity: int)
      ensures Valid() && fresh(buf)
      ensures buf.Length == if capacity < 1 then 1 else capacity
      ensures contents == []
    {
      var n: nat := if capacity < 1 then 1 else capacity;
      buf := new Option<T>[n](_ => None);
      head, count, contents := 0, 0, [];
    }

    method Push(x: T) returns (evicted: Option<T>)
      requires Valid()
      modifies this, buf
      ensures Valid()
      ensures contents == Pushed(old(contents), buf.Length, x)
      ensures evicted == if old(count) == buf.Length then Some(old(contents)[0]) else None
    {
      evicted := None;
      if count == buf.Length {
        evicted := PopOldest();
      }
      Append(x);
    }

    method Append(x: T)
      requires Valid() && count < buf.Length
      modifies this, buf
      ensures Valid()
      ensures contents == old(contents) + [x]
    {
      WrapAround(head + count, buf.Length);
      var tail := (head + count) % buf.Length;
      assert tail == Position(count);
      buf[tail] := Some(x);
      count := count + 1;
      contents := contents + [x];
    }

    method Peek() returns (x: Option<T>)
      requires Valid()
      ensures x == if contents == [] then None else Some(contents[0])
    {
      if count == 0 {
        return None;
      }
      return buf[head];
    }

    method PopOldest() returns (x: Option<T>)
      requires Valid()
      modifies this, buf
      ensures Valid()
      ensures old(contents) == [] ==> x == None && contents == []
      ensures old(contents) != [] ==> x == Some(old(contents)[0]) && contents == old(contents)[1..]
    {
      if count == 0 {
        return None;
      }
      x := buf[head];
      buf[head] := None;
      WrapAround(head + 1, buf.Length);
      head := (head + 1) % buf.Length;
      count := count - 1;
      contents := contents[1..];
    }

    method Len() returns (n: nat)
      requires Valid()
      ensures n == |contents|
    {
      n := count;
    }
  }
}
