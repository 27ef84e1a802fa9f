/** Series keys and the shard each of them hashes to. */
module SeriesKeys {
  import opened Prelude
  import opened SeriesModel

  const NUM_SHARDS: nat := 16

  type Shard = i: int | 0 <= i < NUM_SHARDS

  datatype StatusClass = Class2xx | Class3xx | Class4xx | Class5xx | NoStatus

  /** The class of a status: by its hundreds from 200 to 499, 1xx with 2xx, all above with 5xx. */
  function Classify(status: int): (c: StatusClass)
    ensures c == NoStatus <==> status <= 99
    ensures c == Class2xx <==> status / 100 in {1, 2}
    ensures c == Class3xx <==> status / 100 == 3
    ensures c == Class4xx <==> status / 100 == 4
    ensures c == Class5xx <==> status / 100 >= 5
  {
    if status < 100 then NoStatus
    else if status < 300 then Class2xx
    else if status < 400 then Class3xx
    else if status < 500 then Class4xx
    else Class5xx
  }

  /** An error is a request whose class is 4xx, 5xx or none, if and only if it did not write a status from 1
      to 99: that one is filed under no status and is no error. */
  lemma ErrorsAreClasses(status: int)
    ensures (IsError(status) <==> Classify(status) in {Class4xx, Class5xx, NoStatus}) <==> !(1 <= status <= 99)
  {
  }

  /** The enum value on the wire. */
  function ClassByte(c: StatusClass): Byte {
    match c
    case Class2xx => 1
    case Class3xx => 2
    case Class4xx => 3
    case Class5xx => 4
    case NoStatus => 5
  }

  function ClassNumber(c: StatusClass): bv32 { ClassByte(c) as bv32 }

  datatype SeriesKey = SeriesKey(verb: seq<Byte>, route: seq<Byte>, cls: StatusClass)

  function KeyOf(r: Record): (k: SeriesKey)
    ensures k.verb == r.verb && k.route == r.route
    ensures k.cls == Classify(r.status)
  {
    SeriesKey(r.verb, r.route, Classify(r.status))
  }

  const FNV_OFFSET: bv32 := 2166136261
  const FNV_PRIME: bv32 := 16777619

  function MixOne(h: bv32, b: bv32): bv32 { (h ^ b) * FNV_PRIME }

  function MixByte(h: bv32, b: Byte): bv32 { MixOne(h, b as bv32) }

  function FoldBytes<H>(f: (H, Byte) -> H, h: H, s: seq<Byte>): H {
    if s == [] then h else f(FoldBytes(f, h, s[..|s| - 1]), s[|s| - 1])
  }

  /** FNV-1a over the bytes of the key, with 32-bit wrap-around. */
  function HashSpec(k: SeriesKey): bv32 {
    FoldBytes(MixByte, FNV_OFFSET, KeyBytes(k))
  }

  /** The bytes that are hashed: method, route, and the class as two little-endian bytes. */
  function KeyBytes(k: SeriesKey): seq<Byte> {
    k.verb + k.route + [ClassByte(k.cls)] + [0]
  }

  lemma {:induction false} FoldAppend<H>(f: (H, Byte) -> H, h: H, a: seq<Byte>, b: seq<Byte>)
    ensures FoldBytes(f, h, a + b) == FoldBytes(f, FoldBytes(f, h, a), b)
  {
    if b == [] {
      assert a + b == a;
    } else {
      assert (a + b)[..|a + b| - 1] == a + b[..|b| - 1];
      FoldAppend(f, h, a, b[..|b| - 1]);
    }
  }

  lemma FoldSnoc<H>(f: (H, Byte) -> H, h: H, a: seq<Byte>, x: Byte)
    ensures FoldBytes(f, h, a + [x]) == f(FoldBytes(f, h, a), x)
  {
    assert (a + [x])[..|a|] == a;
  }

  lemma ClassBytes(c: StatusClass)
    ensures ClassByte(c) as bv32 == ClassNumber(c) & 0xff && 0 == (ClassNumber(c) >> 8) & 0xff
  {
  }

  lemma {:induction false} FoldKey<H>(f: (H, Byte) -> H, h: H, a: seq<Byte>, b: seq<Byte>, x: Byte, y: Byte)
    ensures FoldBytes(f, h, a + b + [x] + [y]) == f(f(FoldBytes(f, FoldBytes(f, h, a), b), x), y)
  {
    FoldAppend(f, h, a, b);
    FoldSnoc(f, h, a + b, x);
    FoldSnoc(f, h, a + b + [x], y);
  }

  lemma MixClass(h: bv32, c: StatusClass)
    ensures MixByte(MixByte(h, ClassByte(c)), 0) ==
            MixOne(MixOne(h, ClassNumber(c) & 0xff), (ClassNumber(c) >> 8) & 0xff)
  {
    ClassBytes(c);
  }

  method FoldLoop<H>(f: (H, Byte) -> H, start: H, s: seq<Byte>) returns (h: H)
    ensures h == FoldBytes(f, start, s)
  {
    h := start;
    for i := 0 to |s|
      invariant h == FoldBytes(f, start, s[..i])
    {
      assert s[..i + 1][..i] == s[..i];
      h := f(h, s[i]);
    }
    assert s[..|s|] == s;
  }

  lemma {:induction false} KeyFold<H>(f: (H, Byte) -> H, h: H, k: SeriesKey, g: H)
    requires g == FoldBytes(f, FoldBytes(f, h, k.verb), k.route)
    ensures FoldBytes(f, h, KeyBytes(k)) == f(f(g, ClassByte(k.cls)), 0)
  {
    FoldKey(f, h, k.verb, k.route, ClassByte(k.cls), 0);
  }

  /** The two class bytes after the key's text. */
  method MixClassNumber(g: bv32, c: StatusClass) returns (h: bv32)
    ensures h == MixByte(MixByte(g, ClassByte(c)), 0)
  {
    MixClass(g, c);
    h := MixOne(g, ClassNumber(c) & 0xff);
    h := MixOne(h, (ClassNumber(c) >> 8) & 0xff);
  }

  method Hash(k: SeriesKey) returns (h: bv32)
    ensures h == HashSpec(k)
  {
    var g := FoldLoop(MixByte, FNV_OFFSET, k.verb);
    g := FoldLoop(MixByte, g, k.route);
    KeyFold(MixByte, FNV_OFFSET, k, g);
    h := MixClassNumber(g, k.cls);
  }

  function Masked(h: bv32): Shard { (h & 15) as Shard }

  /** The one shard a key can be in. */
  function ShardOf(k: SeriesKey): Shard { Masked(HashSpec(k)) }
}
