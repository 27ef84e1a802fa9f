/** The ingest-key wire format and the key resolution built on it. */
module Token {
  import opened Prelude
  import opened Base64Url
  import opened TtlCaches

  const DOT: Byte := 0x2e

  /** "mk_live_" */
  const PREFIX: seq<Byte> := [0x6d, 0x6b, 0x5f, 0x6c, 0x69, 0x76, 0x65, 0x5f]

  datatype Decoded = Decoded(origin: seq<Byte>, secret: seq<Byte>) | Invalid

  function Encode(origin: seq<Byte>, secret: seq<Byte>): seq<Byte> {
    if origin == [] then PREFIX + secret
    else PREFIX + EncodeToString(origin) + [DOT] + secret
  }

  /** strings.IndexByte: the first position of b, or -1. */
  function IndexByte(s: seq<Byte>, b: Byte): (i: int)
    ensures -1 <= i < |s|
    ensures i >= 0 ==> s[i] == b && b !in s[..i]
    ensures i == -1 <==> b !in s
  {
    if s == [] then -1
    else if s[0] == b then 0
    else
      var i := IndexByte(s[1..], b);
      assert s == [s[0]] + s[1..];
      if i < 0 then -1
      else
        assert s[..i + 1] == [s[0]] + s[1..][..i];
        i + 1
  }

  function DecodeStructured(originB64: seq<Byte>, secret: seq<Byte>): Decoded {
    var raw := DecodeString(originB64);
    if raw == None || secret == [] then Invalid else Decoded(raw.value, secret)
  }

  function Decode(tok: seq<Byte>): Decoded {
    if tok == [] then Invalid
    else if PREFIX <= tok then
      var body := tok[|PREFIX|..];
      var i := IndexByte(body, DOT);
      if i >= 0 then DecodeStructured(body[..i], body[i + 1..])
      else if body == [] then Invalid
      else Decoded([], body)
    else Decoded([], tok)
  }

  /** A separator that the first part does not contain is found right after it. */
  lemma {:induction false} FirstSeparator(a: seq<Byte>, sep: Byte, b: seq<Byte>)
    requires sep !in a
    ensures IndexByte(a + [sep] + b, sep) == |a|
  {
    if a != [] {
      assert a[0] in a && forall x :: x in a[1..] ==> x in a;
      FirstSeparator(a[1..], sep, b);
      assert (a + [sep] + b)[1..] == a[1..] + [sep] + b;
    }
  }

  lemma {:induction false} DecodePrefixed(a: seq<Byte>, b: seq<Byte>)
    requires DOT !in a
    ensures Decode(PREFIX + (a + [DOT] + b)) == DecodeStructured(a, b)
  {
    var body := a + [DOT] + b;
    FirstSeparator(a, DOT, b);
    assert (PREFIX + body)[|PREFIX|..] == body;
    assert body[..|a|] == a && body[|a| + 1..] == b;
  }

  lemma Reassociate(p: seq<Byte>, o: seq<Byte>, s: seq<Byte>)
    ensures p + o + [DOT] + s == p + (o + [DOT] + s)
  {
  }

  lemma {:induction false} StructuredRoundTrip(origin: seq<Byte>, secret: seq<Byte>)
    requires origin != []
    ensures Decode(Encode(origin, secret)) == if secret == [] then Invalid else Decoded(origin, secret)
  {
    var o := EncodeToString(origin);
    EncodingShape(origin);
    RoundTrip(origin);
    DecodePrefixed(o, secret);
    Reassociate(PREFIX, o, secret);
  }

  lemma {:induction false} PlainDecode(secret: seq<Byte>)
    ensures DOT !in secret ==> Decode(Encode([], secret)) == if secret == [] then Invalid else Decoded([], secret)
    ensures DOT in secret ==> Decode(Encode([], secret)) != Decoded([], secret)
  {
    var tok := Encode([], secret);
    assert tok[|PREFIX|..] == secret;
  }

  /** Of the keys, exactly a non-empty one without the prefix is its own secret; a prefixed one never is. */
  lemma {:induction false} BareDecode(tok: seq<Byte>)
    ensures Decode(tok) == Decoded([], tok) <==> tok != [] && !(PREFIX <= tok)
  {
    if PREFIX <= tok {
      assert |tok[|PREFIX|..]| < |tok|;
    }
  }

  /** A prefixed key with a dot, and the two parts around its first dot. */
  ghost predicate Structured(tok: seq<Byte>, o: seq<Byte>, secret: seq<Byte>) {
    tok == PREFIX + (o + [DOT] + secret) && DOT !in o
  }

  lemma SplitAtDot(tok: seq<Byte>) returns (o: seq<Byte>, secret: seq<Byte>)
    requires PREFIX <= tok && DOT in tok[|PREFIX|..]
    ensures Structured(tok, o, secret)
  {
    var body := tok[|PREFIX|..];
    var i := IndexByte(body, DOT);
    o, secret := body[..i], body[i + 1..];
    assert body == o + [DOT] + secret && tok == PREFIX + body;
  }

  lemma StructuredHasDot(tok: seq<Byte>, o: seq<Byte>, secret: seq<Byte>)
    requires Structured(tok, o, secret)
    ensures PREFIX <= tok && DOT in tok[|PREFIX|..] && Decode(tok) == DecodeStructured(o, secret)
  {
    DecodePrefixed(o, secret);
    assert tok[|PREFIX|..] == o + [DOT] + secret;
  }

  /** A key that is not structured is invalid only if there is no secret in it. */
  lemma UnstructuredDecode(tok: seq<Byte>)
    requires PREFIX <= tok ==> DOT !in tok[|PREFIX|..]
    ensures Decode(tok).Invalid? <==> tok == [] || tok == PREFIX
  {
    if PREFIX <= tok {
      assert tok == PREFIX + tok[|PREFIX|..];
    }
  }

  /** Exactly these keys are invalid: the empty one, the bare prefix, and a structured one whose origin is
      not base64url or whose secret is empty. */
  lemma {:induction false} DecodeFails(tok: seq<Byte>)
    ensures Decode(tok).Invalid? <==>
              tok == [] || tok == PREFIX ||
              exists o, secret :: Structured(tok, o, secret) && (DecodeString(o).None? || secret == [])
  {
    forall o, secret | Structured(tok, o, secret)
      ensures tok != [] && tok != PREFIX && Decode(tok) == DecodeStructured(o, secret)
    {
      StructuredHasDot(tok, o, secret);
    }
    if PREFIX <= tok && DOT in tok[|PREFIX|..] {
      var o, secret := SplitAtDot(tok);
      assert Structured(tok, o, secret);
    } else {
      UnstructuredDecode(tok);
      forall o, secret ensures !Structured(tok, o, secret) {
        if Structured(tok, o, secret) {
          StructuredHasDot(tok, o, secret);
        }
      }
    }
  }

  /** A key decodes to what it was built from exactly when the secret is non-empty and, for a key
      without origin, contains no dot. */
  lemma {:induction false} KeyRoundTrip(origin: seq<Byte>, secret: seq<Byte>)
    ensures Decode(Encode(origin, secret)) == Decoded(origin, secret) <==>
              secret != [] && (origin != [] || DOT !in secret)
  {
    if origin == [] {
      PlainDecode(secret);
    } else {
      StructuredRoundTrip(origin, secret);
    }
  }

  // ---------- resolving keys ----------

  /** Clock readings and backing lookup of one resolution, the lookup by digest. */
  datatype Call<!D, V> = Call(hitAt: int, stampAt: int, sweepAt: int, lookup: D -> Outcome<V>)

  function QueryFor<D, V>(digest: D, c: Call<D, V>): Query<D, V> {
    Query(digest, c.hitAt, c.stampAt, c.sweepAt, c.lookup(digest))
  }

  /** Only the secret half of a key is hashed and looked up. */
  class Resolver<D(==), V> {
    const hash: seq<Byte> -> D
    const tenants: TtlCache<D, V>

    constructor (hash: seq<Byte> -> D)
      ensures this.hash == hash && fresh(tenants) && tenants.cache == map[]
    {
      this.hash := hash;
      tenants := new TtlCache();
    }

    method Resolve(key: seq<Byte>, c: Call<D, V>) returns (a: Answer<V>)
      modifies tenants
      ensures Decode(key).Invalid? ==> a == Rejected && tenants.cache == old(tenants.cache)
      ensures Decode(key).Decoded? ==>
        var q := QueryFor(hash(Decode(key).secret), c);
        a == AnswerOf(old(tenants.cache), q) && tenants.cache == After(old(tenants.cache), q)
      ensures Decode(key).Decoded? && !Hit(old(tenants.cache), hash(Decode(key).secret), c.hitAt) ==>
        match c.lookup(hash(Decode(key).secret))
        case Result(v, ok) => a == Answered(v, ok)
        case Failed => a == Rejected
    {
      var d := Decode(key);
      if d.Invalid? {
        return Rejected;
      }
      a := tenants.Ask(QueryFor(hash(d.secret), c));
    }
  }

  /** The embedded origin never matters: one secret under two origins gives the same answer and the
      same cache. */
  lemma {:induction false} OriginIndependent<D, V>(
    o1: seq<Byte>, o2: seq<Byte>, secret: seq<Byte>, hash: seq<Byte> -> D, cache: map<D, Entry<V>>, c: Call<D, V>)
    requires o1 != [] && o2 != [] && secret != []
    ensures Decode(Encode(o1, secret)).Decoded? && Decode(Encode(o2, secret)).Decoded?
    ensures
      var q1 := QueryFor(hash(Decode(Encode(o1, secret)).secret), c);
      var q2 := QueryFor(hash(Decode(Encode(o2, secret)).secret), c);
      AnswerOf(cache, q1) == AnswerOf(cache, q2) && TtlCaches.After(cache, q1) == TtlCaches.After(cache, q2)
  {
    StructuredRoundTrip(o1, secret);
    StructuredRoundTrip(o2, secret);
  }
}
