/** HMAC-signed session cookies; the MAC is a parameter. */
module Session {
  import opened Prelude
  import opened Base64Url
  import opened Token

  const BAR: Byte := 0x7c
  const NANOS: int := 1_000_000_000
  const INT64_MIN: int := -0x8000_0000_0000_0000
  const INT64_MAX: int := 0x7fff_ffff_ffff_ffff

  /** exp is an instant in nanoseconds since the epoch. */
  datatype Session = Session(orgId: seq<Byte>, memberId: seq<Byte>, role: seq<Byte>, exp: int)

  type Mac = seq<Byte> -> seq<Byte>

  // ---------- decimal integers ----------

  function Digit(d: int): Byte
    requires 0 <= d < 10
  {
    0x30 + d
  }

  function Digits(n: nat): (s: seq<Byte>)
    ensures s != [] && forall i :: 0 <= i < |s| ==> 0x30 <= s[i] <= 0x39
  {
    if n < 10 then [Digit(n)] else Digits(n / 10) + [Digit(n % 10)]
  }

  /** strconv.FormatInt(n, 10) */
  function FormatInt(n: int): seq<Byte> {
    if n < 0 then [0x2d] + Digits(-n) else Digits(n)
  }

  function ParseDigits(s: seq<Byte>): Option<nat> {
    if s == [] then None
    else if !(0x30 <= s[|s| - 1] <= 0x39) then None
    else if |s| == 1 then Some(s[0] - 0x30)
    else
      var head := ParseDigits(s[..|s| - 1]);
      if head == None then None else Some(head.value * 10 + (s[|s| - 1] - 0x30))
  }

  /** strconv.ParseInt(s, 10, 64): an optional sign, digits, and an int64 value. */
  function ParseInt(s: seq<Byte>): Option<int> {
    if s == [] then None
    else
      var signed := s[0] == 0x2b || s[0] == 0x2d;
      var m := ParseDigits(if signed then s[1..] else s);
      if m == None then None
      else
        var v: int := if s[0] == 0x2d then 0 - m.value else m.value;
        if INT64_MIN <= v <= INT64_MAX then Some(v) else None
  }

  lemma {:induction false} DigitsRoundTrip(n: nat)
    ensures ParseDigits(Digits(n)) == Some(n)
  {
    if n >= 10 {
      DigitsRoundTrip(n / 10);
      assert Digits(n)[..|Digits(n)| - 1] == Digits(n / 10);
    }
  }

  lemma ParseNegative(ds: seq<Byte>, m: nat)
    requires ParseDigits(ds) == Some(m) && INT64_MIN <= 0 - m
    ensures ParseInt([0x2d] + ds) == Some(0 - m)
  {
    var s: seq<Byte> := [0x2d] + ds;
    assert s[1..] == ds;
  }

  lemma ParsePositive(ds: seq<Byte>, m: nat)
    requires ParseDigits(ds) == Some(m) && m <= INT64_MAX && ds != [] && 0x30 <= ds[0]
    ensures ParseInt(ds) == Some(m)
  {
  }

  lemma {:induction false} IntRoundTrip(n: int)
    requires INT64_MIN <= n <= INT64_MAX
    ensures ParseInt(FormatInt(n)) == Some(n)
  {
    if n < 0 {
      DigitsRoundTrip(-n);
      ParseNegative(Digits(-n), -n);
    } else {
      DigitsRoundTrip(n);
      ParsePositive(Digits(n), n);
    }
  }

  lemma FormatHasNoBar(n: int)
    ensures BAR !in FormatInt(n)
  {
  }

  // ---------- fields ----------

  /** strings.Split(s, "|") */
  function Split(s: seq<Byte>): (parts: seq<seq<Byte>>)
    ensures |parts| >= 1
    decreases |s|
  {
    var i := IndexByte(s, BAR);
    if i < 0 then [s] else [s[..i]] + Split(s[i + 1..])
  }

  function Bars(s: seq<Byte>): nat {
    if s == [] then 0 else Bars(s[..|s| - 1]) + if s[|s| - 1] == BAR then 1 else 0
  }

  lemma {:induction false} BarsAppend(a: seq<Byte>, b: seq<Byte>)
    ensures Bars(a + b) == Bars(a) + Bars(b)
  {
    if b == [] {
      assert a + b == a;
    } else {
      assert (a + b)[..|a + b| - 1] == a + b[..|b| - 1];
      BarsAppend(a, b[..|b| - 1]);
    }
  }

  lemma {:induction false} NoBars(s: seq<Byte>)
    ensures Bars(s) == 0 <==> BAR !in s
  {
    if s != [] {
      NoBars(s[..|s| - 1]);
      assert s == s[..|s| - 1] + [s[|s| - 1]];
    }
  }

  /** Splitting yields one part more than there are bars. */
  lemma {:induction false} SplitCount(s: seq<Byte>)
    ensures |Split(s)| == Bars(s) + 1
    decreases |s|
  {
    var i := IndexByte(s, BAR);
    if i < 0 {
      NoBars(s);
    } else {
      SplitCount(s[i + 1..]);
      NoBars(s[..i]);
      BarsAppend(s[..i], [BAR]);
      BarsAppend(s[..i] + [BAR], s[i + 1..]);
      assert s == s[..i] + [BAR] + s[i + 1..];
      assert Bars([BAR]) == 1;
    }
  }

  lemma {:induction false} SplitFirst(a: seq<Byte>, b: seq<Byte>)
    requires BAR !in a
    ensures Split(a + [BAR] + b) == [a] + Split(b)
  {
    var s := a + [BAR] + b;
    FirstSeparator(a, BAR, b);
    assert s[..|a|] == a && s[|a| + 1..] == b;
  }

  /** The record a session is signed as. */
  function Payload(s: Session): seq<Byte> {
    s.orgId + [BAR] + (s.memberId + [BAR] + (s.role + [BAR] + FormatInt(s.exp / NANOS)))
  }

  ghost predicate FieldsClean(s: Session) {
    BAR !in s.orgId && BAR !in s.memberId && BAR !in s.role
  }

  lemma Four<T>(a: T, b: T, c: T, d: T)
    ensures [a] + ([b] + ([c] + [d])) == [a, b, c, d]
  {
  }

  lemma {:induction false} CleanParts(a: seq<Byte>, b: seq<Byte>, c: seq<Byte>, d: seq<Byte>)
    requires BAR !in a && BAR !in b && BAR !in c && BAR !in d
    ensures Split(a + [BAR] + (b + [BAR] + (c + [BAR] + d))) == [a, b, c, d]
  {
    var p2 := c + [BAR] + d;
    var p1 := b + [BAR] + p2;
    calc {
      Split(a + [BAR] + p1);
      { SplitFirst(a, p1); }
      [a] + Split(p1);
      { SplitFirst(b, p2); }
      [a] + ([b] + Split(p2));
      { SplitFirst(c, d); }
      [a] + ([b] + ([c] + Split(d)));
      { SplitWhole(d); }
      [a] + ([b] + ([c] + [d]));
      { Four(a, b, c, d); }
      [a, b, c, d];
    }
  }

  lemma SplitWhole(d: seq<Byte>)
    requires BAR !in d
    ensures Split(d) == [d]
  {
  }

  lemma {:induction false} DirtyParts(a: seq<Byte>, b: seq<Byte>, c: seq<Byte>, d: seq<Byte>)
    requires BAR in a || BAR in b || BAR in c
    ensures |Split(a + [BAR] + (b + [BAR] + (c + [BAR] + d)))| > 4
  {
    SplitCount(a + [BAR] + (b + [BAR] + (c + [BAR] + d)));
    FieldBars(c, d);
    FieldBars(b, c + [BAR] + d);
    FieldBars(a, b + [BAR] + (c + [BAR] + d));
    NoBars(a);
    NoBars(b);
    NoBars(c);
  }

  lemma FieldBars(a: seq<Byte>, b: seq<Byte>)
    ensures Bars(a + [BAR] + b) == Bars(a) + 1 + Bars(b)
  {
    BarsAppend(a, [BAR]);
    BarsAppend(a + [BAR], b);
    assert Bars([BAR]) == 1;
  }

  // ---------- cookies ----------

  function EncodeSession(mac: Mac, s: Session): seq<Byte> {
    var p := Payload(s);
    EncodeToString(p) + [DOT] + EncodeToString(mac(p))
  }

  function ParsePayload(payload: seq<Byte>, now: int): Option<Session> {
    var parts := Split(payload);
    if |parts| != 4 then None
    else
      var exp := ParseInt(parts[3]);
      if exp == None || !(exp.value * NANOS > now) then None
      else Some(Session(parts[0], parts[1], parts[2], exp.value * NANOS))
  }

  /** Every failure is the same opaque error. */
  function DecodeSession(mac: Mac, value: seq<Byte>, now: int): Option<Session> {
    var dot := IndexByte(value, DOT);
    if dot < 0 then None
    else
      var payload := DecodeString(value[..dot]);
      var got := DecodeString(value[dot + 1..]);
      if payload == None || got == None || got.value != mac(payload.value) then None
      else ParsePayload(payload.value, now)
  }

  /** Decoding a cookie signed under one key with another key: the payload is parsed only if both
      MACs agree on it. */
  lemma {:induction false} DecodeSigned(signer: Mac, verifier: Mac, s: Session, now: int)
    ensures DecodeSession(verifier, EncodeSession(signer, s), now) ==
            if signer(Payload(s)) == verifier(Payload(s)) then ParsePayload(Payload(s), now) else None
  {
    var p := Payload(s);
    var a, b := EncodeToString(p), EncodeToString(signer(p));
    EncodingShape(p);
    FirstSeparator(a, DOT, b);
    RoundTrip(p);
    RoundTrip(signer(p));
    assert (a + [DOT] + b)[..|a|] == a && (a + [DOT] + b)[|a| + 1..] == b;
  }

  /** A cookie that carries a payload and its MAC. */
  ghost predicate Signed(mac: Mac, value: seq<Byte>, a: seq<Byte>, b: seq<Byte>, payload: seq<Byte>) {
    && value == a + [DOT] + b && DOT !in a
    && DecodeString(a) == Some(payload) && DecodeString(b) == Some(mac(payload))
  }

  lemma CookieParts(value: seq<Byte>, dot: nat)
    requires IndexByte(value, DOT) == dot
    ensures value == value[..dot] + [DOT] + value[dot + 1..] && DOT !in value[..dot]
  {
  }

  lemma UnexpiredPayload(payload: seq<Byte>, now: int)
    requires ParsePayload(payload, now).Some?
    ensures now < ParsePayload(payload, now).value.exp && |Split(payload)| == 4
  {
  }

  /** Whatever a cookie holds, it is accepted only if it carries a payload with its MAC, and only before
      the expiry that the payload names. */
  lemma {:induction false} AcceptedIsAuthentic(mac: Mac, value: seq<Byte>, now: int)
    returns (a: seq<Byte>, b: seq<Byte>, payload: seq<Byte>)
    requires DecodeSession(mac, value, now).Some?
    ensures Signed(mac, value, a, b, payload) && |Split(payload)| == 4
    ensures now < DecodeSession(mac, value, now).value.exp
  {
    var dot := IndexByte(value, DOT);
    CookieParts(value, dot);
    a, b := value[..dot], value[dot + 1..];
    payload := DecodeString(a).value;
    UnexpiredPayload(payload, now);
  }

  /** The signed record is the four fields between bars, the expiry in decimal seconds. */
  lemma {:induction false} PayloadFields(s: Session)
    requires FieldsClean(s)
    ensures Split(Payload(s)) == [s.orgId, s.memberId, s.role, FormatInt(s.exp / NANOS)]
  {
    FormatHasNoBar(s.exp / NANOS);
    CleanParts(s.orgId, s.memberId, s.role, FormatInt(s.exp / NANOS));
  }

  lemma ParseFields(payload: seq<Byte>, s: Session, d: seq<Byte>, n: int, now: int)
    requires Split(payload) == [s.orgId, s.memberId, s.role, d] && ParseInt(d) == Some(n)
    ensures ParsePayload(payload, now) == if n * NANOS > now then Some(s.(exp := n * NANOS)) else None
  {
  }

  lemma {:induction false} PayloadRoundTrip(s: Session, now: int)
    requires INT64_MIN <= s.exp / NANOS <= INT64_MAX
    ensures ParsePayload(Payload(s), now) ==
            if FieldsClean(s) && s.exp / NANOS * NANOS > now then Some(s.(exp := s.exp / NANOS * NANOS)) else None
  {
    var n := s.exp / NANOS;
    if FieldsClean(s) {
      PayloadFields(s);
      IntRoundTrip(n);
      ParseFields(Payload(s), s, FormatInt(n), n, now);
    } else {
      DirtyParts(s.orgId, s.memberId, s.role, FormatInt(n));
    }
  }

  /** A signed session decodes to itself with its expiry cut to whole seconds exactly when no field
      contains a bar and that instant is still ahead; in every other case decoding fails. */
  lemma {:induction false} SessionRoundTrip(mac: Mac, s: Session, now: int)
    requires INT64_MIN <= s.exp / NANOS <= INT64_MAX
    ensures
      var exp := s.exp / NANOS * NANOS;
      DecodeSession(mac, EncodeSession(mac, s), now) ==
        if FieldsClean(s) && exp > now then Some(s.(exp := exp)) else None
  {
    DecodeSigned(mac, mac, s, now);
    PayloadRoundTrip(s, now);
  }
}
