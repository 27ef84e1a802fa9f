/** Unpadded base64url, section 5 of RFC 4648, as encoding/base64's RawURLEncoding. */
module Base64Url {
  import opened Prelude

  type Sextet = x: int | 0 <= x < 64

  /** The base64url alphabet: A-Z a-z 0-9 - _ */
  function CharOf(x: Sextet): (c: Byte)
    ensures ValueOf(c) == Some(x)
  {
    if x < 26 then 'A' as int + x
    else if x < 52 then 'a' as int + (x - 26)
    else if x < 62 then '0' as int + (x - 52)
    else if x == 62 then '-' as int
    else '_' as int
  }

  function ValueOf(c: Byte): (x: Option<Sextet>) {
    if 'A' as int <= c <= 'Z' as int then Some(c - 'A' as int)
    else if 'a' as int <= c <= 'z' as int then Some(c - 'a' as int + 26)
    else if '0' as int <= c <= '9' as int then Some(c - '0' as int + 52)
    else if c == '-' as int then Some(62)
    else if c == '_' as int then Some(63)
    else None
  }

  // ---------- groups of sextets ----------

  function Sextet0(a: Byte): Sextet { a / 4 }
  function Sextet1(a: Byte, b: Byte): Sextet { a % 4 * 16 + b / 16 }
  function Sextet2(b: Byte, c: Byte): Sextet { b % 16 * 4 + c / 64 }
  function Sextet3(c: Byte): Sextet { c % 64 }

  function Byte0(p: Sextet, q: Sextet): Byte { p * 4 + q / 16 }
  function Byte1(q: Sextet, r: Sextet): Byte { q % 16 * 16 + r / 4 }
  function Byte2(r: Sextet, t: Sextet): Byte { r % 4 * 64 + t }

  /** Three bytes and their four sextets are the same 24-bit big-endian number. */
  lemma GroupIsBigEndian(a: Byte, b: Byte, c: Byte)
    ensures ((Sextet0(a) * 64 + Sextet1(a, b)) * 64 + Sextet2(b, c)) * 64 + Sextet3(c) == (a * 256 + b) * 256 + c
  {
  }

  lemma FirstByteRoundTrip(a: Byte, b: Byte)
    ensures Byte0(Sextet0(a), Sextet1(a, b)) == a
  {
  }

  /** A group of three bytes survives the trip through four sextets. */
  lemma GroupRoundTrip(a: Byte, b: Byte, c: Byte)
    ensures Byte0(Sextet0(a), Sextet1(a, b)) == a
    ensures Byte1(Sextet1(a, b), Sextet2(b, c)) == b
    ensures Byte2(Sextet2(b, c), Sextet3(c)) == c
  {
  }

  /** Three bytes as four sextets; a final group of one or two bytes as two or three. */
  function ToSextets(s: seq<Byte>): (r: seq<Sextet>) {
    if |s| == 0 then []
    else if |s| == 1 then [Sextet0(s[0]), Sextet1(s[0], 0)]
    else if |s| == 2 then [Sextet0(s[0]), Sextet1(s[0], s[1]), Sextet2(s[1], 0)]
    else [Sextet0(s[0]), Sextet1(s[0], s[1]), Sextet2(s[1], s[2]), Sextet3(s[2])] + ToSextets(s[3..])
  }

  /** The inverse; a single left-over sextet is an error, left-over low bits are ignored. */
  function FromSextets(r: seq<Sextet>): Option<seq<Byte>> {
    if |r| == 0 then Some([])
    else if |r| == 1 then None
    else if |r| == 2 then Some([Byte0(r[0], r[1])])
    else if |r| == 3 then Some([Byte0(r[0], r[1]), Byte1(r[1], r[2])])
    else
      var rest := FromSextets(r[4..]);
      if rest == None then None
      else Some([Byte0(r[0], r[1]), Byte1(r[1], r[2]), Byte2(r[2], r[3])] + rest.value)
  }

  lemma PrependGroup(a: Byte, b: Byte, c: Byte, rest: seq<Byte>, sextets: seq<Sextet>)
    requires FromSextets(sextets) == Some(rest)
    ensures FromSextets([Sextet0(a), Sextet1(a, b), Sextet2(b, c), Sextet3(c)] + sextets) == Some([a, b, c] + rest)
  {
    var r := [Sextet0(a), Sextet1(a, b), Sextet2(b, c), Sextet3(c)] + sextets;
    assert r[4..] == sextets;
    GroupRoundTrip(a, b, c);
  }

  lemma LastByte(s: seq<Byte>, r: seq<Sextet>)
    requires |s| == 1 && |r| == 2 && r[0] == Sextet0(s[0]) && r[1] == Sextet1(s[0], 0)
    ensures FromSextets(r) == Some(s)
  {
    FirstByteRoundTrip(s[0], 0);
    assert FromSextets(r) == Some([Byte0(r[0], r[1])]);
    assert [Byte0(r[0], r[1])] == s;
  }

  lemma LastTwoBytes(s: seq<Byte>, r: seq<Sextet>)
    requires |s| == 2 && |r| == 3
    requires r[0] == Sextet0(s[0]) && r[1] == Sextet1(s[0], s[1]) && r[2] == Sextet2(s[1], 0)
    ensures FromSextets(r) == Some(s)
  {
    GroupRoundTrip(s[0], s[1], 0);
    assert FromSextets(r) == Some([Byte0(r[0], r[1]), Byte1(r[1], r[2])]);
    assert [Byte0(r[0], r[1]), Byte1(r[1], r[2])] == s;
  }

  lemma {:induction false} FirstGroup(s: seq<Byte>, rest: seq<Byte>, sextets: seq<Sextet>)
    requires |s| >= 3 && rest == s[3..] && sextets == ToSextets(rest) && FromSextets(sextets) == Some(rest)
    ensures FromSextets(ToSextets(s)) == Some(s)
  {
    PrependGroup(s[0], s[1], s[2], rest, sextets);
    assert s == [s[0], s[1], s[2]] + rest;
  }

  lemma {:induction false} SextetsRoundTrip(s: seq<Byte>)
    ensures FromSextets(ToSextets(s)) == Some(s)
  {
    if |s| == 1 {
      LastByte(s, ToSextets(s));
    } else if |s| == 2 {
      LastTwoBytes(s, ToSextets(s));
    } else if |s| >= 3 {
      SextetsRoundTrip(s[3..]);
      FirstGroup(s, s[3..], ToSextets(s[3..]));
    }
  }

  // ---------- characters ----------

  function ToChars(r: seq<Sextet>): (s: seq<Byte>)
    ensures |s| == |r| && forall i :: 0 <= i < |r| ==> s[i] == CharOf(r[i])
  {
    if r == [] then [] else [CharOf(r[0])] + ToChars(r[1..])
  }

  function FromChars(s: seq<Byte>): Option<seq<Sextet>> {
    if s == [] then Some([])
    else
      var rest := FromChars(s[1..]);
      if ValueOf(s[0]) == None || rest == None then None else Some([ValueOf(s[0]).value] + rest.value)
  }

  lemma FromCharsCons(c: Byte, t: seq<Byte>, r: seq<Sextet>)
    requires ValueOf(c).Some? && FromChars(t) == Some(r)
    ensures FromChars([c] + t) == Some([ValueOf(c).value] + r)
  {
    assert ([c] + t)[1..] == t;
  }

  lemma {:induction false} CharsRoundTrip(r: seq<Sextet>)
    ensures FromChars(ToChars(r)) == Some(r)
  {
    if r != [] {
      var rest := r[1..];
      CharsRoundTrip(rest);
      FromCharsCons(CharOf(r[0]), ToChars(rest), rest);
      assert r == [r[0]] + rest;
    }
  }

  predicate IsNewline(c: Byte) { c == 0x0a || c == 0x0d }

  /** The decoder skips carriage returns and line feeds wherever they are. */
  function SkipNewlines(s: seq<Byte>): seq<Byte> {
    if s == [] then []
    else (if IsNewline(s[0]) then [] else [s[0]]) + SkipNewlines(s[1..])
  }

  ghost predicate InAlphabet(s: seq<Byte>) {
    forall i :: 0 <= i < |s| ==> ValueOf(s[i]).Some?
  }

  lemma {:induction false} NothingSkipped(s: seq<Byte>)
    requires InAlphabet(s)
    ensures SkipNewlines(s) == s
  {
    if s != [] {
      NothingSkipped(s[1..]);
    }
  }

  // ---------- the codec ----------

  function EncodeToString(s: seq<Byte>): (r: seq<Byte>)
    ensures InAlphabet(r)
  {
    ToChars(ToSextets(s))
  }

  function DecodeString(s: seq<Byte>): Option<seq<Byte>> {
    var r := FromChars(SkipNewlines(s));
    if r == None then None else FromSextets(r.value)
  }

  /** Decoding inverts encoding for every byte string, whatever its length modulo three. */
  lemma {:induction false} RoundTrip(s: seq<Byte>)
    ensures DecodeString(EncodeToString(s)) == Some(s)
  {
    NothingSkipped(EncodeToString(s));
    CharsRoundTrip(ToSextets(s));
    SextetsRoundTrip(s);
  }

  lemma {:induction false} FromCharsIff(s: seq<Byte>)
    ensures FromChars(s).Some? <==> InAlphabet(s)
    ensures FromChars(s).Some? ==> |FromChars(s).value| == |s|
  {
    if s != [] {
      FromCharsIff(s[1..]);
      assert s == [s[0]] + s[1..];
    }
  }

  lemma FourMore(n: nat)
    ensures (n + 4) % 4 == n % 4 && (n + 4) * 6 / 8 == n * 6 / 8 + 3
  {
  }

  lemma {:induction false} FromSextetsIff(r: seq<Sextet>)
    ensures FromSextets(r).Some? <==> |r| % 4 != 1
    ensures FromSextets(r).Some? ==> |FromSextets(r).value| == |r| * 6 / 8
  {
    if |r| >= 4 {
      var rest := r[4..];
      FromSextetsIff(rest);
      FourMore(|rest|);
    }
  }

  lemma {:induction false} SkippedAlphabet(s: seq<Byte>)
    ensures InAlphabet(SkipNewlines(s)) <==> forall i :: 0 <= i < |s| ==> ValueOf(s[i]).Some? || IsNewline(s[i])
  {
    if s != [] {
      var rest := SkipNewlines(s[1..]);
      SkippedAlphabet(s[1..]);
      assert s == [s[0]] + s[1..];
      if IsNewline(s[0]) {
        assert SkipNewlines(s) == rest;
      } else {
        assert SkipNewlines(s)[0] == s[0] && SkipNewlines(s)[1..] == rest;
        assert forall i :: 0 <= i < |rest| ==> SkipNewlines(s)[i + 1] == rest[i];
      }
    }
  }

  /** Exactly the strings over the alphabet and line breaks decode, unless one character is left over
      after groups of four; n characters then give 6n/8 bytes. */
  lemma {:induction false} DecodesIff(s: seq<Byte>)
    ensures DecodeString(s).Some? <==>
              (forall i :: 0 <= i < |s| ==> ValueOf(s[i]).Some? || IsNewline(s[i])) && |SkipNewlines(s)| % 4 != 1
    ensures DecodeString(s).Some? ==> |DecodeString(s).value| == |SkipNewlines(s)| * 6 / 8
  {
    var t := SkipNewlines(s);
    SkippedAlphabet(s);
    FromCharsIff(t);
    if FromChars(t).Some? {
      FromSextetsIff(FromChars(t).value);
    }
  }

  /** The encoding of a non-empty string is non-empty, and it never contains a dot. */
  lemma {:induction false} EncodingShape(s: seq<Byte>)
    ensures (EncodeToString(s) == []) <==> s == []
    ensures 0x2e !in EncodeToString(s)
    ensures |EncodeToString(s)| == (|s| * 8 + 5) / 6
  {
    SextetCount(s);
  }

  lemma {:induction false} SextetCount(s: seq<Byte>)
    ensures |ToSextets(s)| == (|s| * 8 + 5) / 6
  {
    if |s| >= 3 {
      SextetCount(s[3..]);
    }
  }
}
