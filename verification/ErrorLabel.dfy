/** Normalization of raw error labels to short storable tokens. */
module ErrorLabels {
  import opened Prelude

  const MAX_ERROR_CLASS_LEN: nat := 64
  const UNDERSCORE: Byte := 0x5f

  predicate IsUpperAlnum(c: Byte) {
    0x41 <= c <= 0x5a || 0x30 <= c <= 0x39
  }

  /** c uppercased when it is an ASCII letter or digit. */
  function AsciiUpperAlnum(c: Byte): (u: Option<Byte>)
    ensures u.Some? ==> IsUpperAlnum(u.value)
    ensures IsUpperAlnum(c) ==> u == Some(c)
    ensures u.Some? && u != Some(c) <==> 0x61 <= c <= 0x7a
    ensures 0x61 <= c <= 0x7a ==> u.value - 0x41 == c - 0x61
  {
    if 0x61 <= c <= 0x7a then Some(c - 32)
    else if 0x41 <= c <= 0x5a || 0x30 <= c <= 0x39 then Some(c)
    else None
  }

  ghost predicate EndsInUnderscore(b: seq<Byte>) {
    b != [] && b[|b| - 1] == UNDERSCORE
  }

  /** The builder contents after scanning s; once full it stays as it is. */
  ghost function Scan(s: seq<Byte>): (b: seq<Byte>)
    ensures |b| <= MAX_ERROR_CLASS_LEN
  {
    if s == [] then []
    else
      var b := Scan(s[..|s| - 1]);
      var u := AsciiUpperAlnum(s[|s| - 1]);
      if |b| >= MAX_ERROR_CLASS_LEN then b
      else if u.Some? then b + [u.value]
      else if b != [] && !EndsInUnderscore(b) then b + [UNDERSCORE]
      else b
  }

  /** strings.TrimRight(b, "_") */
  function TrimRight(b: seq<Byte>): (r: seq<Byte>)
    ensures r <= b && !EndsInUnderscore(r)
  {
    if b != [] && b[|b| - 1] == UNDERSCORE then TrimRight(b[..|b| - 1]) else b
  }

  ghost function Sanitize(s: seq<Byte>): seq<Byte> {
    TrimRight(Scan(s))
  }

  lemma {:induction false} ScanFull(s: seq<Byte>, i: nat)
    requires i <= |s| && |Scan(s[..i])| >= MAX_ERROR_CLASS_LEN
    ensures Scan(s) == Scan(s[..i])
    decreases |s| - i
  {
    if i < |s| {
      assert s[..i + 1][..i] == s[..i];
      ScanFull(s, i + 1);
    } else {
      assert s[..i] == s;
    }
  }

  method SanitizeErrorClass(s: seq<Byte>) returns (r: seq<Byte>)
    ensures r == Sanitize(s)
  {
    if s == [] {
      return [];
    }
    var b: seq<Byte> := [];
    var prevUnderscore := false;
    var i := 0;
    while i < |s| && |b| < MAX_ERROR_CLASS_LEN
      invariant 0 <= i <= |s|
      invariant b == Scan(s[..i])
      invariant prevUnderscore == EndsInUnderscore(b)
      decreases |s| - i
    {
      assert s[..i + 1][..i] == s[..i];
      var u := AsciiUpperAlnum(s[i]);
      if u.Some? {
        b := b + [u.value];
        prevUnderscore := false;
      } else if |b| > 0 && !prevUnderscore {
        b := b + [UNDERSCORE];
        prevUnderscore := true;
      }
      i := i + 1;
    }
    if i < |s| {
      ScanFull(s, i);
    } else {
      assert s[..i] == s;
    }
    r := TrimRight(b);
  }

  // ---------- the normal form ----------

  /** Shape shared by the builder and its trimmed result. */
  ghost predicate Collapsed(b: seq<Byte>) {
    && |b| <= MAX_ERROR_CLASS_LEN
    && (forall i :: 0 <= i < |b| ==> IsUpperAlnum(b[i]) || b[i] == UNDERSCORE)
    && (b != [] ==> b[0] != UNDERSCORE)
    && (forall i :: 0 < i < |b| && b[i] == UNDERSCORE ==> b[i - 1] != UNDERSCORE)
  }

  ghost predicate NormalForm(b: seq<Byte>) {
    Collapsed(b) && !EndsInUnderscore(b)
  }

  lemma {:induction false} ScanCollapsed(s: seq<Byte>)
    ensures Collapsed(Scan(s))
  {
    if s != [] {
      ScanCollapsed(s[..|s| - 1]);
    }
  }

  /** Every sanitized label is in normal form, also when the input was cut at the cap. */
  lemma {:induction false} SanitizeIsNormal(s: seq<Byte>)
    ensures NormalForm(Sanitize(s))
  {
    ScanCollapsed(s);
    var r := Sanitize(s);
    assert forall i :: 0 <= i < |r| ==> r[i] == Scan(s)[i];
  }

  lemma {:induction false} ScanFixed(b: seq<Byte>)
    requires Collapsed(b)
    ensures Scan(b) == b
  {
    if b != [] {
      var c := b[..|b| - 1];
      assert Collapsed(c);
      ScanFixed(c);
    }
  }

  /** Labels in normal form are left alone, so normal forms are exactly the possible results. */
  lemma {:induction false} NormalIsFixed(b: seq<Byte>)
    requires NormalForm(b)
    ensures Sanitize(b) == b
  {
    ScanFixed(b);
  }

  lemma {:induction false} SanitizeIdempotent(s: seq<Byte>)
    ensures Sanitize(Sanitize(s)) == Sanitize(s)
  {
    SanitizeIsNormal(s);
    NormalIsFixed(Sanitize(s));
  }

  /** Every byte that is not a letter or digit acts as an underscore, and case is ignored. */
  ghost function Canonical(s: seq<Byte>): (c: seq<Byte>)
    ensures |c| == |s|
  {
    if s == [] then []
    else
      var u := AsciiUpperAlnum(s[|s| - 1]);
      Canonical(s[..|s| - 1]) + [if u.Some? then u.value else UNDERSCORE]
  }

  lemma {:induction false} ScanCanonical(s: seq<Byte>)
    ensures Scan(Canonical(s)) == Scan(s)
  {
    if s != [] {
      ScanCanonical(s[..|s| - 1]);
      assert Canonical(s)[..|s| - 1] == Canonical(s[..|s| - 1]);
    }
  }

  lemma {:induction false} SanitizeCanonical(s: seq<Byte>)
    ensures Sanitize(s) == Sanitize(Canonical(s))
  {
    ScanCanonical(s);
  }

  // ---------- nothing but separators is lost ----------

  /** The letters and digits of a string, uppercased, in order. */
  ghost function Letters(s: seq<Byte>): seq<Byte> {
    if s == [] then []
    else
      var u := AsciiUpperAlnum(s[|s| - 1]);
      Letters(s[..|s| - 1]) + if u.Some? then [u.value] else []
  }

  lemma {:induction false} ScanLetters(s: seq<Byte>)
    ensures Letters(Scan(s)) <= Letters(s)
    ensures |Scan(s)| < MAX_ERROR_CLASS_LEN ==> Letters(Scan(s)) == Letters(s)
  {
    if s != [] {
      ScanLetters(s[..|s| - 1]);
      var b := Scan(s[..|s| - 1]);
      assert Scan(s) != b ==> Scan(s)[..|b|] == b;
    }
  }

  lemma {:induction false} TrimLetters(b: seq<Byte>)
    ensures Letters(TrimRight(b)) == Letters(b)
  {
    if EndsInUnderscore(b) {
      TrimLetters(b[..|b| - 1]);
    }
  }

  /** The letters of a label are a prefix of the input's letters, and all of them unless the
      builder filled up. */
  lemma {:induction false} SanitizeKeepsLetters(s: seq<Byte>)
    ensures Letters(Sanitize(s)) <= Letters(s)
    ensures |Scan(s)| < MAX_ERROR_CLASS_LEN ==> Letters(Sanitize(s)) == Letters(s)
  {
    ScanLetters(s);
    TrimLetters(Scan(s));
  }
}
