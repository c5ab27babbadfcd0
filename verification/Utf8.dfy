/** Well-formed UTF-8, sections 3 and 4 of RFC 3629: the contents of every Rust string, and the test that
    `str::from_utf8` makes. */
module Utf8 {
  import opened ByteStrings

  predicate Continues(c: byte) {
    0x80 <= c <= 0xBF
  }

  /** Length of the well-formed sequence of one character that starts `b`; 0 if there is none. */
  function CharLength(b: Bytes): (n: nat)
    ensures n <= |b| && n <= 4
  {
    if b == [] then 0
    else if b[0] < 0x80 then 1
    else if |b| >= 2 && 0xC2 <= b[0] <= 0xDF && Continues(b[1]) then 2
    else if |b| >= 3 && Triple(b[0], b[1]) && Continues(b[2]) then 3
    else if |b| >= 4 && Quadruple(b[0], b[1]) && Continues(b[2]) && Continues(b[3]) then 4
    else 0
  }

  predicate Triple(a: byte, b: byte) {
    || (a == 0xE0 && 0xA0 <= b <= 0xBF)
    || ((0xE1 <= a <= 0xEC || 0xEE <= a <= 0xEF) && Continues(b))
    || (a == 0xED && 0x80 <= b <= 0x9F)
  }

  predicate Quadruple(a: byte, b: byte) {
    || (a == 0xF0 && 0x90 <= b <= 0xBF)
    || (0xF1 <= a <= 0xF3 && Continues(b))
    || (a == 0xF4 && 0x80 <= b <= 0x8F)
  }

  predicate IsUtf8(b: Bytes) {
    b == [] || (CharLength(b) > 0 && IsUtf8(b[CharLength(b)..]))
  }

  // ---- the encoding of section 3 of RFC 3629 ----

  /** Unicode scalar values: no surrogates. */
  predicate IsScalar(c: nat) {
    c < 0xD800 || 0xE000 <= c < 0x110000
  }

  predicate AreScalars(cs: seq<nat>) {
    forall i :: 0 <= i < |cs| ==> IsScalar(cs[i])
  }

  /** The last six bits of a character, as a continuation byte. */
  function Tail(c: nat): byte {
    (0x80 + c % 64) as byte
  }

  function EncodeChar(c: nat): Bytes
    requires IsScalar(c)
  {
    if c < 0x80 then [c as byte]
    else if c < 0x800 then [(0xC0 + c / 64) as byte, Tail(c)]
    else if c < 0x1_0000 then [(0xE0 + c / 64 / 64) as byte, Tail(c / 64), Tail(c)]
    else [(0xF0 + c / 64 / 64 / 64) as byte, Tail(c / 64 / 64), Tail(c / 64), Tail(c)]
  }

  function EncodeChars(cs: seq<nat>): Bytes
    requires AreScalars(cs)
  {
    if cs == [] then [] else EncodeChar(cs[0]) + EncodeChars(cs[1..])
  }

  /** The value of six bits more. */
  function With(high: nat, c: byte): nat
    requires Continues(c)
  {
    high * 64 + (c as nat - 0x80)
  }

  lemma WithTail(high: nat, c: byte)
    requires Continues(c)
    ensures With(high, c) / 64 == high && Tail(With(high, c)) == c
  {}

  lemma LongChar(c: nat, rest: Bytes)
    requires IsScalar(c) && c >= 0x1_0000
    ensures CharLength(EncodeChar(c) + rest) == 4
  {
    var b := EncodeChar(c) + rest;
    assert b[0] == (0xF0 + c / 64 / 64 / 64) as byte && b[1] == Tail(c / 64 / 64);
    assert b[2] == Tail(c / 64) && b[3] == Tail(c);
  }

  lemma ShortChar(c: nat, rest: Bytes)
    requires IsScalar(c) && c < 0x1_0000
    ensures CharLength(EncodeChar(c) + rest) == |EncodeChar(c)|
  {
    var b := EncodeChar(c) + rest;
    if 0x80 <= c < 0x800 {
      assert b[0] == (0xC0 + c / 64) as byte && b[1] == Tail(c);
    } else if c >= 0x800 {
      assert b[0] == (0xE0 + c / 64 / 64) as byte && b[1] == Tail(c / 64) && b[2] == Tail(c);
    }
  }

  /** An encoded character is taken as one, whatever follows. */
  lemma CharIsRead(c: nat, rest: Bytes)
    requires IsScalar(c)
    ensures CharLength(EncodeChar(c) + rest) == |EncodeChar(c)| > 0
  {
    if c < 0x1_0000 { ShortChar(c, rest); } else { LongChar(c, rest); }
  }

  /** Whatever is taken as one character encodes one. */
  lemma ReadIsChar(b: Bytes) returns (c: nat)
    requires CharLength(b) > 0
    ensures IsScalar(c) && EncodeChar(c) == b[..CharLength(b)]
  {
    var n := CharLength(b);
    if n == 1 {
      c := b[0] as nat;
    } else if n == 2 {
      c := With(b[0] as nat - 0xC0, b[1]);
      WithTail(b[0] as nat - 0xC0, b[1]);
    } else if n == 3 {
      c := ReadTriple(b[0], b[1], b[2]);
    } else {
      c := ReadQuadruple(b[0], b[1], b[2], b[3]);
    }
  }

  lemma ReadTriple(x: byte, y: byte, z: byte) returns (c: nat)
    requires Triple(x, y) && Continues(z)
    ensures IsScalar(c) && EncodeChar(c) == [x, y, z]
  {
    var high := With(x as nat - 0xE0, y);
    WithTail(x as nat - 0xE0, y);
    c := With(high, z);
    WithTail(high, z);
  }

  lemma ReadQuadruple(x: byte, y: byte, z: byte, w: byte) returns (c: nat)
    requires Quadruple(x, y) && Continues(z) && Continues(w)
    ensures IsScalar(c) && EncodeChar(c) == [x, y, z, w]
  {
    var high := With(x as nat - 0xF0, y);
    WithTail(x as nat - 0xF0, y);
    var mid := With(high, z);
    WithTail(high, z);
    c := With(mid, w);
    WithTail(mid, w);
  }

  lemma {:induction false} EncodedIsUtf8(cs: seq<nat>)
    requires AreScalars(cs)
    ensures IsUtf8(EncodeChars(cs))
  {
    if cs != [] {
      EncodedIsUtf8(cs[1..]);
      CharIsRead(cs[0], EncodeChars(cs[1..]));
      assert EncodeChars(cs)[|EncodeChar(cs[0])|..] == EncodeChars(cs[1..]);
    }
  }

  lemma {:induction false} Utf8IsEncoded(b: Bytes) returns (cs: seq<nat>)
    requires IsUtf8(b)
    ensures AreScalars(cs) && EncodeChars(cs) == b
    decreases |b|
  {
    if b == [] {
      cs := [];
    } else {
      var n := CharLength(b);
      var c := ReadIsChar(b);
      var rest := Utf8IsEncoded(b[n..]);
      cs := [c] + rest;
      assert cs[1..] == rest && b == b[..n] + b[n..];
    }
  }

  /** The well-formed byte strings are exactly the encodings of sequences of characters. */
  lemma IsUtf8Iff(b: Bytes)
    ensures IsUtf8(b) <==> exists cs: seq<nat> :: AreScalars(cs) && EncodeChars(cs) == b
  {
    if IsUtf8(b) { var cs := Utf8IsEncoded(b); }
    if cs: seq<nat> :| AreScalars(cs) && EncodeChars(cs) == b { EncodedIsUtf8(cs); }
  }

  lemma {:induction false} AsciiIsUtf8(b: Bytes)
    requires forall i :: 0 <= i < |b| ==> b[i] < 0x80
    ensures IsUtf8(b)
  {
    if b != [] { AsciiIsUtf8(b[1..]); }
  }

  /** A character does not reach across an ASCII byte. */
  lemma CharStopsAtAscii(a: Bytes, sep: byte, b: Bytes)
    requires sep < 0x80 && a != []
    ensures CharLength(a + [sep] + b) == CharLength(a)
  {
    var s := a + [sep] + b;
    assert s[0] == a[0] && s[|a|] == sep;
    if |a| >= 2 { assert s[1] == a[1]; }
    if |a| >= 3 { assert s[2] == a[2]; }
    if |a| >= 4 { assert s[3] == a[3]; }
  }

  /** Text splits into text at every ASCII byte. */
  lemma {:induction false} Utf8AtAscii(a: Bytes, sep: byte, b: Bytes)
    requires sep < 0x80
    ensures IsUtf8(a + [sep] + b) <==> IsUtf8(a) && IsUtf8(b)
  {
    var s := a + [sep] + b;
    if a == [] {
      assert s[1..] == b;
    } else {
      CharStopsAtAscii(a, sep, b);
      var n := CharLength(a);
      if n > 0 {
        Utf8AtAscii(a[n..], sep, b);
        assert s[n..] == a[n..] + [sep] + b;
      }
    }
  }

  lemma {:induction false} SplitUtf8(s: Bytes, sep: byte)
    requires sep < 0x80 && IsUtf8(s)
    ensures forall i :: 0 <= i < |Split(s, sep)| ==> IsUtf8(Split(s, sep)[i])
    decreases |s|
  {
    var f := Split(s, sep);
    JoinSplit(s, sep);
    if |f| > 1 {
      var rest := Join(f[1..], sep);
      Utf8AtAscii(f[0], sep, rest);
      SplitJoin(f[1..], sep);
      SplitUtf8(rest, sep);
    }
  }
}
