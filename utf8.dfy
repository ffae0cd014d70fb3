/**
 * UTF-8 as `String.getBytes(StandardCharsets.UTF_8)` and
 * `new String(bytes, StandardCharsets.UTF_8)` use it (RFC 3629).
 * Strings are sequences of Unicode scalar values; bytes are unsigned octets.
 */
module Utf8 {

  /** An octet; Java's signed `byte` read as unsigned. */
  type byte = b: int | 0 <= b < 0x100

  /** What the decoder emits for a malformed subsequence. */
  const REPLACEMENT: char := '�'

  predicate IsContinuation(b: byte) {
    0x80 <= b <= 0xBF
  }

  /** Length of the well-formed sequence that lead byte `b0` starts, 0 if it starts none. */
  function SequenceLength(b0: byte): (n: nat)
    ensures n <= 4
  {
    if b0 <= 0x7F then 1
    else if 0xC2 <= b0 <= 0xDF then 2
    else if 0xE0 <= b0 <= 0xEF then 3
    else if 0xF0 <= b0 <= 0xF4 then 4
    else 0
  }

  /** Allowed range of the second byte after lead byte `b0` (table 3-7 of the Unicode standard). */
  function SecondLow(b0: byte): byte {
    if b0 == 0xE0 then 0xA0 else if b0 == 0xF0 then 0x90 else 0x80
  }

  function SecondHigh(b0: byte): byte {
    if b0 == 0xED then 0x9F else if b0 == 0xF4 then 0x8F else 0xBF
  }

  /** How many leading bytes of `b` agree with some well-formed sequence, at most its full length. */
  function ValidPrefix(b: seq<byte>): (k: nat)
    requires |b| > 0
    ensures k <= |b| && k <= SequenceLength(b[0])
    ensures SequenceLength(b[0]) > 0 ==> k > 0
  {
    var n := SequenceLength(b[0]);
    if n == 0 then 0
    else if n == 1 || |b| < 2 || !(SecondLow(b[0]) <= b[1] <= SecondHigh(b[0])) then 1
    else if n == 2 || |b| < 3 || !IsContinuation(b[2]) then 2
    else if n == 3 || |b| < 4 || !IsContinuation(b[3]) then 3
    else 4
  }

  /** A complete well-formed sequence stands at the front of `b`. */
  predicate StartsWellFormed(b: seq<byte>) {
    |b| > 0 && SequenceLength(b[0]) > 0 && ValidPrefix(b) == SequenceLength(b[0])
  }

  /** The code point of the well-formed sequence at the front of `b`. */
  function ScalarAt(b: seq<byte>): (c: char)
    requires StartsWellFormed(b)
  {
    var n := SequenceLength(b[0]);
    var b0: int := b[0];
    if n == 1 then b0 as char
    else
      var b1: int := b[1];
      if n == 2 then ((b0 - 0xC0) * 64 + (b1 - 0x80)) as char
      else
        var b2: int := b[2];
        if n == 3 then ((b0 - 0xE0) * 4096 + (b1 - 0x80) * 64 + (b2 - 0x80)) as char
        else
          var b3: int := b[3];
          ((b0 - 0xF0) * 262144 + (b1 - 0x80) * 4096 + (b2 - 0x80) * 64 + (b3 - 0x80)) as char
  }

  /** Bytes are well-formed UTF-8: a concatenation of well-formed sequences. */
  predicate WellFormed(b: seq<byte>)
    decreases |b|
  {
    b == [] || (StartsWellFormed(b) && WellFormed(b[SequenceLength(b[0])..]))
  }

  /** The UTF-8 encoding of one scalar value. */
  function EncodeChar(c: char): (e: seq<byte>)
    ensures 1 <= |e| <= 4
  {
    var p := c as int;
    if p < 0x80 then [p]
    else if p < 0x800 then [0xC0 + p / 64, 0x80 + p % 64]
    else if p < 0x10000 then [0xE0 + p / 4096, 0x80 + (p / 64) % 64, 0x80 + p % 64]
    else [0xF0 + p / 262144, 0x80 + (p / 4096) % 64, 0x80 + (p / 64) % 64, 0x80 + p % 64]
  }

  /** `String.getBytes(UTF_8)`. */
  function Encode(s: string): (b: seq<byte>)
    ensures |b| >= |s|
  {
    if s == [] then [] else EncodeChar(s[0]) + Encode(s[1..])
  }

  /**
   * `new String(b, UTF_8)`: well-formed sequences become their scalar value; each maximal
   * prefix of a well-formed sequence (or a single byte that starts none) becomes U+FFFD.
   */
  function Decode(b: seq<byte>): (s: string)
    ensures |s| <= |b|
    decreases |b|
  {
    if b == [] then []
    else if StartsWellFormed(b) then [ScalarAt(b)] + Decode(b[SequenceLength(b[0])..])
    else
      var k := ValidPrefix(b);
      [REPLACEMENT] + Decode(b[if k == 0 then 1 else k..])
  }

  /** Encoding one character puts a well-formed sequence of exactly its bytes in front of anything. */
  lemma EncodeCharWellFormed(c: char, rest: seq<byte>)
    ensures var e := EncodeChar(c);
      StartsWellFormed(e + rest) && SequenceLength(e[0]) == |e| && ScalarAt(e + rest) == c
  {
    var p := c as int;
    var e := EncodeChar(c);
    var b := e + rest;
    assert b[..|e|] == e;
    if p < 0x80 {
    } else if p < 0x800 {
      Split2(p);
    } else if p < 0x10000 {
      Split3(p);
    } else {
      Split4(p);
    }
  }

  lemma Split2(p: int)
    requires 0x80 <= p < 0x800
    ensures 2 <= p / 64 <= 31 && p == p / 64 * 64 + p % 64
  {
  }

  lemma Split3(p: int)
    requires 0x800 <= p < 0x10000
    ensures var hi, mid, lo := p / 4096, (p / 64) % 64, p % 64;
      hi <= 15 && p == hi * 4096 + mid * 64 + lo
      && (hi == 0 ==> mid >= 32) && (hi == 13 ==> (mid < 32 <==> p < 0xD800))
  {
    var q := p / 64;
    assert p == q * 64 + p % 64;
    assert q == q / 64 * 64 + q % 64;
    assert q / 64 == p / 4096;
  }

  lemma Split4(p: int)
    requires 0x10000 <= p < 0x110000
    ensures var top, hi, mid, lo := p / 262144, (p / 4096) % 64, (p / 64) % 64, p % 64;
      top <= 4 && p == top * 262144 + hi * 4096 + mid * 64 + lo
      && (top == 0 ==> hi >= 16) && (top == 4 ==> hi < 16)
  {
    var q := p / 64;
    var r := q / 64;
    assert p == q * 64 + p % 64;
    assert q == r * 64 + q % 64;
    assert r == r / 64 * 64 + r % 64;
    assert r == p / 4096;
    assert r / 64 == p / 262144;
  }

  /** Re-encoding the scalar value at the front of well-formed bytes gives back those bytes. */
  lemma ScalarAtEncodes(b: seq<byte>)
    requires StartsWellFormed(b)
    ensures EncodeChar(ScalarAt(b)) == b[..SequenceLength(b[0])]
  {
    var n := SequenceLength(b[0]);
    if n == 1 {
      assert b[..1] == [b[0]];
    } else if n == 2 {
      TwoByteScalar(b);
    } else if n == 3 {
      ThreeByteScalar(b);
    } else {
      FourByteScalar(b);
    }
  }

  lemma TwoByteScalar(b: seq<byte>)
    requires StartsWellFormed(b) && SequenceLength(b[0]) == 2
    ensures EncodeChar(ScalarAt(b)) == b[..2]
  {
    var p := ScalarAt(b) as int;
    var b0: int, b1: int := b[0], b[1];
    assert p == (b0 - 0xC0) * 64 + (b1 - 0x80);
    assert p / 64 == b0 - 0xC0 && p % 64 == b1 - 0x80;
    assert 0x80 <= p < 0x800;
    assert b[..2] == [b[0], b[1]];
  }

  lemma ThreeByteScalar(b: seq<byte>)
    requires StartsWellFormed(b) && SequenceLength(b[0]) == 3
    ensures EncodeChar(ScalarAt(b)) == b[..3]
  {
    var p := ScalarAt(b) as int;
    var b0: int, b1: int, b2: int := b[0], b[1], b[2];
    assert p == (b0 - 0xE0) * 4096 + (b1 - 0x80) * 64 + (b2 - 0x80);
    assert p / 64 == (b0 - 0xE0) * 64 + (b1 - 0x80);
    assert p / 4096 == b0 - 0xE0;
    assert 0x800 <= p < 0x10000;
    assert b[..3] == [b[0], b[1], b[2]];
  }

  lemma FourByteScalar(b: seq<byte>)
    requires StartsWellFormed(b) && SequenceLength(b[0]) == 4
    ensures EncodeChar(ScalarAt(b)) == b[..4]
  {
    var p := ScalarAt(b) as int;
    var b0: int, b1: int, b2: int, b3: int := b[0], b[1], b[2], b[3];
    assert p == (b0 - 0xF0) * 262144 + (b1 - 0x80) * 4096 + (b2 - 0x80) * 64 + (b3 - 0x80);
    assert p / 64 == (b0 - 0xF0) * 4096 + (b1 - 0x80) * 64 + (b2 - 0x80);
    assert p / 4096 == (b0 - 0xF0) * 64 + (b1 - 0x80);
    assert p / 262144 == b0 - 0xF0;
    assert 0x10000 <= p;
    assert b[..4] == [b[0], b[1], b[2], b[3]];
  }

  lemma {:induction false} EncodeIsWellFormed(s: string)
    ensures WellFormed(Encode(s))
  {
    if s != [] {
      EncodeCharWellFormed(s[0], Encode(s[1..]));
      EncodeIsWellFormed(s[1..]);
      assert (EncodeChar(s[0]) + Encode(s[1..]))[|EncodeChar(s[0])|..] == Encode(s[1..]);
    }
  }

  /** Decoding undoes encoding, for every string. */
  lemma {:induction false} DecodeEncode(s: string)
    ensures Decode(Encode(s)) == s
  {
    if s != [] {
      var e := EncodeChar(s[0]);
      EncodeCharWellFormed(s[0], Encode(s[1..]));
      assert (e + Encode(s[1..]))[|e|..] == Encode(s[1..]);
      DecodeEncode(s[1..]);
    }
  }

  /** Encoding undoes decoding exactly on well-formed bytes. */
  lemma {:induction false} EncodeDecode(b: seq<byte>)
    ensures Encode(Decode(b)) == b <==> WellFormed(b)
  {
    if WellFormed(b) {
      EncodeDecodeWellFormed(b);
    } else {
      EncodeIsWellFormed(Decode(b));
    }
  }

  lemma {:induction false} EncodeDecodeWellFormed(b: seq<byte>)
    requires WellFormed(b)
    ensures Encode(Decode(b)) == b
    decreases |b|
  {
    if b != [] {
      var n := SequenceLength(b[0]);
      ScalarAtEncodes(b);
      EncodeDecodeWellFormed(b[n..]);
      assert b == b[..n] + b[n..];
    }
  }

  /** Encoding distributes over concatenation. */
  lemma {:induction false} EncodeAppend(a: string, c: string)
    ensures Encode(a + c) == Encode(a) + Encode(c)
  {
    if a == [] {
      assert a + c == c;
    } else {
      assert (a + c)[0] == a[0] && (a + c)[1..] == a[1..] + c;
      EncodeAppend(a[1..], c);
    }
  }
}
