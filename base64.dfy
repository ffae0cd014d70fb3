/**
 * Base64 as `java.util.Base64.getEncoder()` / `getDecoder()` use it: the alphabet of
 * section 4 of RFC 4648, padding on encode, no line breaks.  The basic decoder rejects
 * every character outside the alphabet, but also accepts a final unit without padding.
 */
module Base64 {
  import opened Wrappers
  import opened Utf8

  /** The character for a 6-bit value. */
  function Char(v: int): (c: char)
    requires 0 <= v < 64
  {
    if v < 26 then ('A' as int + v) as char
    else if v < 52 then ('a' as int + v - 26) as char
    else if v < 62 then ('0' as int + v - 52) as char
    else if v == 62 then '+'
    else '/'
  }

  predicate IsAlphabet(c: char) {
    'A' <= c <= 'Z' || 'a' <= c <= 'z' || '0' <= c <= '9' || c == '+' || c == '/'
  }

  /** The 6-bit value of an alphabet character. */
  function Value(c: char): (v: int)
    requires IsAlphabet(c)
    ensures 0 <= v < 64 && Char(v) == c
  {
    if 'A' <= c <= 'Z' then c as int - 'A' as int
    else if 'a' <= c <= 'z' then c as int - 'a' as int + 26
    else if '0' <= c <= '9' then c as int - '0' as int + 52
    else if c == '+' then 62
    else 63
  }

  lemma ValueOfChar(v: int)
    requires 0 <= v < 64
    ensures IsAlphabet(Char(v)) && Value(Char(v)) == v
  {
  }

  /** Three bytes as four characters. */
  function EncodeGroup(b0: byte, b1: byte, b2: byte): (s: string)
    ensures |s| == 4
  {
    [Char(b0 / 4), Char(b0 % 4 * 16 + b1 / 16), Char(b1 % 16 * 4 + b2 / 64), Char(b2 % 64)]
  }

  /** `Base64.getEncoder().encodeToString(b)`. */
  function Encode(b: seq<byte>): (s: string)
    ensures |s| == (|b| + 2) / 3 * 4
  {
    if |b| == 0 then ""
    else if |b| == 1 then [Char(b[0] / 4), Char(b[0] % 4 * 16), '=', '=']
    else if |b| == 2 then [Char(b[0] / 4), Char(b[0] % 4 * 16 + b[1] / 16), Char(b[1] % 16 * 4), '=']
    else EncodeGroup(b[0], b[1], b[2]) + Encode(b[3..])
  }

  /** The first byte carried by the characters with values `v0`, `v1`. */
  function Byte0(v0: int, v1: int): byte
    requires 0 <= v0 < 64 && 0 <= v1 < 64
  {
    v0 * 4 + v1 / 16
  }

  function Byte1(v1: int, v2: int): byte
    requires 0 <= v1 < 64 && 0 <= v2 < 64
  {
    v1 % 16 * 16 + v2 / 4
  }

  function Byte2(v2: int, v3: int): byte
    requires 0 <= v2 < 64 && 0 <= v3 < 64
  {
    v2 % 4 * 64 + v3
  }

  /** Number (at most 3) of leading alphabet characters of `s`. */
  function LeadingAlphabet(s: string): (k: nat)
    ensures k <= 3 && k <= |s|
    ensures forall i :: 0 <= i < k ==> IsAlphabet(s[i])
    ensures k < 3 && k < |s| ==> !IsAlphabet(s[k])
  {
    if |s| > 0 && IsAlphabet(s[0]) then
      if |s| > 1 && IsAlphabet(s[1]) then
        if |s| > 2 && IsAlphabet(s[2]) then 3 else 2
      else 1
    else 0
  }

  /**
   * The last unit of the input: `s` does not start with four alphabet characters.
   * Two or three characters carry one or two bytes, padded or not; a lone character,
   * padding in the wrong place, or anything after the padding is an error.
   */
  function DecodeFinal(s: string): (r: Option<seq<byte>>)
    requires !(|s| >= 4 && IsAlphabet(s[0]) && IsAlphabet(s[1]) && IsAlphabet(s[2]) && IsAlphabet(s[3]))
    ensures r.Some? ==> |r.value| <= 2 && |r.value| <= |s|
  {
    var k := LeadingAlphabet(s);
    if k == |s| || s[k] == '=' then
      if k == 0 then (if |s| == 0 then Some([]) else None)
      else if k == 1 then None
      else if k == 2 then
        (if k == |s| || (|s| == 4 && s[3] == '=') then Some([Byte0(Value(s[0]), Value(s[1]))]) else None)
      else
        (if k == |s| || |s| == 4
         then Some([Byte0(Value(s[0]), Value(s[1])), Byte1(Value(s[1]), Value(s[2]))])
         else None)
    else None
  }

  /** `Base64.getDecoder().decode(s)`; `None` where it throws `IllegalArgumentException`. */
  function Decode(s: string): (r: Option<seq<byte>>)
    ensures r.Some? ==> |r.value| <= |s|
    decreases |s|
  {
    if |s| >= 4 && IsAlphabet(s[0]) && IsAlphabet(s[1]) && IsAlphabet(s[2]) && IsAlphabet(s[3]) then
      var v0, v1, v2, v3 := Value(s[0]), Value(s[1]), Value(s[2]), Value(s[3]);
      match Decode(s[4..])
      case None => None
      case Some(rest) => Some([Byte0(v0, v1), Byte1(v1, v2), Byte2(v2, v3)] + rest)
    else DecodeFinal(s)
  }

  /** The characters of one encoded group give back its bytes. */
  lemma GroupRoundTrip(b0: byte, b1: byte, b2: byte)
    ensures var v0, v1, v2, v3 := b0 / 4, b0 % 4 * 16 + b1 / 16, b1 % 16 * 4 + b2 / 64, b2 % 64;
      0 <= v0 < 64 && 0 <= v1 < 64 && 0 <= v2 < 64 && 0 <= v3 < 64
      && Byte0(v0, v1) == b0 && Byte1(v1, v2) == b1 && Byte2(v2, v3) == b2
  {
  }

  /** The decoder gives back every byte sequence the encoder was given. */
  lemma {:induction false} DecodeEncode(b: seq<byte>)
    ensures Decode(Encode(b)) == Some(b)
    decreases |b|
  {
    if |b| == 1 {
      DecodeEncodeOne(b[0]);
      assert b == [b[0]];
    } else if |b| == 2 {
      DecodeEncodeTwo(b[0], b[1]);
      assert b == [b[0], b[1]];
    } else if |b| >= 3 {
      var tail := b[3..];
      assert b == [b[0], b[1], b[2]] + tail;
      assert Encode(b) == EncodeGroup(b[0], b[1], b[2]) + Encode(tail);
      DecodeEncode(tail);
      DecodeGroup(b[0], b[1], b[2], Encode(tail));
    }
  }

  lemma DecodeEncodeOne(b0: byte)
    ensures Decode(Encode([b0])) == Some([b0])
  {
    var s := Encode([b0]);
    ValueOfChar(b0 / 4);
    ValueOfChar(b0 % 4 * 16);
    GroupRoundTrip(b0, 0, 0);
    assert !IsAlphabet(s[2]) && LeadingAlphabet(s) == 2;
  }

  lemma DecodeEncodeTwo(b0: byte, b1: byte)
    ensures Decode(Encode([b0, b1])) == Some([b0, b1])
  {
    var s := Encode([b0, b1]);
    ValueOfChar(b0 / 4);
    ValueOfChar(b0 % 4 * 16 + b1 / 16);
    ValueOfChar(b1 % 16 * 4);
    GroupRoundTrip(b0, b1, 0);
    assert !IsAlphabet(s[3]) && LeadingAlphabet(s) == 3;
  }

  /** A full group in front of `rest` decodes to its three bytes followed by what `rest` decodes to. */
  lemma DecodeGroup(b0: byte, b1: byte, b2: byte, rest: string)
    ensures Decode(EncodeGroup(b0, b1, b2) + rest) ==
      match Decode(rest)
      case None => None
      case Some(tail) => Some([b0, b1, b2] + tail)
  {
    var s := EncodeGroup(b0, b1, b2) + rest;
    GroupRoundTrip(b0, b1, b2);
    ValueOfChar(b0 / 4);
    ValueOfChar(b0 % 4 * 16 + b1 / 16);
    ValueOfChar(b1 % 16 * 4 + b2 / 64);
    ValueOfChar(b2 % 64);
    assert s[4..] == rest;
  }

  /** Every character of an encoding is in the alphabet or is padding. */
  lemma {:induction false} EncodeAlphabet(b: seq<byte>)
    ensures forall i :: 0 <= i < |Encode(b)| ==> IsAlphabet(Encode(b)[i]) || Encode(b)[i] == '='
    decreases |b|
  {
    if |b| >= 3 {
      EncodeAlphabet(b[3..]);
      var s := Encode(b);
      forall i | 0 <= i < |s| ensures IsAlphabet(s[i]) || s[i] == '=' {
        if i >= 4 {
          assert s[i] == Encode(b[3..])[i - 4];
        }
      }
    }
  }

  /** A character that is neither in the alphabet nor padding makes decoding fail. */
  lemma {:induction false} IllegalCharacterRejected(s: string, i: nat)
    requires i < |s| && !IsAlphabet(s[i]) && s[i] != '='
    ensures Decode(s) == None
    decreases |s|
  {
    if |s| >= 4 && IsAlphabet(s[0]) && IsAlphabet(s[1]) && IsAlphabet(s[2]) && IsAlphabet(s[3]) {
      IllegalCharacterRejected(s[4..], i - 4);
    }
  }

  /** Unpadded input is accepted, so encoding a decoded string need not give it back. */
  lemma UnpaddedAccepted()
    ensures Decode("QQ") == Some([0x41])
    ensures Encode([0x41]) == "QQ=="
  {
    assert LeadingAlphabet("QQ") == 2;
  }
}
