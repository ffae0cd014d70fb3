/** `java.net.URLEncoder.encode(s, "UTF-8")`: the form encoding of a string. */
module UrlEncoding {
  import Utf8

  /** Characters the encoder leaves as they are. */
  predicate Unreserved(c: char) {
    'a' <= c <= 'z' || 'A' <= c <= 'Z' || '0' <= c <= '9' || c == '-' || c == '_' || c == '.' || c == '*'
  }

  /** Characters that can appear in an encoded string. */
  predicate EncodedChar(c: char) {
    Unreserved(c) || c == '+' || c == '%'
  }

  /** Upper-case hexadecimal digit. */
  function HexDigit(v: int): (c: char)
    requires 0 <= v < 16
    ensures Unreserved(c)
  {
    if v < 10 then ('0' as int + v) as char else ('A' as int + v - 10) as char
  }

  /** `%XY` for each byte. */
  function PercentEscape(b: seq<Utf8.byte>): (s: string)
    ensures |s| == 3 * |b|
    ensures forall i :: 0 <= i < |s| ==> EncodedChar(s[i])
  {
    if b == [] then [] else ['%', HexDigit(b[0] / 16), HexDigit(b[0] % 16)] + PercentEscape(b[1..])
  }

  function EncodeChar(c: char): (s: string)
    ensures |s| >= 1
    ensures forall i :: 0 <= i < |s| ==> EncodedChar(s[i])
  {
    if Unreserved(c) then [c]
    else if c == ' ' then "+"
    else PercentEscape(Utf8.EncodeChar(c))
  }

  /**
   * `URLEncoder.encode(s, "UTF-8")`.  The result uses only unreserved characters,
   * `+` and `%`; in particular it never contains a brace.
   */
  function Encode(s: string): (e: string)
    ensures |e| >= |s|
    ensures forall i :: 0 <= i < |e| ==> EncodedChar(e[i])
  {
    if s == [] then [] else EncodeChar(s[0]) + Encode(s[1..])
  }

  /** A string made of unreserved characters is its own encoding. */
  lemma {:induction false} EncodeUnreserved(s: string)
    requires forall i :: 0 <= i < |s| ==> Unreserved(s[i])
    ensures Encode(s) == s
  {
    if s != [] {
      EncodeUnreserved(s[1..]);
    }
  }

  /** The two separators of wildcard keys are escaped. */
  lemma EncodeWildcardKey()
    ensures Encode("a/#") == "a%2F%23"
  {
    assert Encode("#") == "%23";
    assert Encode("/#") == "%2F%23";
  }
}
