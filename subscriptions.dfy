/**
 * A configured subscription and the payload codec: how the text of an HTTP request
 * becomes payload bytes (`ParseMessage`) and how payload bytes become the text of a
 * webhook body (`FormatMessage`).
 */
module Subscriptions {
  import opened Wrappers
  import opened Text
  import Utf8
  import Base64

  const PLAIN: int := 0
  const FORMAT_BASE64: int := 1

  /** A subscription: an operator-facing name, the literal topic pattern, the payload format and the QoS. */
  datatype SubscriptionDefinition = SubscriptionDefinition(name: string, topic: string, format: int, qos: int)

  /**
   * `parseMessage`: a `plain:` prefix is dropped and the rest encoded as UTF-8, checked
   * before a `base64:` prefix, whose remainder is Base64-decoded; any other text is
   * encoded as UTF-8 whole.  `None` where the Base64 decoder throws.
   */
  function ParseMessage(message: string): (r: Option<seq<Utf8.byte>>)
    ensures r.None? <==>
      !StartsWith(message, "plain:") && StartsWith(message, "base64:") && Base64.Decode(message[7..]).None?
    ensures StartsWith(message, "plain:") ==>
      r.Some? && Utf8.WellFormed(r.value) && Utf8.Decode(r.value) == message[6..]
    ensures !StartsWith(message, "plain:") && !StartsWith(message, "base64:") ==>
      r.Some? && Utf8.WellFormed(r.value) && Utf8.Decode(r.value) == message
    ensures !StartsWith(message, "plain:") && StartsWith(message, "base64:") ==>
      r == Base64.Decode(message[7..]) && (r.Some? ==> |r.value| <= |message| - 7)
  {
    if StartsWith(message, "plain:") then
      Utf8.DecodeEncode(message[6..]);
      Utf8.EncodeIsWellFormed(message[6..]);
      Some(Utf8.Encode(message[6..]))
    else if StartsWith(message, "base64:") then
      Base64.Decode(message[7..])
    else
      Utf8.DecodeEncode(message);
      Utf8.EncodeIsWellFormed(message);
      Some(Utf8.Encode(message))
  }

  /** The text-carrying forms give exactly the UTF-8 encoding of their text. */
  lemma ParsedTextIsEncoding(message: string)
    requires !StartsWith(message, "base64:") || StartsWith(message, "plain:")
    ensures StartsWith(message, "plain:") ==> ParseMessage(message) == Some(Utf8.Encode(message[6..]))
    ensures !StartsWith(message, "plain:") ==> ParseMessage(message) == Some(Utf8.Encode(message))
  {
    var b := ParseMessage(message).value;
    Utf8.EncodeDecode(b);
  }

  /**
   * `formatMessage`: format 1 gives `base64:` and the Base64 text of the bytes; every other
   * format gives the bytes read as UTF-8, which encodes back to them exactly when they are
   * well-formed.
   */
  function FormatMessage(message: seq<Utf8.byte>, format: int): (r: string)
    ensures format == FORMAT_BASE64 ==> r == "base64:" + Base64.Encode(message)
    ensures format == FORMAT_BASE64 ==> StartsWith(r, "base64:") && Base64.Decode(r[7..]) == Some(message)
    ensures format != FORMAT_BASE64 ==> (Utf8.Encode(r) == message <==> Utf8.WellFormed(message))
  {
    if format == FORMAT_BASE64 then
      Base64.DecodeEncode(message);
      assert ("base64:" + Base64.Encode(message))[7..] == Base64.Encode(message);
      "base64:" + Base64.Encode(message)
    else
      Utf8.EncodeDecode(message);
      Utf8.Decode(message)
  }

  /** Every payload survives the Base64 format and the parser. */
  lemma FormatBase64RoundTrip(b: seq<Utf8.byte>)
    ensures ParseMessage(FormatMessage(b, FORMAT_BASE64)) == Some(b)
  {
    var s := FormatMessage(b, FORMAT_BASE64);
    assert s[0] == 'b';
  }

  /**
   * The plain formats survive the parser exactly when the payload is well-formed UTF-8
   * and its text does not begin with one of the two prefixes the parser interprets.
   */
  lemma FormatPlainRoundTrip(b: seq<Utf8.byte>, format: int)
    requires format != FORMAT_BASE64
    ensures var t := Utf8.Decode(b);
      ParseMessage(FormatMessage(b, format)) == Some(b) <==>
      Utf8.WellFormed(b) && !StartsWith(t, "plain:") && !StartsWith(t, "base64:")
  {
    var t := Utf8.Decode(b);
    assert FormatMessage(b, format) == t;
    Utf8.EncodeDecode(b);
    if StartsWith(t, "plain:") {
      var r := Utf8.Encode(t[6..]);
      if Utf8.WellFormed(b) {
        Utf8.EncodeAppend(t[..6], t[6..]);
        assert t == t[..6] + t[6..];
        assert |b| >= 6 + |r|;
      } else {
        Utf8.EncodeIsWellFormed(t[6..]);
      }
    }
  }

  /** A payload whose text starts with `plain:` loses that prefix on the way back. */
  lemma PlainPrefixLost()
    ensures ParseMessage(FormatMessage(Utf8.Encode("plain:x"), PLAIN)) == Some(Utf8.Encode("x"))
  {
    Utf8.DecodeEncode("plain:x");
    assert "plain:x"[6..] == "x";
  }

  /** Text without a prefix, and text after `plain:`, come back from the plain format. */
  lemma ParseThenFormatPlain(s: string)
    requires !StartsWith(s, "base64:")
    ensures StartsWith(s, "plain:") ==> FormatMessage(ParseMessage(s).value, PLAIN) == s[6..]
    ensures !StartsWith(s, "plain:") ==> FormatMessage(ParseMessage(s).value, PLAIN) == s
  {
    if StartsWith(s, "plain:") {
      Utf8.DecodeEncode(s[6..]);
    } else {
      Utf8.DecodeEncode(s);
    }
  }

  /** The payload `on` in both formats. */
  lemma OnFormatted()
    ensures FormatMessage([0x6f, 0x6e], PLAIN) == "on"
    ensures FormatMessage([0x6f, 0x6e], FORMAT_BASE64) == "base64:b24="
  {
    var on: seq<Utf8.byte> := [0x6f, 0x6e];
    assert Utf8.Encode("on") == on by {
      assert "on"[1..] == "n" && "n"[1..] == "";
    }
    assert Utf8.Decode(on) == "on" by {
      Utf8.DecodeEncode("on");
    }
    assert Base64.Encode(on) == "b24=";
  }
}
