/**
 * One webhook call of the distribution engine (`GroupManagers.distributeWilcardMessage`):
 * the URL made from the configured template and the JSON body made from the message.
 */
module Webhooks {
  import opened Wrappers
  import opened Text
  import opened Json
  import UrlEncoding
  import opened EventMessages
  import opened Subscriptions

  const SUBSCRIPTION: string := "{{subscription}}"
  const DECODED_SUBSCRIPTION: string := "{{decodedsubscription}}"

  /**
   * The URL of the call for the table key `key`: every `{{subscription}}` of the template
   * becomes the URL-encoded key, then every `{{decodedsubscription}}` the key as it is.
   */
  function WebhookUrl(template: string, key: string): string {
    Replace(Replace(template, SUBSCRIPTION, UrlEncoding.Encode(key)), DECODED_SUBSCRIPTION, key)
  }

  /** Text without braces holds no placeholder and is left alone. */
  lemma NoBraceUnchanged(s: string, p: string, r: string)
    requires |p| > 0 && p[0] == '{' && '{' !in s
    ensures Replace(s, p, r) == s
  {
    AbsentFirstChar(s, p);
    ReplaceAbsent(s, p, r);
  }

  /** Around a `{{subscription}}` placeholder the key is inserted URL-encoded. */
  lemma EncodedPlaceholder(before: string, after: string, key: string)
    requires '{' !in before && '{' !in after
    ensures WebhookUrl(before + SUBSCRIPTION + after, key) == before + UrlEncoding.Encode(key) + after
  {
    var e := UrlEncoding.Encode(key);
    ReplaceFirst(before, SUBSCRIPTION, after, e);
    NoBraceUnchanged(after, SUBSCRIPTION, e);
    forall i | 0 <= i < |e| ensures e[i] != '{' {
      assert UrlEncoding.EncodedChar(e[i]);
    }
    NoBraceUnchanged(before + e + after, DECODED_SUBSCRIPTION, key);
  }

  /** Around a `{{decodedsubscription}}` placeholder the key is inserted as it is. */
  lemma DecodedPlaceholder(before: string, after: string, key: string)
    requires '{' !in before && '{' !in after
    ensures WebhookUrl(before + DECODED_SUBSCRIPTION + after, key) == before + key + after
  {
    var s := before + DECODED_SUBSCRIPTION + after;
    var n := |before|;
    forall i: nat | i < |s| ensures !OccursAt(s, SUBSCRIPTION, i) {
      if i + |SUBSCRIPTION| <= |s| {
        var w := s[i..i + |SUBSCRIPTION|];
        if i < n {
          assert w[0] == before[i] != SUBSCRIPTION[0];
        } else if i == n {
          assert w[2] == s[n + 2] == DECODED_SUBSCRIPTION[2] == 'd' != SUBSCRIPTION[2];
        } else if i == n + 1 {
          assert w[1] == s[n + 2] == DECODED_SUBSCRIPTION[2] == 'd' != SUBSCRIPTION[1];
        } else if i < n + |DECODED_SUBSCRIPTION| {
          assert w[0] == DECODED_SUBSCRIPTION[i - n] != SUBSCRIPTION[0];
        } else {
          assert w[0] == after[i - n - |DECODED_SUBSCRIPTION|] != SUBSCRIPTION[0];
        }
      }
    }
    ReplaceAbsent(s, SUBSCRIPTION, UrlEncoding.Encode(key));
    ReplaceFirst(before, DECODED_SUBSCRIPTION, after, key);
    NoBraceUnchanged(after, DECODED_SUBSCRIPTION, key);
  }

  /** A URL template cut into its literal text and its two kinds of placeholder. */
  datatype Piece = Literal(text: string) | EncodedKey | DecodedKey

  /** The literal pieces hold no brace, so the only placeholders are the marked ones. */
  predicate BraceFree(t: seq<Piece>) {
    forall i :: 0 <= i < |t| ==> t[i].Literal? ==> '{' !in t[i].text
  }

  /** The pieces written out, with `encoded` and `decoded` standing for the two placeholders. */
  function Render(t: seq<Piece>, encoded: string, decoded: string): string {
    if t == [] then ""
    else
      (match t[0]
         case Literal(text) => text
         case EncodedKey => encoded
         case DecodedKey => decoded)
      + Render(t[1..], encoded, decoded)
  }

  /** The first two characters of `{{decodedsubscription}}` start no `{{subscription}}`, and the rest has no brace. */
  lemma DecodedShape()
    ensures |DECODED_SUBSCRIPTION| >= 3 && |SUBSCRIPTION| >= 3 && DECODED_SUBSCRIPTION[2] != SUBSCRIPTION[2]
    ensures DECODED_SUBSCRIPTION[2] != SUBSCRIPTION[1] && '{' !in DECODED_SUBSCRIPTION[2..]
  {
    assert DECODED_SUBSCRIPTION[2..] == "decodedsubscription}}";
  }

  /** A first character that does not begin an occurrence is kept. */
  lemma ReplaceSkip(c: char, s: string, p: string, r: string)
    requires |p| > 0 && (|p| <= 1 + |s| ==> ([c] + s)[..|p|] != p)
    ensures Replace([c] + s, p, r) == [c] + Replace(s, p, r)
  {
  }

  /**
   * Text whose first two characters begin no occurrence of `p`, and whose remainder has
   * no first character of `p`, is kept in front of the replaced rest.
   */
  lemma SkipPrefix(d: string, rest: string, p: string, r: string)
    requires |p| >= 3 && |d| >= 3 && d[2] != p[2] && d[2] != p[1] && p[0] !in d[2..]
    ensures Replace(d + rest, p, r) == d + Replace(rest, p, r)
  {
    var s1 := d[1..] + rest;
    var s2 := d[2..] + rest;
    assert Replace(d + rest, p, r) == [d[0]] + Replace(s1, p, r) by {
      var s := d + rest;
      assert s == [d[0]] + s1;
      if |p| <= |s| {
        assert s[..|p|][2] == d[2];
      }
      ReplaceSkip(d[0], s1, p, r);
    }
    assert Replace(s1, p, r) == [d[1]] + Replace(s2, p, r) by {
      assert s1 == [d[1]] + s2;
      if |p| <= |s1| {
        assert s1[..|p|][1] == d[2];
      }
      ReplaceSkip(d[1], s2, p, r);
    }
    ReplacePrefix(d[2..], rest, p, r);
    assert d == [d[0]] + [d[1]] + d[2..];
  }

  /** Scanning for `{{subscription}}` skips over a `{{decodedsubscription}}`. */
  lemma DecodedSkipped(rest: string, e: string)
    ensures Replace(DECODED_SUBSCRIPTION + rest, SUBSCRIPTION, e) == DECODED_SUBSCRIPTION + Replace(rest, SUBSCRIPTION, e)
  {
    DecodedShape();
    SkipPrefix(DECODED_SUBSCRIPTION, rest, SUBSCRIPTION, e);
  }

  /** The first pass turns each `{{subscription}}` into `e` and leaves the rest as written. */
  lemma {:induction false} EncodedPass(t: seq<Piece>, e: string)
    requires BraceFree(t) && '{' !in e
    ensures Replace(Render(t, SUBSCRIPTION, DECODED_SUBSCRIPTION), SUBSCRIPTION, e) == Render(t, e, DECODED_SUBSCRIPTION)
    decreases |t|
  {
    if t != [] {
      var rest := Render(t[1..], SUBSCRIPTION, DECODED_SUBSCRIPTION);
      assert BraceFree(t[1..]) by {
        forall i | 0 <= i < |t[1..]| ensures t[1..][i] == t[i + 1] { }
      }
      EncodedPass(t[1..], e);
      match t[0]
      case Literal(text) =>
        ReplacePrefix(text, rest, SUBSCRIPTION, e);
      case EncodedKey =>
        assert [] + SUBSCRIPTION + rest == SUBSCRIPTION + rest;
        ReplaceFirst([], SUBSCRIPTION, rest, e);
      case DecodedKey =>
        DecodedSkipped(rest, e);
    }
  }

  /** The second pass turns each `{{decodedsubscription}}` into `key`. */
  lemma {:induction false} DecodedPass(t: seq<Piece>, e: string, key: string)
    requires BraceFree(t) && '{' !in e
    ensures Replace(Render(t, e, DECODED_SUBSCRIPTION), DECODED_SUBSCRIPTION, key) == Render(t, e, key)
    decreases |t|
  {
    if t != [] {
      var rest := Render(t[1..], e, DECODED_SUBSCRIPTION);
      assert BraceFree(t[1..]) by {
        forall i | 0 <= i < |t[1..]| ensures t[1..][i] == t[i + 1] { }
      }
      DecodedPass(t[1..], e, key);
      match t[0]
      case Literal(text) =>
        ReplacePrefix(text, rest, DECODED_SUBSCRIPTION, key);
      case EncodedKey =>
        ReplacePrefix(e, rest, DECODED_SUBSCRIPTION, key);
      case DecodedKey =>
        assert [] + DECODED_SUBSCRIPTION + rest == DECODED_SUBSCRIPTION + rest;
        ReplaceFirst([], DECODED_SUBSCRIPTION, rest, key);
    }
  }

  /**
   * Any template, with any number of either placeholder in any order: each
   * `{{subscription}}` becomes the URL-encoded key, each `{{decodedsubscription}}`
   * the key as it is, and the literal text stays.
   */
  lemma TemplateFilled(t: seq<Piece>, key: string)
    requires BraceFree(t)
    ensures WebhookUrl(Render(t, SUBSCRIPTION, DECODED_SUBSCRIPTION), key) == Render(t, UrlEncoding.Encode(key), key)
  {
    var e := UrlEncoding.Encode(key);
    forall i | 0 <= i < |e| ensures e[i] != '{' {
      assert UrlEncoding.EncodedChar(e[i]);
    }
    EncodedPass(t, e);
    DecodedPass(t, e, key);
  }

  /** The five-piece template `a`, encoded key, `b`, decoded key, `c`, written out. */
  lemma RenderFive(a: string, b: string, c: string, x: string, y: string)
    ensures Render([Literal(a), EncodedKey, Literal(b), DecodedKey, Literal(c)], x, y) == a + x + b + y + c
  {
    var t := [Literal(a), EncodedKey, Literal(b), DecodedKey, Literal(c)];
    assert t[1..][1..][1..][1..][1..] == [];
    assert Render(t[1..][1..][1..][1..], x, y) == c;
    assert Render(t[1..][1..][1..], x, y) == y + c;
    assert Render(t[1..][1..], x, y) == b + y + c;
    assert Render(t[1..], x, y) == x + b + y + c;
  }

  /** Both placeholders in one template, as in `.../{{subscription}}?name={{decodedsubscription}}`. */
  lemma BothPlaceholders(a: string, b: string, c: string, key: string)
    requires '{' !in a && '{' !in b && '{' !in c
    ensures WebhookUrl(a + SUBSCRIPTION + b + DECODED_SUBSCRIPTION + c, key)
         == a + UrlEncoding.Encode(key) + b + key + c
  {
    var t := [Literal(a), EncodedKey, Literal(b), DecodedKey, Literal(c)];
    RenderFive(a, b, c, SUBSCRIPTION, DECODED_SUBSCRIPTION);
    RenderFive(a, b, c, UrlEncoding.Encode(key), key);
    TemplateFilled(t, key);
  }

  /** A template holding neither placeholder is the URL of every call. */
  lemma FixedUrl(template: string, key: string)
    requires forall i: nat :: i < |template| ==> !OccursAt(template, SUBSCRIPTION, i)
    requires forall i: nat :: i < |template| ==> !OccursAt(template, DECODED_SUBSCRIPTION, i)
    ensures WebhookUrl(template, key) == template
  {
    ReplaceAbsent(template, SUBSCRIPTION, UrlEncoding.Encode(key));
    ReplaceAbsent(template, DECODED_SUBSCRIPTION, key);
  }

  /** The names a webhook body may hold. */
  predicate BodyName(name: string) {
    name == "topic" || name == "message" || name == "qos" || name == "retained"
  }

  /**
   * The JSON body: `topic` is the topic the message arrived on (not the pattern),
   * `message` is the payload in the matched subscription's format, `qos` is present only
   * when above 0, and `retained` is present, as `true`, only for a retained message.
   */
  function WebhookBody(message: EventMessage, format: int): (body: seq<Member>)
  {
    Fields(message.topic, FormatMessage(message.message, format), message.qos, message.retained)
  }

  /** The members in the order they are added. */
  function Fields(topic: string, text: string, qos: int, retained: bool): seq<Member> {
    var body := [Member("topic", JString(topic)), Member("message", JString(text))];
    var body := if qos > 0 then body + [Member("qos", JNumber(qos))] else body;
    if retained then body + [Member("retained", JBool(true))] else body
  }

  /**
   * A body holds `topic` and `message` first, then at most `qos` and `retained`, nothing
   * else, and no name twice.
   */
  lemma FieldsShape(topic: string, text: string, qos: int, retained: bool)
    ensures var body := Fields(topic, text, qos, retained);
      2 <= |body| <= 4 &&
      body[0] == Member("topic", JString(topic)) &&
      body[1] == Member("message", JString(text)) &&
      (forall i :: 0 <= i < |body| ==> BodyName(body[i].name)) &&
      (forall i :: 2 <= i < |body| ==> body[i].name == "qos" || body[i].name == "retained") &&
      (forall i, j :: 0 <= i < j < |body| ==> body[i].name != body[j].name)
  {
  }

  /**
   * Looking up a body: `topic` and `message` as given, `qos` only when above 0, `retained`
   * only when set and then `true`.
   */
  lemma {:induction false} FieldsLookup(topic: string, text: string, qos: int, retained: bool)
    ensures var body := Fields(topic, text, qos, retained);
      Get(body, "topic") == Some(JString(topic)) &&
      Get(body, "message") == Some(JString(text)) &&
      Get(body, "qos") == (if qos > 0 then Some(JNumber(qos)) else None) &&
      Get(body, "retained") == (if retained then Some(JBool(true)) else None)
  {
    var t := Member("topic", JString(topic));
    var m := Member("message", JString(text));
    var q := Member("qos", JNumber(qos));
    var r := Member("retained", JBool(true));
    assert "topic"[0] == 't' && "message"[0] == 'm' && "qos"[0] == 'q' && "retained"[0] == 'r';
    assert [] + [t] == [t] && [t] + [m] == [t, m];
    var two := [t, m];
    GetAppend([], t, "topic");
    GetAppend([t], m, "topic");
    GetAppend([t], m, "message");
    assert Get(two, "qos") == None && Get(two, "retained") == None;
    var three := two;
    if qos > 0 {
      three := two + [q];
      GetAppend(two, q, "topic");
      GetAppend(two, q, "message");
      GetAppend(two, q, "qos");
      GetAppend(two, q, "retained");
    }
    if retained {
      GetAppend(three, r, "topic");
      GetAppend(three, r, "message");
      GetAppend(three, r, "qos");
      GetAppend(three, r, "retained");
    }
  }

  /**
   * The webhook body: `topic` is the topic the message arrived on (not the pattern), `message`
   * the payload in the matched subscription's format, `qos` present only when above 0, and
   * `retained` present, as `true`, only for a retained message.
   */
  lemma BodyFields(message: EventMessage, format: int)
    ensures var body := WebhookBody(message, format);
      Get(body, "topic") == Some(JString(message.topic)) &&
      Get(body, "message") == Some(JString(FormatMessage(message.message, format))) &&
      Get(body, "qos") == (if message.qos > 0 then Some(JNumber(message.qos)) else None) &&
      Get(body, "retained") == (if message.retained then Some(JBool(true)) else None) &&
      forall i :: 0 <= i < |body| ==> BodyName(body[i].name)
  {
    FieldsShape(message.topic, FormatMessage(message.message, format), message.qos, message.retained);
    FieldsLookup(message.topic, FormatMessage(message.message, format), message.qos, message.retained);
  }

  /** An HTTP POST of a JSON body. */
  datatype Post = Post(url: string, body: seq<Member>)

  /** The call made for the table key `key` when its subscription has the format `format`. */
  function PostFor(template: string, key: string, message: EventMessage, format: int): Post {
    Post(WebhookUrl(template, key), WebhookBody(message, format))
  }

  /**
   * What the HTTP client reports for one call: a response with its status code (success or
   * not, it is only logged), an `IOException` (logged and swallowed), or an unchecked
   * exception such as the `IllegalArgumentException` of a malformed URL, which propagates
   * out of `distributeMessage`.
   */
  datatype Outcome = Response(code: int) | IoFailure | Unchecked
}
