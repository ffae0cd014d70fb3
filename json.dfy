/**
 * JSON values as the Gson tree (`JsonElement`) holds them, with the coercions
 * `getAsInt`, `getAsString` and `getAsBoolean` the bridge applies to request fields.
 * An object keeps its members in insertion order, as `JsonObject` does.
 */
module Json {
  import opened Wrappers
  import opened Text

  datatype JsonValue =
    | JNull
    | JBool(b: bool)
    | JNumber(n: int)
    | JString(s: string)
    | JArray(elements: seq<JsonValue>)
    | JObject(members: seq<Member>)

  datatype Member = Member(name: string, value: JsonValue)

  /** `object.has(name)`. */
  predicate Has(members: seq<Member>, name: string) {
    exists i :: 0 <= i < |members| && members[i].name == name
  }

  /** `object.get(name)`: the value bound last to `name`, `None` where Gson returns null. */
  function Get(members: seq<Member>, name: string): (r: Option<JsonValue>)
    ensures r.Some? <==> Has(members, name)
    ensures r.Some? ==> Member(name, r.value) in members
  {
    if members == [] then None
    else
      var last := members[|members| - 1];
      if last.name == name then Some(last.value)
      else
        var r := Get(members[..|members| - 1], name);
        assert forall i :: 0 <= i < |members| - 1 ==> members[..|members| - 1][i] == members[i];
        r
  }

  /** A member added at the end takes over its name and hides no other. */
  lemma GetAppend(members: seq<Member>, m: Member, name: string)
    ensures Get(members + [m], name) == if m.name == name then Some(m.value) else Get(members, name)
  {
    assert (members + [m])[..|members|] == members;
  }

  /** `Number.intValue()` of an integral number: its low 32 bits, as a signed value. */
  function WrapInt32(n: int): (r: int)
    ensures INT_MIN <= r <= INT_MAX
    ensures INT_MIN <= n <= INT_MAX ==> r == n
    ensures (r - n) % 0x1_0000_0000 == 0
  {
    (n - INT_MIN) % 0x1_0000_0000 + INT_MIN
  }

  /** `Boolean.parseBoolean(s)`: `"true"` in any mix of (ASCII) letter case. */
  predicate ParseBoolean(s: string) {
    |s| == 4 && (s[0] == 't' || s[0] == 'T') && (s[1] == 'r' || s[1] == 'R')
    && (s[2] == 'u' || s[2] == 'U') && (s[3] == 'e' || s[3] == 'E')
  }

  /** `element.getAsString()`; `None` where Gson throws. */
  function AsString(v: JsonValue): Option<string> {
    match v
    case JString(s) => Some(s)
    case JNumber(n) => Some(IntToString(n))
    case JBool(b) => Some(if b then "true" else "false")
    case JArray(elements) => if |elements| == 1 then AsString(elements[0]) else None
    case _ => None
  }

  /** `element.getAsInt()`; `None` where Gson throws. */
  function AsInt(v: JsonValue): (r: Option<int>)
    ensures r.Some? ==> INT_MIN <= r.value <= INT_MAX
  {
    match v
    case JNumber(n) => Some(WrapInt32(n))
    case JString(s) => ParseInt(s)
    case JBool(b) => ParseInt(if b then "true" else "false")
    case JArray(elements) => if |elements| == 1 then AsInt(elements[0]) else None
    case _ => None
  }

  /** `element.getAsBoolean()`; `None` where Gson throws. */
  function AsBoolean(v: JsonValue): Option<bool> {
    match v
    case JBool(b) => Some(b)
    case JString(s) => Some(ParseBoolean(s))
    case JNumber(n) => Some(ParseBoolean(IntToString(n)))
    case JArray(elements) => if |elements| == 1 then AsBoolean(elements[0]) else None
    case _ => None
  }

  /** A string, a JSON number in range and a boolean each read back as what they hold. */
  lemma CoercionsOfOwnKind(s: string, n: int, b: bool)
    requires INT_MIN <= n <= INT_MAX
    ensures AsString(JString(s)) == Some(s)
    ensures AsInt(JNumber(n)) == Some(n)
    ensures AsInt(JString(IntToString(n))) == Some(n)
    ensures AsBoolean(JBool(b)) == Some(b)
  {
    IntToStringParses(n);
  }
}
