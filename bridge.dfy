/**
 * The decisions the bridge's entry point makes: the MQTT client settings it derives from
 * the configuration properties, the HTTP settings, the Basic authentication filter that
 * runs before every route, and the reply of the POST route that publishes a message.
 * The properties file, the HTTP server, Gson's parser and the MQTT client are outside:
 * the configuration is a map, the parsed body a value and the broker a function.
 */
module Bridge {
  import opened Wrappers
  import opened Text
  import opened Json
  import Utf8
  import Base64
  import Probes
  import Subscriptions
  import EventMessages
  import Webhooks

  /** The configuration properties, by name. */
  type Config = map<string, string>

  /** `config.getProperty(key, default)`. */
  function GetProperty(config: Config, key: string, default: string): string {
    if key in config then config[key] else default
  }

  // ----- The MQTT client settings -----

  /** The URL scheme for a transport: WebSocket or plain TCP, each with or without TLS. */
  function Scheme(websockets: bool, ssl: bool): string {
    if websockets then (if ssl then "wss" else "ws") else (if ssl then "ssl" else "tcp")
  }

  /** Where the broker is: the two transport switches, the host and the port. */
  datatype Endpoint = Endpoint(websockets: bool, ssl: bool, host: string, port: int)

  /** The broker endpoint the configuration names; `None` where the port does not parse. */
  function EndpointOf(config: Config): (r: Option<Endpoint>)
    ensures r.Some? <==> ParseInt(GetProperty(config, "mqtt.port", "1883")).Some?
    ensures r.Some? ==> INT_MIN <= r.value.port <= INT_MAX
  {
    var host := GetProperty(config, "mqtt.host", "localhost");
    var port := ParseInt(GetProperty(config, "mqtt.port", "1883"));
    if port.None? then None
    else
      var websockets := ParseBoolean(GetProperty(config, "mqtt.websockets", "false"));
      var ssl := ParseBoolean(GetProperty(config, "mqtt.ssl", "false"));
      Some(Endpoint(websockets, ssl, host, port.value))
  }

  /** The broker URL: the scheme, `://`, the host, `:` and the port in decimal. */
  function BrokerUrl(e: Endpoint): string {
    Scheme(e.websockets, e.ssl) + "://" + e.host + ":" + IntToString(e.port)
  }

  /** The transport switches a URL's scheme stands for. */
  function SchemeOfUrl(url: string): (r: Option<(bool, bool)>)
    ensures r.Some? ==> StartsWith(url, Scheme(r.value.0, r.value.1) + "://")
  {
    if StartsWith(url, "tcp://") then Some((false, false))
    else if StartsWith(url, "ssl://") then Some((false, true))
    else if StartsWith(url, "ws://") then Some((true, false))
    else if StartsWith(url, "wss://") then Some((true, true))
    else None
  }

  /** Reads a broker URL back: the scheme in front of `://`, the port after the last `:`. */
  function ParseBrokerUrl(url: string): Option<Endpoint> {
    match SchemeOfUrl(url)
    case None => None
    case Some((websockets, ssl)) => ParseAuthority(websockets, ssl, url[|Scheme(websockets, ssl)| + 3..])
  }

  /** The host and the port after `://`: they are split at the last `:`. */
  function ParseAuthority(websockets: bool, ssl: bool, authority: string): Option<Endpoint> {
    var colon := Probes.LastIndexOf(authority, ':', |authority| - 1);
    if colon < 0 then None
    else
      match ParseInt(authority[colon + 1..])
      case None => None
      case Some(port) => Some(Endpoint(websockets, ssl, authority[..colon], port))
  }

  /** A printed integer holds no colon. */
  lemma NumeralHasNoColon(n: int)
    ensures ':' !in IntToString(n)
  {
    var s := IntToString(n);
    if n < 0 {
      assert s == "-" + NatToString(-n);
      forall i | 0 <= i < |s| ensures s[i] != ':' {
        if i > 0 {
          assert s[i] == NatToString(-n)[i - 1];
        }
      }
    } else {
      forall i | 0 <= i < |s| ensures s[i] != ':' {
        assert IsDigit(s[i]);
      }
    }
  }

  /** The last colon of `a + ":" + b` is the one in the middle when `b` has none. */
  lemma LastColon(a: string, b: string)
    requires ':' !in b
    ensures var s := a + ":" + b; Probes.LastIndexOf(s, ':', |s| - 1) == |a|
  {
    var s := a + ":" + b;
    var i := Probes.LastIndexOf(s, ':', |s| - 1);
    assert s[|a|] == ':';
    forall j | |a| < j < |s| ensures s[j] != ':' {
      assert s[j] == b[j - |a| - 1];
    }
  }

  /** The scheme tests of `SchemeOfUrl` pick out the scheme a URL was built with. */
  lemma SchemeRecognised(websockets: bool, ssl: bool, rest: string)
    ensures SchemeOfUrl(Scheme(websockets, ssl) + "://" + rest) == Some((websockets, ssl))
  {
    var url := Scheme(websockets, ssl) + "://" + rest;
    var prefix := Scheme(websockets, ssl) + "://";
    assert url[..|prefix|] == prefix;
    assert url[0] == prefix[0] && url[1] == prefix[1] && url[2] == prefix[2];
  }

  /** A URL assembled from a scheme, a host and a colon-free port text reads back as its parts. */
  lemma ParseAssembled(websockets: bool, ssl: bool, host: string, digits: string)
    requires ':' !in digits
    ensures var url := Scheme(websockets, ssl) + "://" + host + ":" + digits;
      var port := ParseInt(digits);
      ParseBrokerUrl(url) == if port.None? then None else Some(Endpoint(websockets, ssl, host, port.value))
  {
    var prefix := Scheme(websockets, ssl) + "://";
    var authority := host + ":" + digits;
    var url := prefix + host + ":" + digits;
    assert url == prefix + authority;
    assert SchemeOfUrl(url) == Some((websockets, ssl)) by {
      SchemeRecognised(websockets, ssl, authority);
    }
    assert url[|prefix|..] == authority;
    AuthorityParses(websockets, ssl, host, digits);
  }

  /** The authority `host:digits` splits back into the host and the parsed digits. */
  lemma AuthorityParses(websockets: bool, ssl: bool, host: string, digits: string)
    requires ':' !in digits
    ensures var port := ParseInt(digits);
      ParseAuthority(websockets, ssl, host + ":" + digits) ==
        if port.None? then None else Some(Endpoint(websockets, ssl, host, port.value))
  {
    var authority := host + ":" + digits;
    LastColon(host, digits);
    assert authority[|host| + 1..] == digits && authority[..|host|] == host;
  }

  /** The broker URL keeps the whole endpoint: reading it back gives the endpoint. */
  lemma BrokerUrlParses(e: Endpoint)
    requires INT_MIN <= e.port <= INT_MAX
    ensures ParseBrokerUrl(BrokerUrl(e)) == Some(e)
  {
    NumeralHasNoColon(e.port);
    ParseAssembled(e.websockets, e.ssl, e.host, IntToString(e.port));
    IntToStringParses(e.port);
  }

  /** A broker URL's scheme is a TLS one exactly when the SSL switch is on. */
  lemma TlsScheme(e: Endpoint)
    ensures StartsWith(BrokerUrl(e), "ssl://") || StartsWith(BrokerUrl(e), "wss://") <==> e.ssl
  {
    var url := BrokerUrl(e);
    var prefix := Scheme(e.websockets, e.ssl) + "://";
    assert url[..|prefix|] == prefix;
    assert url[0] == prefix[0] && url[2] == prefix[2];
  }

  /** The SSL property names the MQTT client reads. */
  const SSL_PROTOCOL := "com.ibm.ssl.protocol"
  const SSL_KEY_STORE := "com.ibm.ssl.keyStore"
  const SSL_KEY_STORE_PASSWORD := "com.ibm.ssl.keyStorePassword"
  const SSL_KEY_STORE_TYPE := "com.ibm.ssl.keyStoreType"
  const SSL_TRUST_STORE := "com.ibm.ssl.trustStore"
  const SSL_TRUST_STORE_PASSWORD := "com.ibm.ssl.trustStorePassword"
  const SSL_TRUST_STORE_TYPE := "com.ibm.ssl.trustStoreType"

  /**
   * The SSL properties of a TLS connection: the protocol always, a key store and a trust
   * store each with its password and the type `JKS`, when its file is configured.
   */
  function SslProperties(config: Config): map<string, string> {
    var protocol := map[SSL_PROTOCOL := GetProperty(config, "mqtt.protocol", "TLSv1.2")];
    var keyStore := GetProperty(config, "mqtt.keystore", "");
    var withKeys :=
      if keyStore == "" then protocol
      else protocol[SSL_KEY_STORE := keyStore]
                   [SSL_KEY_STORE_PASSWORD := GetProperty(config, "mqtt.keystorepassword", "")]
                   [SSL_KEY_STORE_TYPE := "JKS"];
    var trustStore := GetProperty(config, "mqtt.truststore", "");
    if trustStore == "" then withKeys
    else withKeys[SSL_TRUST_STORE := trustStore]
                 [SSL_TRUST_STORE_PASSWORD := GetProperty(config, "mqtt.truststorepassword", "")]
                 [SSL_TRUST_STORE_TYPE := "JKS"]
  }

  /**
   * What the SSL properties hold: the protocol (`TLSv1.2` unless configured), and each
   * store's three entries exactly when its file is named, the type always `JKS`.
   */
  lemma SslPropertiesContents(config: Config)
    ensures var m := SslProperties(config);
      var keyStore := GetProperty(config, "mqtt.keystore", "");
      var trustStore := GetProperty(config, "mqtt.truststore", "");
      m.Keys == {SSL_PROTOCOL}
        + (if keyStore == "" then {} else {SSL_KEY_STORE, SSL_KEY_STORE_PASSWORD, SSL_KEY_STORE_TYPE})
        + (if trustStore == "" then {} else {SSL_TRUST_STORE, SSL_TRUST_STORE_PASSWORD, SSL_TRUST_STORE_TYPE}) &&
      m[SSL_PROTOCOL] == GetProperty(config, "mqtt.protocol", "TLSv1.2") &&
      (keyStore != "" ==>
        (m[SSL_KEY_STORE] == keyStore && m[SSL_KEY_STORE_TYPE] == "JKS" &&
         m[SSL_KEY_STORE_PASSWORD] == GetProperty(config, "mqtt.keystorepassword", ""))) &&
      (trustStore != "" ==>
        (m[SSL_TRUST_STORE] == trustStore && m[SSL_TRUST_STORE_TYPE] == "JKS" &&
         m[SSL_TRUST_STORE_PASSWORD] == GetProperty(config, "mqtt.truststorepassword", "")))
  {
    assert SSL_PROTOCOL[12] == 'p' && SSL_KEY_STORE[12] == 'k' && SSL_TRUST_STORE[12] == 't';
    assert |SSL_KEY_STORE| == 20 && |SSL_KEY_STORE_TYPE| == 24 && |SSL_KEY_STORE_PASSWORD| == 28;
    assert |SSL_TRUST_STORE| == 22 && |SSL_TRUST_STORE_TYPE| == 26 && |SSL_TRUST_STORE_PASSWORD| == 30;
  }

  /** The MQTT client library's defaults for the numeric connection options. */
  const CONNECTION_TIMEOUT_DEFAULT := 30
  const KEEP_ALIVE_INTERVAL_DEFAULT := 60
  const MQTT_VERSION_DEFAULT := 0
  const MAX_INFLIGHT_DEFAULT := 10

  /** The arguments the MQTT manager is built with. */
  datatype ClientSettings = ClientSettings(
    url: string, username: string, password: string, clientId: string,
    connectionTimeout: int, keepAliveInterval: int, defaultQos: int, version: int,
    maxInflight: int, sslProperties: Option<map<string, string>>)

  /** A numeric property, read with `Integer.parseInt`. */
  function IntProperty(config: Config, key: string, default: string): Option<int> {
    ParseInt(GetProperty(config, key, default))
  }

  /**
   * The settings `createManagerMQTT` derives from the configuration; `None` where one of
   * its `Integer.parseInt` calls throws `NumberFormatException`.
   */
  function ManagerSettings(config: Config): Option<ClientSettings> {
    var endpoint := EndpointOf(config);
    var timeout := IntProperty(config, "mqtt.connectiontimeout", IntToString(CONNECTION_TIMEOUT_DEFAULT));
    var keepAlive := IntProperty(config, "mqtt.keepaliveinterval", IntToString(KEEP_ALIVE_INTERVAL_DEFAULT));
    var qos := IntProperty(config, "mqtt.defaultqos", "1");
    var version := IntProperty(config, "mqtt.version", IntToString(MQTT_VERSION_DEFAULT));
    var inflight := IntProperty(config, "mqtt.maxinflight", IntToString(MAX_INFLIGHT_DEFAULT));
    if endpoint.None? || timeout.None? || keepAlive.None? || qos.None? || version.None? || inflight.None? then
      None
    else
      Some(ClientSettings(
        BrokerUrl(endpoint.value),
        GetProperty(config, "mqtt.username", ""),
        GetProperty(config, "mqtt.password", ""),
        GetProperty(config, "mqtt.clientid", "MQTTBridge"),
        timeout.value, keepAlive.value, qos.value, version.value, inflight.value,
        if endpoint.value.ssl then Some(SslProperties(config)) else None))
  }

  /**
   * The settings agree with the configuration: the URL reads back as the configured
   * endpoint, and SSL properties are passed exactly when the URL's scheme is a TLS one.
   */
  lemma SettingsAgree(config: Config)
    requires ManagerSettings(config).Some?
    ensures var s := ManagerSettings(config).value;
      ParseBrokerUrl(s.url) == EndpointOf(config) &&
      (s.sslProperties.Some? <==> StartsWith(s.url, "ssl://") || StartsWith(s.url, "wss://")) &&
      (s.sslProperties.Some? ==> s.sslProperties.value == SslProperties(config))
  {
    var e := EndpointOf(config).value;
    var s := ManagerSettings(config).value;
    assert s.url == BrokerUrl(e);
    assert s.sslProperties == if e.ssl then Some(SslProperties(config)) else None;
    BrokerUrlParses(e);
    TlsScheme(e);
  }

  /** Without any property the client connects over TCP to port 1883 on this machine. */
  lemma DefaultSettings()
    ensures ManagerSettings(map[]) ==
      Some(ClientSettings("tcp://localhost:1883", "", "", "MQTTBridge", 30, 60, 1, 0, 10, None))
  {
    DefaultEndpoint();
    DefaultNumbers();
    DefaultBrokerUrl();
  }

  /** The default endpoint's URL. */
  lemma DefaultBrokerUrl()
    ensures BrokerUrl(Endpoint(false, false, "localhost", 1883)) == "tcp://localhost:1883"
  {
    DefaultEndpoint();
    assert "tcp" + "://" == "tcp://";
    assert "tcp://" + "localhost" == "tcp://localhost";
    assert "tcp://localhost" + ":" == "tcp://localhost:";
    assert "tcp://localhost:" + "1883" == "tcp://localhost:1883";
  }

  lemma DefaultEndpoint()
    ensures EndpointOf(map[]) == Some(Endpoint(false, false, "localhost", 1883))
    ensures IntToString(1883) == "1883"
  {
    assert NatToString(1883) == NatToString(188) + "3" == NatToString(18) + "83" == "1883";
    IntToStringParses(1883);
    assert !ParseBoolean("false");
  }

  lemma DefaultNumbers()
    ensures IntProperty(map[], "mqtt.connectiontimeout", IntToString(CONNECTION_TIMEOUT_DEFAULT)) == Some(30)
    ensures IntProperty(map[], "mqtt.keepaliveinterval", IntToString(KEEP_ALIVE_INTERVAL_DEFAULT)) == Some(60)
    ensures IntProperty(map[], "mqtt.defaultqos", "1") == Some(1)
    ensures IntProperty(map[], "mqtt.version", IntToString(MQTT_VERSION_DEFAULT)) == Some(0)
    ensures IntProperty(map[], "mqtt.maxinflight", IntToString(MAX_INFLIGHT_DEFAULT)) == Some(10)
  {
    IntToStringParses(30);
    IntToStringParses(60);
    IntToStringParses(1);
    IntToStringParses(0);
    IntToStringParses(10);
  }

  // ----- The HTTP settings -----

  /** The HTTP port and the token clients must present. */
  datatype WebSettings = WebSettings(port: int, token: string)

  const DEFAULT_TOKEN := "HELLOBRIDGE"

  /** The HTTP settings; `None` where `web.port` does not parse. */
  function WebSettingsOf(config: Config): (r: Option<WebSettings>)
    ensures r.Some? <==> ParseInt(GetProperty(config, "web.port", "8080")).Some?
    ensures r.Some? ==> INT_MIN <= r.value.port <= INT_MAX
  {
    var port := ParseInt(GetProperty(config, "web.port", "8080"));
    if port.None? then None else Some(WebSettings(port.value, GetProperty(config, "web.token", DEFAULT_TOKEN)))
  }

  /** Without any property the server listens on port 8080 and expects the default token. */
  lemma DefaultWebSettings()
    ensures WebSettingsOf(map[]) == Some(WebSettings(8080, DEFAULT_TOKEN))
  {
    assert NatToString(8080) == NatToString(808) + "0" == NatToString(80) + "80" == "8080";
    IntToStringParses(8080);
  }

  // ----- The authentication filter -----

  /**
   * What the filter does with a request: let it through, halt it with a status, or fail
   * with the `IllegalArgumentException` of credentials that are not Base64.
   */
  datatype FilterOutcome = Pass | Halt(status: int) | Failure

  /** The credentials of a Basic `Authorization` header: user `mqtt`, the token as password. */
  function Authorize(header: Option<string>, token: string): FilterOutcome {
    if header.Some? && StartsWith(header.value, "Basic ") then
      (match Base64.Decode(header.value[6..])
       case None => Failure
       case Some(credentials) => if Utf8.Decode(credentials) == "mqtt:" + token then Pass else Halt(401))
    else Halt(401)
  }

  /** The header a client builds from a user name and a password. */
  function BasicHeader(user: string, password: string): string {
    "Basic " + Base64.Encode(Utf8.Encode(user + ":" + password))
  }

  /** A header built from a user and a password passes exactly when it reads `mqtt:` and the token. */
  lemma BasicHeaderChecked(user: string, password: string, token: string)
    ensures Authorize(Some(BasicHeader(user, password)), token) ==
      if user + ":" + password == "mqtt:" + token then Pass else Halt(401)
  {
    var h := BasicHeader(user, password);
    assert h[..6] == "Basic ";
    assert h[6..] == Base64.Encode(Utf8.Encode(user + ":" + password));
    Base64.DecodeEncode(Utf8.Encode(user + ":" + password));
    Utf8.DecodeEncode(user + ":" + password);
  }

  /** For a user name without a colon, only user `mqtt` with the token as password matches. */
  lemma OnlyMqttUser(user: string, password: string, token: string)
    requires ':' !in user
    ensures user + ":" + password == "mqtt:" + token <==> user == "mqtt" && password == token
  {
    var s := user + ":" + password;
    var t := "mqtt:" + token;
    if s == t {
      assert t[4] == ':' && s[|user|] == ':';
      assert forall i :: 0 <= i < 4 ==> t[i] != ':';
      assert forall i :: 0 <= i < |user| ==> s[i] == user[i];
      assert |user| == 4;
      assert user == s[..4] == t[..4] == "mqtt";
      assert password == s[5..] == t[5..] == token;
    }
  }

  /** No header, another scheme than Basic, or a wrong user or token: the request gets 401. */
  lemma Unauthorized(header: Option<string>, token: string)
    requires header.None? || !StartsWith(header.value, "Basic ") ||
      (Base64.Decode(header.value[6..]).Some? &&
       Utf8.Decode(Base64.Decode(header.value[6..]).value) != "mqtt:" + token)
    ensures Authorize(header, token) == Halt(401)
  {
  }

  /** Credentials with a character outside the Base64 alphabet make the filter fail. */
  lemma MalformedCredentials(credentials: string, i: nat, token: string)
    requires i < |credentials| && !Base64.IsAlphabet(credentials[i]) && credentials[i] != '='
    ensures Authorize(Some("Basic " + credentials), token) == Failure
  {
    var h := "Basic " + credentials;
    assert h[..6] == "Basic " && h[6..] == credentials;
    Base64.IllegalCharacterRejected(credentials, i);
  }

  // ----- The publishing route -----

  /**
   * What Gson's parser makes of the request body: a JSON tree, a syntax or I/O error, or
   * the bare `JsonParseException` it raises when nesting exhausts the stack or memory.
   */
  datatype ParsedBody = Unparsable | TooDeep | Parsed(value: JsonValue)

  /** The arguments of `manager.publish`. */
  datatype PublishRequest = PublishRequest(topic: string, qos: int, payload: seq<Utf8.byte>, retained: bool)

  /**
   * How publishing ends: it succeeds, it throws `MqttException`, or it throws another
   * exception (an argument the MQTT client refuses, such as an invalid quality of service).
   */
  datatype PublishOutcome = Published | BrokerFailure | Rejected

  /** The response: its status, its content type and the two members of its JSON object. */
  datatype Reply = Reply(status: int, contentType: string, success: bool, message: string)

  /** The response and the publication the route attempted, if it got that far. */
  datatype Exchange = Exchange(reply: Reply, attempted: Option<PublishRequest>)

  const JSON_TYPE := "application/json"
  const EMPTY_TOPIC := "Empty topic."
  const INVALID_JSON := "Body must be a valid JSON."
  const INVALID_MESSAGE := "Body must be a valid MQTT message."
  const BROKER_FAILURE := "Cannot publish message to MQTT broker."

  function SuccessMessage(topic: string): string {
    "Successfully sent message to topic [" + topic + "]"
  }

  function Failed(status: int, message: string): Reply {
    Reply(status, JSON_TYPE, false, message)
  }

  /**
   * The publication an object body asks for: `qos` as an integer or -1 when absent, the
   * `message` string decoded as on the way out, `retained` as a boolean or false when
   * absent; `None` where a read throws.
   */
  function ReadRequest(topic: string, body: seq<Member>): Option<PublishRequest> {
    var qos := if Has(body, "qos") then AsInt(Get(body, "qos").value) else Some(-1);
    if qos.None? then None
    else
      var text := if Has(body, "message") then AsString(Get(body, "message").value) else None;
      if text.None? then None
      else
        var payload := Subscriptions.ParseMessage(text.value);
        if payload.None? then None
        else
          var retained := if Has(body, "retained") then AsBoolean(Get(body, "retained").value) else Some(false);
          if retained.None? then None
          else Some(PublishRequest(topic, qos.value, payload.value, retained.value))
  }

  /** The POST route for every path: the splat is the topic, the body says what to publish, `broker` publishes it. */
  function Route(splat: seq<string>, body: ParsedBody, broker: PublishRequest -> PublishOutcome): Exchange {
    if |splat| != 1 then Exchange(Failed(400, EMPTY_TOPIC), None)
    else if body.Unparsable? then Exchange(Failed(400, INVALID_JSON), None)
    else if body.TooDeep? then Exchange(Failed(400, INVALID_MESSAGE), None)
    else if !body.value.JObject? then Exchange(Failed(400, INVALID_MESSAGE), None)
    else
      match ReadRequest(splat[0], body.value.members)
      case None => Exchange(Failed(400, INVALID_MESSAGE), None)
      case Some(request) =>
        match broker(request)
        case Published => Exchange(Reply(200, JSON_TYPE, true, SuccessMessage(splat[0])), Some(request))
        case BrokerFailure => Exchange(Failed(500, BROKER_FAILURE), Some(request))
        case Rejected => Exchange(Failed(400, INVALID_MESSAGE), Some(request))
  }

  /**
   * Every reply is JSON; it succeeds exactly with status 200, which means the broker took
   * the message; 500 means the broker failed it; every other failure is a 400.
   */
  lemma RouteReplies(splat: seq<string>, body: ParsedBody, broker: PublishRequest -> PublishOutcome)
    ensures var r := Route(splat, body, broker);
      r.reply.contentType == JSON_TYPE &&
      r.reply.status in {200, 400, 500} &&
      (r.reply.success <==> r.reply.status == 200) &&
      (r.reply.status == 200 <==> r.attempted.Some? && broker(r.attempted.value) == Published) &&
      (r.reply.status == 500 <==> r.attempted.Some? && broker(r.attempted.value) == BrokerFailure) &&
      (r.attempted.Some? ==> |splat| == 1 && r.attempted.value.topic == splat[0])
  {
  }

  /** The 400 replies: which request faults produce which message. */
  lemma RouteRejects(splat: seq<string>, body: ParsedBody, broker: PublishRequest -> PublishOutcome)
    ensures var r := Route(splat, body, broker);
      (|splat| != 1 ==> r.reply == Failed(400, EMPTY_TOPIC) && r.attempted.None?) &&
      (|splat| == 1 && body.Unparsable? ==> r.reply == Failed(400, INVALID_JSON) && r.attempted.None?) &&
      (|splat| == 1 && body.TooDeep? ==> r.reply == Failed(400, INVALID_MESSAGE) && r.attempted.None?) &&
      (|splat| == 1 && body.Parsed? && !body.value.JObject? ==> r.reply == Failed(400, INVALID_MESSAGE)) &&
      (|splat| == 1 && body.Parsed? && body.value.JObject? ==>
        (r.attempted.None? <==> ReadRequest(splat[0], body.value.members).None?))
  {
  }

  /**
   * Only the values bound last to `qos`, `message` and `retained` matter: other members,
   * and earlier bindings of the same names, do not change what is read.
   */
  lemma ReadRequestIgnoresOthers(topic: string, body: seq<Member>, other: seq<Member>)
    requires Get(body, "qos") == Get(other, "qos")
    requires Get(body, "message") == Get(other, "message")
    requires Get(body, "retained") == Get(other, "retained")
    ensures ReadRequest(topic, body) == ReadRequest(topic, other)
  {
  }

  /**
   * Bodies that cannot be read, which the route answers with `Body must be a valid MQTT message.`: no `message`, or a
   * `message` that is null, an object or an array of other than one element; a `qos` that is
   * null, an object or a boolean; a `retained` that is null or an object.
   */
  lemma ReadRequestRejects(topic: string, body: seq<Member>)
    ensures var m := Get(body, "message");
      m.None? || m.value.JNull? || m.value.JObject? || (m.value.JArray? && |m.value.elements| != 1)
      ==> ReadRequest(topic, body).None?
    ensures var q := Get(body, "qos");
      q.Some? && (q.value.JNull? || q.value.JObject? || q.value.JBool?) ==> ReadRequest(topic, body).None?
    ensures var t := Get(body, "retained");
      t.Some? && (t.value.JNull? || t.value.JObject?) ==> ReadRequest(topic, body).None?
  {
    assert !IsDigit('t') && !IsDigit('f');
    assert ParseInt("true").None? && ParseInt("false").None?;
  }

  /**
   * The bridge's own webhook body, posted back in Base64 format, republishes the event:
   * same topic, payload and retained flag, its quality of service when above 0 and -1
   * (the body carried none) otherwise.
   */
  lemma WebhookBodyRepublished(m: EventMessages.EventMessage, broker: PublishRequest -> PublishOutcome)
    requires INT_MIN <= m.qos <= INT_MAX
    ensures Route([m.topic], Parsed(JObject(Webhooks.WebhookBody(m, Subscriptions.FORMAT_BASE64))), broker).attempted
      == Some(PublishRequest(m.topic, if m.qos > 0 then m.qos else -1, m.message, m.retained))
  {
    WebhookBodyRead(m);
  }

  lemma WebhookBodyRead(m: EventMessages.EventMessage)
    requires INT_MIN <= m.qos <= INT_MAX
    ensures ReadRequest(m.topic, Webhooks.WebhookBody(m, Subscriptions.FORMAT_BASE64))
      == Some(PublishRequest(m.topic, if m.qos > 0 then m.qos else -1, m.message, m.retained))
  {
    var body := Webhooks.WebhookBody(m, Subscriptions.FORMAT_BASE64);
    var text := Subscriptions.FormatMessage(m.message, Subscriptions.FORMAT_BASE64);
    var qos := if m.qos > 0 then Some(m.qos) else None;
    var retained := if m.retained then Some(true) else None;
    assert Get(body, "message") == Some(JString(text)) &&
      Get(body, "qos") == (if qos.Some? then Some(JNumber(qos.value)) else None) &&
      Get(body, "retained") == (if retained.Some? then Some(JBool(retained.value)) else None) by {
      Webhooks.BodyFields(m, Subscriptions.FORMAT_BASE64);
    }
    assert Subscriptions.ParseMessage(text) == Some(m.message) by {
      Subscriptions.FormatBase64RoundTrip(m.message);
    }
    ReadOwnKinds(m.topic, body, text, m.message, qos, retained);
  }

  /**
   * An object body with a `message` string that decodes, and `qos` and `retained` absent or
   * a number in range and a boolean, is read as the decoded payload with those values or
   * their defaults.
   */
  lemma ReadOwnKinds(topic: string, body: seq<Member>, text: string, payload: seq<Utf8.byte>,
                     qos: Option<int>, retained: Option<bool>)
    requires Get(body, "message") == Some(JString(text))
    requires Subscriptions.ParseMessage(text) == Some(payload)
    requires Get(body, "qos") == (if qos.Some? then Some(JNumber(qos.value)) else None)
    requires qos.Some? ==> INT_MIN <= qos.value <= INT_MAX
    requires Get(body, "retained") == (if retained.Some? then Some(JBool(retained.value)) else None)
    ensures ReadRequest(topic, body) == Some(PublishRequest(topic, if qos.Some? then qos.value else -1, payload,
      if retained.Some? then retained.value else false))
  {
    if qos.Some? {
      CoercionsOfOwnKind(text, qos.value, false);
    }
  }

  // ----- Filter and route together -----

  /** The outcome of one POST: halted by the filter, failed in it, or handled by the route. */
  datatype Served = Filtered(status: int) | FilterFailed | Handled(exchange: Exchange)

  function Serve(header: Option<string>, token: string, splat: seq<string>, body: ParsedBody,
                 broker: PublishRequest -> PublishOutcome): Served
  {
    match Authorize(header, token)
    case Pass => Handled(Route(splat, body, broker))
    case Halt(status) => Filtered(status)
    case Failure => FilterFailed
  }

  /** Nothing reaches the broker without Basic credentials that decode to `mqtt:` and the token. */
  lemma NoPublishWithoutToken(header: Option<string>, token: string, splat: seq<string>, body: ParsedBody,
                              broker: PublishRequest -> PublishOutcome)
    requires Serve(header, token, splat, body, broker).Handled?
    ensures header.Some? && StartsWith(header.value, "Basic ")
    ensures var credentials := Base64.Decode(header.value[6..]);
      credentials.Some? && Utf8.Decode(credentials.value) == "mqtt:" + token
  {
  }
}
