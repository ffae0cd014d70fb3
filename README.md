# hellobridge in Dafny

HelloBridge connects HTTP and MQTT in both directions:

- **HTTP to MQTT.** An HTTP `POST /<topic>` with a JSON body `{"message": …, "qos": …, "retained": …}` is published to an MQTT broker. Every request must carry Basic credentials `mqtt:<token>`.
- **MQTT to HTTP.** A message arriving from the broker is forwarded as a JSON `POST` to a webhook URL, once for every configured subscription whose key matches the topic.

This project models the core of both directions and proves properties of the model.

**The distribution engine** (`GroupManagers`), in `probes.dfy` and `group_managers.dfy`.
- The subscription table is a class field. The constructor fills it in a loop, and a later definition for the same topic replaces an earlier one.
- For a message on topic T, the engine probes these keys in this order:
  - T itself;
  - for every `/` in T, from right to left, the text before that `/` followed by `/#`;
  - finally `#`.
- Each key is looked up literally in the table, and every hit makes one webhook call.
- The HTTP client is a function parameter that reports the outcome of the n-th webhook attempt. The object records each attempt in its `sent` field. An attempt covers building the request (`GroupManagers.java` line 101) as well as executing it (line 105), so a URL that OkHttp rejects is an attempt whose outcome is unchecked, and it takes a number like any other.
- An outcome is one of:
  - a response of any status, which is only logged;
  - an `IOException`, which is logged and swallowed;
  - an unchecked exception, which ends the distribution.

**The webhook call** (`webhooks.dfy`).
- The URL is the configured template with every `{{subscription}}` replaced by the URL-encoded key, then every `{{decodedsubscription}}` by the key itself.
- The body holds:
  - `topic`: the arriving topic;
  - `message`: the payload in the subscription's format;
  - `qos`: present only when it is above 0;
  - `retained`: present, as `true`, only for a retained message.

**The payload codec** (`SubscriptionDefinition.parseMessage`/`formatMessage`), in `subscriptions.dfy`.
- `parseMessage` is prefix-directed: `plain:` is tested first, then `base64:`, and any other text is taken as implicit plain text.
- `formatMessage` is the matching encoder.
- Base64 (`base64.dfy`), UTF-8 (`utf8.dfy`), the URL encoder (`url_encoding.dfy`) and the `String`/`Integer` operations (`text.dfy`) are modelled concretely, so the round trips are proved rather than assumed.
- `Main.parseMessage` is a copy of `SubscriptionDefinition.parseMessage`, so it is modelled by the same function, `Subscriptions.ParseMessage`.

**The decisions in `Main`** (`bridge.dfy`).
- The MQTT client settings derived from the configuration properties: the endpoint, the broker URL with its scheme, and the SSL properties.
- The HTTP port and token.
- The authentication filter.
- The POST route's reply: 200, 400 or 500, with `success` and a message, always JSON.

**The message envelope** (`EventMessage`) is a datatype in `events.dfy`. `SubscriptionDefinition` is a datatype too, and its getters are the datatype's destructors.

Behaviour the model follows from the code, where a reader might expect otherwise:

- A plain payload whose text starts with `plain:` or `base64:` does not survive formatting and parsing. For example, the payload `plain:x` comes back as `x` (`Subscriptions.PlainPrefixLost`).
- Java's basic Base64 decoder accepts a last unit without padding, so encoding a decoded string need not give that string back (`Base64.UnpaddedAccepted`).
- The bridge's own webhook body, posted back to the bridge at the path of the event's topic, republishes the event with quality of service -1 when the event's was 0 (`Bridge.WebhookBodyRepublished`). This happens because the body carries no `qos` member in that case.
- A topic that itself ends in `/#` has its own key probed twice (`Probes.WildcardTopicProbedTwice`). Published MQTT topics cannot contain `#`, and for those no key is probed twice (`Probes.ProbesDistinct`).

## Model

| member | source | states |
|---|---|---|
| EventMessages.Envelope | src/main/java/com/adr/hellobridge/EventMessage.java:32-34 | the two-argument constructor keeps topic and payload, with quality of service 0 and not retained |
| Subscriptions.ParseMessage | src/main/java/com/adr/hellobridge/SubscriptionDefinition.java:61-69 | it fails exactly for a `base64:` text (not `plain:`) whose remainder does not decode; after `plain:` the bytes are well-formed UTF-8 and decode to the text after 6 characters; a text with neither prefix gives well-formed bytes that decode to the whole text; after `base64:` the result is the Base64 decoding of the remainder; `Main.parseMessage` (`Main.java` lines 191-199) is the same parser |
| Subscriptions.ParsedTextIsEncoding | src/main/java/com/adr/hellobridge/SubscriptionDefinition.java:61-69 | a `plain:` text gives exactly the UTF-8 encoding of the text after the prefix, and a text with neither prefix the encoding of the whole text |
| Subscriptions.FormatMessage | src/main/java/com/adr/hellobridge/SubscriptionDefinition.java:71-77 | format 1 gives exactly `base64:` followed by the padded Base64 encoding of the payload, which decodes back to the payload; any other format gives text whose UTF-8 encoding is the payload exactly when the payload is well-formed |
| Subscriptions.FormatBase64RoundTrip | src/main/java/com/adr/hellobridge/SubscriptionDefinition.java:61-77 | parsing the Base64 format of any payload gives that payload back |
| Subscriptions.FormatPlainRoundTrip | src/main/java/com/adr/hellobridge/SubscriptionDefinition.java:61-77 | the plain format survives parsing exactly when the payload is well-formed UTF-8 and its text starts with neither `plain:` nor `base64:` (both directions) |
| Subscriptions.PlainPrefixLost | src/main/java/com/adr/hellobridge/SubscriptionDefinition.java:62-63 | the payload `plain:x` comes back as `x` |
| Subscriptions.ParseThenFormatPlain | src/main/java/com/adr/hellobridge/SubscriptionDefinition.java:61-77 | text without `base64:` comes back from the plain format whole, or without its `plain:` prefix |
| Subscriptions.OnFormatted | src/main/java/com/adr/hellobridge/SubscriptionDefinition.java:71-77 | the payload `on` is `on` in plain format and `base64:b24=` in Base64 format |
| Base64.Encode | src/main/java/com/adr/hellobridge/SubscriptionDefinition.java:73 | the encoding is 4 characters per started group of 3 bytes (padded) |
| Base64.Decode | src/main/java/com/adr/hellobridge/SubscriptionDefinition.java:65 | a decoded result is never longer than its input |
| Base64.DecodeEncode | src/main/java/com/adr/hellobridge/SubscriptionDefinition.java:65 | decoding the encoding of any byte sequence gives it back |
| Base64.EncodeAlphabet | src/main/java/com/adr/hellobridge/SubscriptionDefinition.java:73 | every character of an encoding is in the RFC 4648 section 4 alphabet or is `=` |
| Base64.IllegalCharacterRejected | src/main/java/com/adr/hellobridge/SubscriptionDefinition.java:65 | any character outside the alphabet and not `=` makes decoding fail |
| Base64.UnpaddedAccepted | src/main/java/com/adr/hellobridge/SubscriptionDefinition.java:65 | `QQ` decodes to `A`, whose encoding is `QQ==` |
| Base64.DecodeGroup | src/main/java/com/adr/hellobridge/SubscriptionDefinition.java:65 | a full encoded group in front of the rest decodes to its three bytes, followed by what the rest decodes to |
| Utf8.Encode | src/main/java/com/adr/hellobridge/SubscriptionDefinition.java:63 | the encoding has at least one byte per character |
| Utf8.Decode | src/main/java/com/adr/hellobridge/SubscriptionDefinition.java:75 | decoding gives at most one character per byte |
| Utf8.DecodeEncode | src/main/java/com/adr/hellobridge/SubscriptionDefinition.java:67 | decoding the encoding of any string gives it back |
| Utf8.EncodeDecode | src/main/java/com/adr/hellobridge/SubscriptionDefinition.java:75 | encoding the decoded text gives the bytes back exactly when they are well-formed (both directions) |
| Utf8.EncodeIsWellFormed | src/main/java/com/adr/hellobridge/SubscriptionDefinition.java:63 | every encoding is well-formed UTF-8 |
| Utf8.EncodeAppend | src/main/java/com/adr/hellobridge/SubscriptionDefinition.java:63 | the encoding of a concatenation is the concatenation of the encodings |
| Utf8.ScalarAtEncodes | src/main/java/com/adr/hellobridge/SubscriptionDefinition.java:75 | re-encoding the character decoded from a well-formed sequence gives back exactly its bytes |
| Utf8.EncodeCharWellFormed | src/main/java/com/adr/hellobridge/SubscriptionDefinition.java:63 | one character's encoding is a complete well-formed sequence of its own length, whatever follows, and it decodes back to that character |
| Text.ReplaceAbsent | src/main/java/com/adr/hellobridge/GroupManagers.java:83-85 | replacing a pattern that does not occur leaves the text unchanged |
| Text.ReplacePrefix | src/main/java/com/adr/hellobridge/GroupManagers.java:83-85 | text that cannot begin the pattern is kept in front of the replaced remainder |
| Text.ReplaceFirst | src/main/java/com/adr/hellobridge/GroupManagers.java:83-85 | the text before the first occurrence is kept, the occurrence becomes the replacement, and the rest is replaced in turn |
| Text.ParseInt | src/main/java/com/adr/hellobridge/Main.java:154 | a parsed number is a 32-bit integer |
| Text.IntToStringParses | src/main/java/com/adr/hellobridge/Main.java:177 | parsing the decimal text of a 32-bit integer gives the integer |
| Text.NatToStringValue | src/main/java/com/adr/hellobridge/Main.java:177 | the printed digits denote the number printed |
| UrlEncoding.Encode | src/main/java/com/adr/hellobridge/GroupManagers.java:84 | the encoding uses only unreserved characters, `+` and `%`, so it holds no brace, and it is never shorter than its input |
| UrlEncoding.EncodeUnreserved | src/main/java/com/adr/hellobridge/GroupManagers.java:84 | text made of unreserved characters is its own encoding |
| UrlEncoding.EncodeWildcardKey | src/main/java/com/adr/hellobridge/GroupManagers.java:84 | the key `a/#` is encoded as `a%2F%23` |
| Json.Get | src/main/java/com/adr/hellobridge/Main.java:89-91 | a lookup finds a value exactly when the object has the name, and the value is bound to that name in the object |
| Json.GetAppend | src/main/java/com/adr/hellobridge/GroupManagers.java:88-96 | a member added at the end takes over its name and leaves the other names alone |
| Json.WrapInt32 | src/main/java/com/adr/hellobridge/Main.java:89 | the result is a 32-bit integer that differs from the number by a multiple of 2^32, so it is the number's low 32 bits read as signed |
| Json.AsInt | src/main/java/com/adr/hellobridge/Main.java:89 | `getAsInt` gives a 32-bit integer |
| Json.CoercionsOfOwnKind | src/main/java/com/adr/hellobridge/Main.java:89-91 | a string, an in-range number (or its decimal text) and a boolean read back as themselves |
| Webhooks.EncodedPlaceholder | src/main/java/com/adr/hellobridge/GroupManagers.java:83-85 | around `{{subscription}}` the URL holds the URL-encoded key |
| Webhooks.DecodedPlaceholder | src/main/java/com/adr/hellobridge/GroupManagers.java:83-85 | around `{{decodedsubscription}}` the URL holds the key as it is |
| Webhooks.TemplateFilled | src/main/java/com/adr/hellobridge/GroupManagers.java:83-85 | for any template made of brace-free literal text and any number of both placeholders in any order, every `{{subscription}}` holds the URL-encoded key, every `{{decodedsubscription}}` the key as it is, and the literal text is kept |
| Webhooks.BothPlaceholders | src/main/java/com/adr/hellobridge/GroupManagers.java:83-85 | a template with `{{subscription}}` followed by `{{decodedsubscription}}` gets the URL-encoded key in the first place and the plain key in the second |
| Webhooks.FixedUrl | src/main/java/com/adr/hellobridge/GroupManagers.java:83-85 | a template in which neither `{{subscription}}` nor `{{decodedsubscription}}` occurs is the URL of every call |
| Webhooks.FieldsShape | src/main/java/com/adr/hellobridge/GroupManagers.java:88-96 | the body holds `topic` then `message`, then at most `qos` and `retained`, no other name and no name twice |
| Webhooks.FieldsLookup | src/main/java/com/adr/hellobridge/GroupManagers.java:88-96 | in the body, `qos` is present only when above 0 and `retained` only when set, and then `true` |
| Webhooks.BodyFields | src/main/java/com/adr/hellobridge/GroupManagers.java:88-96 | `topic` is the arriving topic, not the pattern; `message` is the payload in the subscription's format; `qos` and `retained` are as above |
| Probes.LastIndexOf | src/main/java/com/adr/hellobridge/GroupManagers.java:65 | the result is -1 or an index at most `from` holding the character, and no later index up to `from` holds it |
| Probes.WildcardKeys | src/main/java/com/adr/hellobridge/GroupManagers.java:63-72 | the recursion ends, and its last probe is `#` |
| Probes.WildcardKeysAreAncestors | src/main/java/com/adr/hellobridge/GroupManagers.java:63-72 | the recursion probes the key of every `/` at or below `starting`, right to left, then `#` |
| Probes.SlashesBelowCount | src/main/java/com/adr/hellobridge/GroupManagers.java:65 | there is one wildcard level per `/` of the topic |
| Probes.ProbeOrder | src/main/java/com/adr/hellobridge/GroupManagers.java:58-72 | the topic is probed first and `#` last, with one key per `/` between them from right to left; that is (number of `/`) + 2 probes |
| Probes.ProbedKeys | src/main/java/com/adr/hellobridge/GroupManagers.java:58-72 | a key is probed exactly when it is the topic, `#`, or the text before one of the topic's `/` followed by `/#` |
| Probes.WildcardKeysAreStrictAncestors | src/main/java/com/adr/hellobridge/GroupManagers.java:69 | every wildcard key probed ends in `/#`, and the topic lies beneath its prefix |
| Probes.TopicWithoutSlash | src/main/java/com/adr/hellobridge/GroupManagers.java:60-67 | a topic without `/`, the empty one included, probes exactly itself and `#` |
| Probes.RootAndTrailingSlash | src/main/java/com/adr/hellobridge/GroupManagers.java:65-69 | `/x` probes `/x`, `/#`, `#`, and `a/` probes `a/`, `a/#`, `#` |
| Probes.ParentWildcardNotProbedForItself | src/main/java/com/adr/hellobridge/GroupManagers.java:58-72 | `a/#` is not probed for the topic `a`, unlike the MQTT 3.1.1 multi-level wildcard |
| Probes.PlusNeverProbed | src/main/java/com/adr/hellobridge/GroupManagers.java:76-80 | no probed key holds a `+` that the topic does not hold, so the single-level wildcard is never expanded |
| Probes.PlusPatternNeverMatched | src/main/java/com/adr/hellobridge/GroupManagers.java:76-80 | `s/+/t` is never probed for `s/k/t` |
| Probes.ProbesDistinct | src/main/java/com/adr/hellobridge/GroupManagers.java:58-72 | for a topic without `#`, no key is probed twice |
| Probes.WildcardTopicProbedTwice | src/main/java/com/adr/hellobridge/GroupManagers.java:58-72 | the topic `a/#` probes its own key twice |
| Probes.KitchenLightKeys | src/main/java/com/adr/hellobridge/GroupManagers.java:58-72 | `home/kitchen/light` probes itself, `home/kitchen/#`, `home/#`, `#` |
| GroupManagement.Table | src/main/java/com/adr/hellobridge/GroupManagers.java:53-55 | every entry is filed under its own topic |
| GroupManagement.TableLastWins | src/main/java/com/adr/hellobridge/GroupManagers.java:53-55 | a topic is in the table exactly when some definition has it, and it maps to the last definition that has it |
| GroupManagement.GroupManagers.constructor | src/main/java/com/adr/hellobridge/GroupManagers.java:50-56 | the loop fills the table with `Table(subs)`; the URL and client are as given, and nothing has been sent |
| GroupManagement.HitsMembers | src/main/java/com/adr/hellobridge/GroupManagers.java:76-80 | the hits are exactly the probed keys that are in the table |
| GroupManagement.Dispatch | src/main/java/com/adr/hellobridge/GroupManagers.java:74-118 | one table key makes at most one call |
| GroupManagement.DispatchCalls | src/main/java/com/adr/hellobridge/GroupManagers.java:76-105 | a key makes a call exactly when it is in the table and a webhook URL is configured, and the call sends the request built for that key; a hit without a URL throws |
| GroupManagement.DispatchThrows | src/main/java/com/adr/hellobridge/GroupManagers.java:105-117 | with a URL, a dispatch throws exactly when its call's outcome was unchecked |
| GroupManagement.DispatchFaithful | src/main/java/com/adr/hellobridge/GroupManagers.java:105 | the recorded outcome is what the client reported |
| GroupManagement.AttemptBound | src/main/java/com/adr/hellobridge/GroupManagers.java:58-72 | a distribution makes at most one call per hit |
| GroupManagement.AttemptConcat | src/main/java/com/adr/hellobridge/GroupManagers.java:58-61 | probing `a + b` is probing `a`, then, unless that threw, probing `b` |
| GroupManagement.MissingUrl | src/main/java/com/adr/hellobridge/GroupManagers.java:83 | without `webhook.url`, nothing is sent, and the distribution throws exactly when some probed key is a hit |
| GroupManagement.AttemptFaithful | src/main/java/com/adr/hellobridge/GroupManagers.java:105 | every call is recorded with the outcome the client reported for it |
| GroupManagement.AttemptStopsAtUnchecked | src/main/java/com/adr/hellobridge/GroupManagers.java:105-117 | with a webhook URL, no call before the last was unchecked, and the distribution threw exactly when its last call was unchecked |
| GroupManagement.AttemptFollowsHits | src/main/java/com/adr/hellobridge/GroupManagers.java:105-117 | for any client, the calls go to the hits in probing order with each hit's request, at most one per hit, and a distribution that did not throw called every hit: non-2xx responses and I/O failures never stop later probes |
| GroupManagement.AllHitsPosted | src/main/java/com/adr/hellobridge/GroupManagers.java:105-117 | with a URL and a client that never throws unchecked, there is one call per hit, in probe order, each with that hit's request, and nothing escapes |
| GroupManagement.MessageDelivered | src/main/java/com/adr/hellobridge/GroupManagers.java:58-96 | with a webhook URL and a client that never fails unchecked, a message makes one call per subscribed key among the topic, its enclosing `/#` keys and `#`, in that order; each call has the key's URL and the payload in that key's format |
| GroupManagement.CatchAll | src/main/java/com/adr/hellobridge/GroupManagers.java:63-72 | a lone `#` subscription receives every message without `#` in its topic exactly once |
| GroupManagement.KitchenHits | src/main/java/com/adr/hellobridge/GroupManagers.java:53-80 | with subscriptions on the lamp's topic and on `home/#`, both are hits for the lamp's topic, lamp first |
| GroupManagement.KitchenLight | src/main/java/com/adr/hellobridge/GroupManagers.java:88-96 | with a webhook URL and a client that never fails unchecked, the lamp receives `on` and the home receives `base64:b24=`, in that order |
| GroupManagement.GroupManagers.DistributeWildcard | src/main/java/com/adr/hellobridge/GroupManagers.java:74-118 | appends to `sent` exactly the calls of `Dispatch` for the key, and reports whether it threw |
| GroupManagement.GroupManagers.DistributeRecursive | src/main/java/com/adr/hellobridge/GroupManagers.java:63-72 | appends exactly the calls of probing `WildcardKeys(topic, starting)`, and reports whether it threw |
| GroupManagement.GroupManagers.DistributeMessage | src/main/java/com/adr/hellobridge/GroupManagers.java:58-61 | appends exactly the calls of probing `CandidateKeys(topic)` (see `MessageDelivered`), and reports whether it threw |
| Bridge.EndpointOf | src/main/java/com/adr/hellobridge/Main.java:153-156 | an endpoint exists exactly when `mqtt.port` (default `1883`) parses, and its port is a 32-bit integer |
| Bridge.SchemeOfUrl | src/main/java/com/adr/hellobridge/Main.java:157-159 | a recognised URL starts with the scheme of the switches it reports, followed by `://` |
| Bridge.SchemeRecognised | src/main/java/com/adr/hellobridge/Main.java:157-159 | each of `tcp`, `ssl`, `ws` and `wss` is read back as the switches that chose it |
| Bridge.BrokerUrlParses | src/main/java/com/adr/hellobridge/Main.java:177 | reading the broker URL back gives the whole endpoint: switches, host (even one with a colon) and port |
| Bridge.TlsScheme | src/main/java/com/adr/hellobridge/Main.java:157-177 | the URL starts with `ssl://` or `wss://` exactly when `mqtt.ssl` is on |
| Bridge.SslPropertiesContents | src/main/java/com/adr/hellobridge/Main.java:160-176 | the protocol is always set (default `TLSv1.2`); a store's file, password and `JKS` type are set exactly when its file is non-empty, and nothing else is set |
| Bridge.SettingsAgree | src/main/java/com/adr/hellobridge/Main.java:151-189 | the URL reads back as the configured endpoint; the SSL properties are passed exactly when the scheme is a TLS one, and they are `SslProperties(config)` |
| Bridge.DefaultSettings | src/main/java/com/adr/hellobridge/Main.java:151-189 | with no properties: `tcp://localhost:1883`, empty user and password, client `MQTTBridge`, 30, 60, quality of service 1, version 0, 10 in flight, no SSL |
| Bridge.WebSettingsOf | src/main/java/com/adr/hellobridge/Main.java:64-65 | the settings exist exactly when `web.port` (default `8080`) parses |
| Bridge.DefaultWebSettings | src/main/java/com/adr/hellobridge/Main.java:64-65 | with no properties: port 8080 and token `HELLOBRIDGE` |
| Bridge.BasicHeaderChecked | src/main/java/com/adr/hellobridge/Main.java:124-138 | a Basic header built from a user and a password passes exactly when `user:password` is `mqtt:` followed by the token, and is halted with 401 otherwise |
| Bridge.OnlyMqttUser | src/main/java/com/adr/hellobridge/Main.java:131 | for a user name without a colon, the credentials match exactly when the user is `mqtt` and the password is the token |
| Bridge.Unauthorized | src/main/java/com/adr/hellobridge/Main.java:124-138 | no header, a scheme other than Basic, or decodable credentials other than `mqtt:<token>` gives 401 |
| Bridge.MalformedCredentials | src/main/java/com/adr/hellobridge/Main.java:130 | credentials with a character outside the Base64 alphabet make the filter throw |
| Bridge.NoPublishWithoutToken | src/main/java/com/adr/hellobridge/Main.java:124-138 | a request reaches the route only with a Basic header whose credentials decode to `mqtt:` followed by the token |
| Bridge.RouteReplies | src/main/java/com/adr/hellobridge/Main.java:73-122 | every reply is JSON with status 200, 400 or 500; it succeeds exactly with 200, which means the broker published; 500 means the broker failed; a publication is attempted only for a one-element splat, on that topic |
| Bridge.RouteRejects | src/main/java/com/adr/hellobridge/Main.java:76-116 | a splat that is not one element gives 400 `Empty topic.`; unparsable JSON gives 400 `Body must be a valid JSON.`; a body nested too deeply for the parser gives 400 `Body must be a valid MQTT message.`, since Gson raises a plain `JsonParseException` there; a non-object gives 400 `Body must be a valid MQTT message.`; a publication is attempted for an object exactly when the object can be read |
| Bridge.ReadRequestIgnoresOthers | src/main/java/com/adr/hellobridge/Main.java:89-91 | two bodies that bind `qos`, `message` and `retained` last to the same values are read alike, whatever else they hold |
| Bridge.ReadRequestRejects | src/main/java/com/adr/hellobridge/Main.java:89-91 | reading a body fails, so the route answers 400 `Body must be a valid MQTT message.`, when `message` is missing, null, an object or an array of other than one element, when `qos` is null, an object or a boolean, and when `retained` is null or an object |
| Bridge.WebhookBodyRepublished | src/main/java/com/adr/hellobridge/Main.java:86-95 | a webhook body in Base64 format, posted back to `/<topic>` for the event's topic, republishes to that topic the event's payload and retained flag, with its quality of service when above 0 and -1 otherwise |
| Bridge.ReadOwnKinds | src/main/java/com/adr/hellobridge/Main.java:89-91 | a `message` string that decodes, with `qos` and `retained` absent or of their own kind, is read as that payload with those values or their defaults -1 and false |

## Left out

- `ManagerMQTT.java` is not part of this model: the Paho client, connecting, subscribing and its callbacks. An arriving message is a call to `DistributeMessage`, and publishing is the function `broker`, which reports success, `MqttException` or another exception.
- The HTTP client (OkHttp) is a function from the attempt number and the request to an outcome. Its URL validation is part of that function: the model does not say which URLs `Request.Builder.url` rejects, only that such a rejection is an unchecked outcome recorded in `sent`. Response bodies, closing, and the media type `application/json; charset=utf-8` are not modelled.
- Logging throughout is not modelled, including the warning about the default token (`Main.java` lines 66-68).
- Gson's parser is not modelled: the parsed body is an input (`ParsedBody`). Which bodies are nested too deeply for the stack or memory (`TooDeep`) is not modelled. Gson's `toString` of the reply and of the webhook body is not modelled either; both are member sequences.
- JSON numbers are integers. Decimal numbers and Gson's lenient string-to-number coercions beyond decimal integer text are not modelled.
- Spark is not modelled: the server, routing and `splat`. The splat is an input. `halt(401)` is `Halt(401)`. An exception thrown inside the filter, from malformed Base64 credentials, is the outcome `Failure`, and the 500 page Spark then serves is not modelled.
- Bridge.Authorize: decodes the credentials as UTF-8, while the source uses the platform's default charset (`Main.java` line 130).
- Strings are sequences of Unicode scalar values, not UTF-16 code units. Unpaired surrogates are not modelled. Every index the engine computes is at a `/`, which is one unit in both.
- Utf8.Decode: replaces each maximal ill-formed subpart with U+FFFD. JDK versions differ on how many replacement characters they produce, and the proved properties only use that ill-formed input does not round-trip.
- Text.ParseInt: accepts ASCII digits only, while `Integer.parseInt` also accepts digits of other scripts. The defaults and every number the bridge prints are ASCII.
- Loading the properties file and the process bootstrap (`Main.main`, `getConfig`) are not modelled. The configuration is a map.
- Threading is not modelled. One distribution runs at a time over a table that does not change after construction.
- Bridge.DefaultSettings: takes the Paho defaults `CONNECTION_TIMEOUT_DEFAULT`, `KEEP_ALIVE_INTERVAL_DEFAULT`, `MQTT_VERSION_DEFAULT` and `MAX_INFLIGHT_DEFAULT` as 30, 60, 0 and 10. That library is not part of this model.
- How the MQTT client uses its settings, and the mismatch between the ten arguments `createManagerMQTT` passes and `ManagerMQTT`'s constructor, are not modelled. `ManagerSettings` only says what is passed.
- The `manager.publish(topic, qos, message, retained)` call (`Main.java` line 95) has no matching overload in the code shown. It is abstracted as `broker`, and its mapping of quality of service -1 to a configured default is not modelled.
- Table construction from `mqtt.topic.<id>` properties is not modelled. The constructor takes the definitions.
- The `UnsupportedEncodingException` branch (`GroupManagers.java` lines 113-114) is not modelled, because it cannot occur for `UTF-8`.
- `EventMessage.getMessage` returns the stored array itself. The payload is an immutable sequence, so aliasing is not modelled.
- Java `int` fields of the envelope and subscriptions (qos, format) are unbounded integers. The code never computes with them, so no wrap-around is possible.
