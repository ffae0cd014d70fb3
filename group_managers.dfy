/**
 * `GroupManagers`: the table of subscriptions keyed by topic pattern and the distribution
 * of one incoming MQTT message to the webhooks of every pattern that matches its topic.
 *
 * The HTTP client is a parameter (`client`) that reports the outcome of the n-th call; the
 * object records every call it makes in `sent`.  An unchecked exception is returned as the
 * flag `thrown`, after which no further call is made.
 */
module GroupManagement {
  import opened Wrappers
  import opened EventMessages
  import opened Subscriptions
  import opened Webhooks
  import opened Probes
  import opened Json

  /** One call made: the request and what the client reported. */
  datatype Delivery = Delivery(post: Post, outcome: Outcome)

  /** The calls made so far and whether an unchecked exception escaped. */
  datatype Run = Run(log: seq<Delivery>, thrown: bool)

  /** The HTTP client: the outcome of call number `n` for a request. */
  type Client = (nat, Post) -> Outcome

  /** The request built for each table key; `None` when no webhook URL is configured. */
  type Requests = Option<string -> Post>

  /** The format a table key's subscription asks for. */
  function FormatOf(subs: map<string, SubscriptionDefinition>, key: string): int {
    if key in subs then subs[key].format else PLAIN
  }

  /** The requests `distributeWilcardMessage` builds for a message. */
  function RequestsFor(url: Option<string>, subs: map<string, SubscriptionDefinition>,
                       message: EventMessage): Requests
  {
    if url.None? then None
    else Some((key: string) => PostFor(url.value, key, message, FormatOf(subs, key)))
  }

  /** The table built by the constructor: one entry per topic, the last definition wins. */
  function Table(subs: seq<SubscriptionDefinition>): (t: map<string, SubscriptionDefinition>)
    ensures forall k :: k in t ==> t[k].topic == k
  {
    if subs == [] then map[]
    else Table(subs[..|subs| - 1])[subs[|subs| - 1].topic := subs[|subs| - 1]]
  }

  /** A topic is in the table exactly when some definition has it, and it maps to the last one. */
  lemma TableLastWins(subs: seq<SubscriptionDefinition>, k: string)
    ensures k in Table(subs) <==> exists i :: 0 <= i < |subs| && subs[i].topic == k
    ensures k in Table(subs) ==>
      exists i :: 0 <= i < |subs| && Table(subs)[k] == subs[i] &&
        forall j :: i < j < |subs| ==> subs[j].topic != k
  {
    TableKeys(subs, k);
    if k in Table(subs) {
      TableValue(subs, k);
    }
  }

  lemma {:induction false} TableKeys(subs: seq<SubscriptionDefinition>, k: string)
    ensures k in Table(subs) <==> exists i :: 0 <= i < |subs| && subs[i].topic == k
  {
    if subs != [] {
      var n := |subs| - 1;
      var front := subs[..n];
      TableKeys(front, k);
      assert forall i :: 0 <= i < n ==> front[i] == subs[i];
      if subs[n].topic != k && exists i :: 0 <= i < |subs| && subs[i].topic == k {
        var i :| 0 <= i < |subs| && subs[i].topic == k;
        assert front[i].topic == k;
      }
    }
  }

  lemma {:induction false} TableValue(subs: seq<SubscriptionDefinition>, k: string)
    requires k in Table(subs)
    ensures exists i :: 0 <= i < |subs| && Table(subs)[k] == subs[i] &&
                        forall j :: i < j < |subs| ==> subs[j].topic != k
  {
    var n := |subs| - 1;
    if subs[n].topic == k {
      assert Table(subs)[k] == subs[n];
    } else {
      var front := subs[..n];
      assert Table(subs) == Table(front)[subs[n].topic := subs[n]];
      assert k in Table(front) && Table(subs)[k] == Table(front)[k];
      TableValue(front, k);
      var i :| 0 <= i < |front| && Table(front)[k] == front[i] &&
        forall j :: i < j < |front| ==> front[j].topic != k;
      assert Table(subs)[k] == subs[i];
      assert forall j :: i < j < n ==> subs[j] == front[j];
    }
  }

  /** The keys of `keys` that have a subscription, in order. */
  function Hits(subs: map<string, SubscriptionDefinition>, keys: seq<string>): (h: seq<string>)
    ensures |h| <= |keys|
  {
    if keys == [] then []
    else (if keys[0] in subs then [keys[0]] else []) + Hits(subs, keys[1..])
  }

  /** The hits are exactly the probed keys that have a subscription. */
  lemma {:induction false} HitsMembers(subs: map<string, SubscriptionDefinition>, keys: seq<string>, k: string)
    ensures k in Hits(subs, keys) <==> k in keys && k in subs
    decreases |keys|
  {
    if keys != [] {
      HitsMembers(subs, keys[1..], k);
      assert keys == [keys[0]] + keys[1..];
    }
  }

  /**
   * `distributeWilcardMessage` for one table key after `calls` calls: nothing for a key
   * without a subscription; for a hit, a missing webhook URL is a `NullPointerException`,
   * otherwise one call is made and recorded, and an unchecked outcome propagates.
   */
  function Dispatch(subs: map<string, SubscriptionDefinition>, key: string, requests: Requests,
                    client: Client, calls: nat): (r: Run)
    ensures |r.log| <= 1
  {
    if key !in subs then Run([], false)
    else if requests.None? then Run([], true)
    else
      var p := requests.value(key);
      Run([Delivery(p, client(calls, p))], client(calls, p).Unchecked?)
  }

  /** Two runs one after the other: the second happens only when the first did not throw. */
  function Then(first: Run, second: Run): Run {
    if first.thrown then first else Run(first.log + second.log, second.thrown)
  }

  /** Probing `keys` in order after `calls` calls; the result holds the new calls only. */
  function Attempt(subs: map<string, SubscriptionDefinition>, keys: seq<string>, requests: Requests,
                   client: Client, calls: nat): Run
    decreases |keys|
  {
    if keys == [] then Run([], false)
    else
      var first := Dispatch(subs, keys[0], requests, client, calls);
      Then(first, Attempt(subs, keys[1..], requests, client, calls + |first.log|))
  }

  /** Probing `[key] + keys` is dispatching `key` and then, unless it threw, probing `keys`. */
  lemma AttemptCons(subs: map<string, SubscriptionDefinition>, key: string, keys: seq<string>,
                    requests: Requests, client: Client, calls: nat, next: nat)
    requires next == calls + |Dispatch(subs, key, requests, client, calls).log|
    ensures Attempt(subs, [key] + keys, requests, client, calls) ==
      Then(Dispatch(subs, key, requests, client, calls), Attempt(subs, keys, requests, client, next))
  {
    assert ([key] + keys)[1..] == keys;
  }

  /** At most one call is made per hit. */
  lemma {:induction false} AttemptBound(subs: map<string, SubscriptionDefinition>, keys: seq<string>,
                                        requests: Requests, client: Client, calls: nat)
    ensures |Attempt(subs, keys, requests, client, calls).log| <= |Hits(subs, keys)|
    decreases |keys|
  {
    if keys != [] {
      var first := Dispatch(subs, keys[0], requests, client, calls);
      AttemptBound(subs, keys[1..], requests, client, calls + |first.log|);
    }
  }

  /** Running three runs in sequence does not depend on how they are grouped. */
  lemma ThenAssociative(x: Run, y: Run, z: Run)
    ensures Then(x, Then(y, z)) == Then(Then(x, y), z)
  {
    if !x.thrown && !y.thrown {
      assert x.log + (y.log + z.log) == (x.log + y.log) + z.log;
    }
  }

  /** Probing `a + b` is probing `a` and then, unless it threw, probing `b`. */
  lemma {:induction false} AttemptConcat(subs: map<string, SubscriptionDefinition>, a: seq<string>,
                                         b: seq<string>, requests: Requests, client: Client, calls: nat)
    ensures var r := Attempt(subs, a, requests, client, calls);
      Attempt(subs, a + b, requests, client, calls) ==
      Then(r, Attempt(subs, b, requests, client, calls + |r.log|))
    decreases |a|
  {
    if a == [] {
      var last := Attempt(subs, b, requests, client, calls);
      assert a + b == b && [] + last.log == last.log;
      assert Attempt(subs, a, requests, client, calls) == Run([], false);
    } else {
      var first := Dispatch(subs, a[0], requests, client, calls);
      var next := calls + |first.log|;
      var rest := Attempt(subs, a[1..], requests, client, next);
      var r := Attempt(subs, a, requests, client, calls);
      assert r == Then(first, rest);
      assert Attempt(subs, a + b, requests, client, calls) ==
        Then(first, Attempt(subs, a[1..] + b, requests, client, next)) by {
        assert (a + b)[0] == a[0] && (a + b)[1..] == a[1..] + b;
      }
      if !first.thrown {
        var last := Attempt(subs, b, requests, client, next + |rest.log|);
        assert calls + |r.log| == next + |rest.log|;
        assert Attempt(subs, a[1..] + b, requests, client, next) == Then(rest, last) by {
          AttemptConcat(subs, a[1..], b, requests, client, next);
        }
        ThenAssociative(first, rest, last);
      }
    }
  }

  /** Without a webhook URL nothing is sent, and the run throws exactly when some key is a hit. */
  lemma {:induction false} MissingUrl(subs: map<string, SubscriptionDefinition>, keys: seq<string>,
                                      client: Client, calls: nat)
    ensures Attempt(subs, keys, None, client, calls) == Run([], |Hits(subs, keys)| > 0)
    decreases |keys|
  {
    if keys != [] && keys[0] !in subs {
      MissingUrl(subs, keys[1..], client, calls);
    }
  }

  /** Every recorded outcome is what the client reported for that call. */
  predicate Faithful(log: seq<Delivery>, client: Client, calls: nat) {
    forall j :: 0 <= j < |log| ==> log[j].outcome == client(calls + j, log[j].post)
  }

  /** A dispatch records the outcome the client reported for its call. */
  lemma DispatchFaithful(subs: map<string, SubscriptionDefinition>, key: string, requests: Requests,
                         client: Client, calls: nat)
    ensures Faithful(Dispatch(subs, key, requests, client, calls).log, client, calls)
  {
  }

  /** Calls recorded faithfully, followed by the next calls recorded faithfully. */
  lemma FaithfulConcat(a: seq<Delivery>, b: seq<Delivery>, client: Client, calls: nat)
    requires Faithful(a, client, calls) && Faithful(b, client, calls + |a|)
    ensures Faithful(a + b, client, calls)
  {
    forall j | 0 <= j < |a + b| ensures (a + b)[j].outcome == client(calls + j, (a + b)[j].post) {
      if j >= |a| {
        assert (a + b)[j] == b[j - |a|];
      }
    }
  }

  /** With a webhook URL, a dispatch throws exactly when its call was unchecked. */
  lemma DispatchThrows(subs: map<string, SubscriptionDefinition>, key: string, request: string -> Post,
                       client: Client, calls: nat)
    ensures var d := Dispatch(subs, key, Some(request), client, calls);
      d.thrown <==> |d.log| == 1 && d.log[0].outcome.Unchecked?
  {
  }

  /**
   * A dispatch calls exactly when the key has a subscription and a webhook URL is configured,
   * and then sends the request built for that key.
   */
  lemma DispatchCalls(subs: map<string, SubscriptionDefinition>, key: string, requests: Requests,
                      client: Client, calls: nat)
    ensures var d := Dispatch(subs, key, requests, client, calls);
      (|d.log| == 1 <==> key in subs && requests.Some?) &&
      (|d.log| == 1 ==> d.log[0].post == requests.value(key)) &&
      (key in subs && requests.None? ==> d.thrown)
  {
  }

  /** Every call made is recorded with the outcome the client reported for it. */
  lemma {:induction false} AttemptFaithful(subs: map<string, SubscriptionDefinition>, keys: seq<string>,
                                           requests: Requests, client: Client, calls: nat)
    ensures Faithful(Attempt(subs, keys, requests, client, calls).log, client, calls)
    decreases |keys|
  {
    if keys != [] {
      var first := Dispatch(subs, keys[0], requests, client, calls);
      DispatchFaithful(subs, keys[0], requests, client, calls);
      if !first.thrown {
        var n := |first.log|;
        var rest := Attempt(subs, keys[1..], requests, client, calls + n);
        assert Attempt(subs, keys, requests, client, calls).log == first.log + rest.log;
        AttemptFaithful(subs, keys[1..], requests, client, calls + n);
        FaithfulConcat(first.log, rest.log, client, calls);
      }
    }
  }

  /** No call before the last one was unchecked, and the run threw exactly when the last one was. */
  predicate StopsAtUnchecked(r: Run) {
    (forall j :: 0 <= j < |r.log| - 1 ==> !r.log[j].outcome.Unchecked?) &&
    (r.thrown <==> |r.log| > 0 && r.log[|r.log| - 1].outcome.Unchecked?)
  }

  /** With a webhook URL, a run throws exactly when its last call was unchecked, and no earlier call was. */
  lemma {:induction false} AttemptStopsAtUnchecked(subs: map<string, SubscriptionDefinition>, keys: seq<string>,
                                                   request: string -> Post, client: Client, calls: nat)
    ensures StopsAtUnchecked(Attempt(subs, keys, Some(request), client, calls))
    decreases |keys|
  {
    if keys != [] {
      var first := Dispatch(subs, keys[0], Some(request), client, calls);
      var n := |first.log|;
      var rest := Attempt(subs, keys[1..], Some(request), client, calls + n);
      assert Attempt(subs, keys, Some(request), client, calls) == Then(first, rest);
      DispatchThrows(subs, keys[0], request, client, calls);
      if !first.thrown {
        AttemptStopsAtUnchecked(subs, keys[1..], request, client, calls + n);
        ThenStops(first, rest);
      }
    }
  }

  /** A run that made no unchecked call, followed by one that stops at its unchecked call, stops there too. */
  lemma ThenStops(first: Run, rest: Run)
    requires !first.thrown && forall j :: 0 <= j < |first.log| ==> !first.log[j].outcome.Unchecked?
    requires StopsAtUnchecked(rest)
    ensures StopsAtUnchecked(Then(first, rest))
  {
    var log := first.log + rest.log;
    var n := |first.log|;
    forall j | 0 <= j < |log| - 1 ensures !log[j].outcome.Unchecked? {
      if j >= n {
        assert log[j] == rest.log[j - n];
      }
    }
    if |rest.log| > 0 {
      assert log[|log| - 1] == rest.log[|rest.log| - 1];
    }
  }

  /**
   * With a webhook URL and any client, the calls go to the hits in probing order, one each,
   * and a run that did not throw reached every hit: an outcome that does not throw never
   * ends the distribution early.
   */
  lemma {:induction false} AttemptFollowsHits(subs: map<string, SubscriptionDefinition>, keys: seq<string>,
                                              request: string -> Post, client: Client, calls: nat)
    ensures var r := Attempt(subs, keys, Some(request), client, calls);
      var h := Hits(subs, keys);
      |r.log| <= |h| &&
      (forall i :: 0 <= i < |r.log| ==> r.log[i].post == request(h[i])) &&
      (!r.thrown ==> |r.log| == |h|)
    decreases |keys|
  {
    if keys != [] {
      var first := Dispatch(subs, keys[0], Some(request), client, calls);
      var h := Hits(subs, keys[1..]);
      AttemptFollowsHits(subs, keys[1..], request, client, calls + |first.log|);
      var rest := Attempt(subs, keys[1..], Some(request), client, calls + |first.log|);
      assert Attempt(subs, keys, Some(request), client, calls) == Then(first, rest);
      assert Hits(subs, keys) == (if keys[0] in subs then [keys[0]] else []) + h;
      if keys[0] in subs && !first.thrown {
        forall i | 1 <= i < |rest.log| + 1
          ensures (first.log + rest.log)[i] == rest.log[i - 1] && ([keys[0]] + h)[i] == h[i - 1]
        {
        }
      }
    }
  }

  /**
   * With a webhook URL and a client that never throws, one call is made per hit, in probing
   * order, each with the request built for that hit.
   */
  lemma {:induction false} AllHitsPosted(subs: map<string, SubscriptionDefinition>, keys: seq<string>,
                                         request: string -> Post, client: Client, calls: nat)
    requires forall n: nat, p: Post :: !client(n, p).Unchecked?
    ensures var r := Attempt(subs, keys, Some(request), client, calls);
      var h := Hits(subs, keys);
      !r.thrown && |r.log| == |h| &&
      forall i :: 0 <= i < |h| ==> r.log[i].post == request(h[i])
    decreases |keys|
  {
    if keys != [] {
      var first := Dispatch(subs, keys[0], Some(request), client, calls);
      var h := Hits(subs, keys[1..]);
      AllHitsPosted(subs, keys[1..], request, client, calls + |first.log|);
      var rest := Attempt(subs, keys[1..], Some(request), client, calls + |first.log|);
      assert Hits(subs, keys) == (if keys[0] in subs then [keys[0]] else []) + h;
      if keys[0] in subs {
        forall i | 1 <= i < |h| + 1
          ensures (first.log + rest.log)[i] == rest.log[i - 1] && ([keys[0]] + h)[i] == h[i - 1]
        {
        }
      }
    }
  }

  /**
   * The webhooks a message reaches: with a webhook URL and a client that never throws, one call
   * per subscribed key among the topic, its enclosing `/#` patterns and `#`, in that order, each
   * with the key's URL and the payload in that key's format.
   */
  lemma MessageDelivered(url: string, subs: map<string, SubscriptionDefinition>, message: EventMessage,
                         client: Client, calls: nat)
    requires forall n: nat, p: Post :: !client(n, p).Unchecked?
    ensures var r := Attempt(subs, CandidateKeys(message.topic), RequestsFor(Some(url), subs, message), client, calls);
      var h := Hits(subs, CandidateKeys(message.topic));
      !r.thrown && |r.log| == |h| &&
      (forall i :: 0 <= i < |h| ==> h[i] in subs && r.log[i].post == PostFor(url, h[i], message, subs[h[i]].format)) &&
      (forall key :: key in h <==> (key in subs &&
        (key == message.topic || key == "#" ||
         exists i :: 0 <= i < |message.topic| && message.topic[i] == '/' && key == message.topic[..i] + "/#")))
  {
    var keys := CandidateKeys(message.topic);
    var request := (key: string) => PostFor(url, key, message, FormatOf(subs, key));
    assert RequestsFor(Some(url), subs, message) == Some(request);
    AllHitsPosted(subs, keys, request, client, calls);
    var h := Hits(subs, keys);
    forall i | 0 <= i < |h| ensures h[i] in subs {
      HitsMembers(subs, keys, h[i]);
    }
    forall key ensures key in h <==> (key in subs &&
      (key == message.topic || key == "#" ||
       exists i :: 0 <= i < |message.topic| && message.topic[i] == '/' && key == message.topic[..i] + "/#"))
    {
      HitsMembers(subs, keys, key);
      ProbedKeys(message.topic, key);
    }
  }

  /** With a single subscription, only its key is a hit, as often as it is probed. */
  lemma {:induction false} HitsOfLastKey(k: string, sub: SubscriptionDefinition, keys: seq<string>)
    requires |keys| > 0 && keys[|keys| - 1] == k
    requires forall j :: 0 <= j < |keys| - 1 ==> keys[j] != k
    ensures Hits(map[k := sub], keys) == [k]
    decreases |keys|
  {
    if |keys| > 1 {
      HitsOfLastKey(k, sub, keys[1..]);
    } else {
      assert keys[1..] == [];
    }
  }

  /**
   * A subscription to `#` alone receives every message exactly once: one call with the body in
   * its format, whatever the topic, as long as the topic holds no `#` (no published topic does).
   */
  lemma CatchAll(url: string, sub: SubscriptionDefinition, message: EventMessage, client: Client, calls: nat)
    requires '#' !in message.topic
    requires forall n: nat, p: Post :: !client(n, p).Unchecked?
    ensures var subs := map["#" := sub];
      var r := Attempt(subs, CandidateKeys(message.topic), RequestsFor(Some(url), subs, message), client, calls);
      |r.log| == 1 && !r.thrown && r.log[0].post == PostFor(url, "#", message, sub.format)
  {
    var keys := CandidateKeys(message.topic);
    ProbeOrder(message.topic);
    ProbesDistinct(message.topic);
    HitsOfLastKey("#", sub, keys);
    MessageDelivered(url, map["#" := sub], message, client, calls);
  }

  /** The lamp's subscription and the whole home's, in the table. */
  function KitchenTable(): map<string, SubscriptionDefinition> {
    Table([SubscriptionDefinition("lamp", "home/kitchen/light", PLAIN, 0),
           SubscriptionDefinition("home", "home/#", FORMAT_BASE64, 0)])
  }

  /** The table holds the two definitions under their topics. */
  lemma KitchenTableEntries()
    ensures KitchenTable() == map["home/kitchen/light" := SubscriptionDefinition("lamp", "home/kitchen/light", PLAIN, 0),
                                  "home/#" := SubscriptionDefinition("home", "home/#", FORMAT_BASE64, 0)]
  {
    var lamp := SubscriptionDefinition("lamp", "home/kitchen/light", PLAIN, 0);
    var home := SubscriptionDefinition("home", "home/#", FORMAT_BASE64, 0);
    assert [lamp, home][..1] == [lamp] && [lamp][..0] == [];
    assert Table([lamp]) == map[][lamp.topic := lamp];
  }

  /** Of the keys probed for the lamp's topic, the lamp's own and `home/#` are subscribed. */
  lemma KitchenHits()
    ensures "home/kitchen/light" in KitchenTable() && KitchenTable()["home/kitchen/light"].format == PLAIN
    ensures "home/#" in KitchenTable() && KitchenTable()["home/#"].format == FORMAT_BASE64
    ensures Hits(KitchenTable(), CandidateKeys("home/kitchen/light")) == ["home/kitchen/light", "home/#"]
  {
    var subs := KitchenTable();
    KitchenTableEntries();
    assert "home/kitchen/#" !in subs by {
      assert "home/kitchen/#"[13] != "home/kitchen/light"[13];
    }
    KitchenLightKeys();
    var keys := ["home/kitchen/light", "home/kitchen/#", "home/#", "#"];
    assert Hits(subs, keys[3..]) == [] by {
      assert keys[3..][1..] == [];
    }
    assert Hits(subs, keys[2..]) == ["home/#"] by {
      assert keys[2..][1..] == keys[3..];
    }
    assert Hits(subs, keys[1..]) == ["home/#"] by {
      assert keys[1..][1..] == keys[2..];
    }
  }

  /**
   * A lamp subscribed in plain text and its whole home in Base64: a message `on` on the lamp's
   * topic reaches the lamp first, as `on`, and the home second, as `base64:b24=`.
   */
  lemma KitchenLight(url: string, client: Client)
    requires forall n: nat, p: Post :: !client(n, p).Unchecked?
    ensures var message := EventMessage("home/kitchen/light", [0x6f, 0x6e], 0, false);
      var r := Attempt(KitchenTable(), CandidateKeys(message.topic), RequestsFor(Some(url), KitchenTable(), message), client, 0);
      |r.log| == 2 && !r.thrown &&
      Get(r.log[0].post.body, "message") == Some(JString("on")) &&
      Get(r.log[1].post.body, "message") == Some(JString("base64:b24="))
  {
    var subs := KitchenTable();
    var message := EventMessage("home/kitchen/light", [0x6f, 0x6e], 0, false);
    var keys := CandidateKeys(message.topic);
    KitchenHits();
    var request := (key: string) => PostFor(url, key, message, FormatOf(subs, key));
    assert RequestsFor(Some(url), subs, message) == Some(request);
    AllHitsPosted(subs, keys, request, client, 0);
    BodyFields(message, PLAIN);
    BodyFields(message, FORMAT_BASE64);
    OnFormatted();
  }

  class GroupManagers {
    /** The `webhook.url` property; `None` when it is not configured. */
    const url: Option<string>
    /** The HTTP client. */
    const client: Client
    /** Subscription definitions keyed by their topic pattern. */
    const subscriptions: map<string, SubscriptionDefinition>
    /** The calls made so far. */
    var sent: seq<Delivery>

    /** Registers every definition under its topic; a later definition replaces an earlier one. */
    constructor (webhookUrl: Option<string>, subs: seq<SubscriptionDefinition>, http: Client)
      ensures url == webhookUrl && client == http
      ensures subscriptions == Table(subs)
      ensures sent == []
    {
      url := webhookUrl;
      client := http;
      var table := map[];
      var i := 0;
      while i < |subs|
        invariant 0 <= i <= |subs|
        invariant table == Table(subs[..i])
      {
        assert subs[..i + 1][..i] == subs[..i];
        table := table[subs[i].topic := subs[i]];
        i := i + 1;
      }
      assert subs[..|subs|] == subs;
      subscriptions := table;
      sent := [];
    }

    /** `distributeWilcardMessage`: the call, if any, for one table key. */
    method DistributeWildcard(key: string, message: EventMessage) returns (thrown: bool)
      modifies this`sent
      ensures var r := Dispatch(subscriptions, key, RequestsFor(url, subscriptions, message), client, |old(sent)|);
        sent == old(sent) + r.log && thrown == r.thrown
    {
      thrown := false;
      if key !in subscriptions {
        return;
      }
      if url.None? {
        thrown := true;
        return;
      }
      var post := PostFor(url.value, key, message, subscriptions[key].format);
      var outcome := client(|sent|, post);
      sent := sent + [Delivery(post, outcome)];
      thrown := outcome.Unchecked?;
    }

    /** `distributeRecursiveMessage`: the wildcard keys from the last `/` at or before `starting`. */
    method DistributeRecursive(starting: int, message: EventMessage) returns (thrown: bool)
      modifies this`sent
      ensures var r := Attempt(subscriptions, WildcardKeys(message.topic, starting),
                               RequestsFor(url, subscriptions, message), client, |old(sent)|);
        sent == old(sent) + r.log && thrown == r.thrown
      decreases starting + 1
    {
      var topic := message.topic;
      var i := LastIndexOf(topic, '/', starting);
      ghost var requests := RequestsFor(url, subscriptions, message);
      ghost var before := sent;
      var key := if i < 0 then "#" else topic[..i] + "/#";
      ghost var rest := if i < 0 then [] else WildcardKeys(topic, i - 1);
      assert WildcardKeys(topic, starting) == [key] + rest;
      ghost var first := Dispatch(subscriptions, key, requests, client, |before|);
      thrown := DistributeWildcard(key, message);
      ghost var middle := sent;
      AttemptCons(subscriptions, key, rest, requests, client, |before|, |middle|);
      ghost var after := Attempt(subscriptions, rest, requests, client, |middle|);
      if !thrown {
        if i >= 0 {
          thrown := DistributeRecursive(i - 1, message);
        } else {
          assert after == Run([], false);
        }
        Chained(before, middle, sent, first, after);
      }
    }

    /** `distributeMessage`: the exact topic, then every enclosing `/#` pattern, then `#`. */
    method DistributeMessage(message: EventMessage) returns (thrown: bool)
      modifies this`sent
      ensures var r := Attempt(subscriptions, CandidateKeys(message.topic),
                               RequestsFor(url, subscriptions, message), client, |old(sent)|);
        sent == old(sent) + r.log && thrown == r.thrown
    {
      ghost var requests := RequestsFor(url, subscriptions, message);
      ghost var before := sent;
      ghost var rest := WildcardKeys(message.topic, |message.topic| - 1);
      assert CandidateKeys(message.topic) == [message.topic] + rest;
      ghost var first := Dispatch(subscriptions, message.topic, requests, client, |before|);
      thrown := DistributeWildcard(message.topic, message);
      ghost var middle := sent;
      AttemptCons(subscriptions, message.topic, rest, requests, client, |before|, |middle|);
      ghost var after := Attempt(subscriptions, rest, requests, client, |middle|);
      if !thrown {
        thrown := DistributeRecursive(|message.topic| - 1, message);
        Chained(before, middle, sent, first, after);
      }
    }
  }

  /** The calls of a dispatch that did not throw followed by those of the next run. */
  lemma Chained(before: seq<Delivery>, middle: seq<Delivery>, after: seq<Delivery>, first: Run, rest: Run)
    requires middle == before + first.log && !first.thrown && after == middle + rest.log
    ensures after == before + Then(first, rest).log && Then(first, rest).thrown == rest.thrown
  {
  }
}
