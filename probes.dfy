/**
 * The keys the distribution engine (`GroupManagers`) probes.  A message arriving on topic T
 * is not matched against patterns: keys are built from T and looked up in the subscription
 * table, in a fixed order: T itself, then `T[0..i) + "/#"` for every `/` at index i from
 * right to left, then `#`.
 */
module Probes {
  import opened Text

  /** `s.lastIndexOf(c, from)`: the last index not above `from` holding `c`, or -1. */
  function LastIndexOf(s: string, c: char, from: int): (i: int)
    ensures -1 <= i < |s|
    ensures i >= 0 ==> i <= from && s[i] == c
    ensures forall j :: i < j < |s| && j <= from ==> s[j] != c
    decreases from + 1
  {
    if from >= |s| then LastIndexOf(s, c, |s| - 1)
    else if from < 0 then -1
    else if s[from] == c then from
    else LastIndexOf(s, c, from - 1)
  }

  /** The search from `from` stops at `i` when `i` holds `c` and nothing after it up to `from` does. */
  lemma LastIndexOfIs(s: string, c: char, from: int, i: int)
    requires -1 <= i <= from < |s|
    requires i >= 0 ==> s[i] == c
    requires forall j :: i < j <= from ==> s[j] != c
    ensures LastIndexOf(s, c, from) == i
  {
  }

  /** The keys `distributeRecursiveMessage(starting, ·)` probes, in order. */
  function WildcardKeys(topic: string, starting: int): (keys: seq<string>)
    ensures |keys| >= 1 && keys[|keys| - 1] == "#"
    decreases starting + 1
  {
    var i := LastIndexOf(topic, '/', starting);
    if i < 0 then ["#"] else [topic[..i] + "/#"] + WildcardKeys(topic, i - 1)
  }

  /** The keys `distributeMessage` probes for a topic, in order. */
  function CandidateKeys(topic: string): (keys: seq<string>)
  {
    [topic] + WildcardKeys(topic, |topic| - 1)
  }

  /** Reference definition: the indices of `/` below `n`, highest first. */
  function SlashesBelow(s: string, n: nat): (idx: seq<nat>)
    requires n <= |s|
    ensures forall j :: 0 <= j < |idx| ==> idx[j] < n && s[idx[j]] == '/'
    ensures forall j, k :: 0 <= j < k < |idx| ==> idx[j] > idx[k]
  {
    if n == 0 then []
    else if s[n - 1] == '/' then [n - 1] + SlashesBelow(s, n - 1)
    else SlashesBelow(s, n - 1)
  }

  /** Every `/` below `n` is listed. */
  lemma {:induction false} SlashesBelowComplete(s: string, n: nat, i: nat)
    requires i < n <= |s| && s[i] == '/'
    ensures i in SlashesBelow(s, n)
  {
    if i < n - 1 {
      SlashesBelowComplete(s, n - 1, i);
    }
  }

  /** One index per `/` below `n`. */
  lemma {:induction false} SlashesBelowCount(s: string, n: nat)
    requires n <= |s|
    ensures |SlashesBelow(s, n)| == multiset(s[..n])['/']
  {
    if n > 0 {
      assert s[..n] == s[..n - 1] + [s[n - 1]];
      SlashesBelowCount(s, n - 1);
    }
  }

  /** The wildcard key of each ancestor level, in the order of `idx`. */
  function AncestorKeys(s: string, idx: seq<nat>): (keys: seq<string>)
    requires forall j :: 0 <= j < |idx| ==> idx[j] < |s|
    ensures |keys| == |idx|
  {
    if idx == [] then [] else [s[..idx[0]] + "/#"] + AncestorKeys(s, idx[1..])
  }

  lemma {:induction false} AncestorKeyAt(s: string, idx: seq<nat>, j: nat)
    requires forall k :: 0 <= k < |idx| ==> idx[k] < |s|
    requires j < |idx|
    ensures AncestorKeys(s, idx)[j] == s[..idx[j]] + "/#"
  {
    if j > 0 {
      AncestorKeyAt(s, idx[1..], j - 1);
    }
  }

  /** No `/` in `s[m..n)` means the same slashes lie below `n` as below `m`. */
  lemma {:induction false} SlashesBelowSkip(s: string, m: nat, n: nat)
    requires m <= n <= |s|
    requires forall j :: m <= j < n ==> s[j] != '/'
    ensures SlashesBelow(s, n) == SlashesBelow(s, m)
    decreases n
  {
    if n > m {
      SlashesBelowSkip(s, m, n - 1);
    }
  }

  /** The recursion probes one wildcard key per `/` at or below `starting`, right to left, then `#`. */
  lemma {:induction false} WildcardKeysAreAncestors(topic: string, starting: int)
    requires -1 <= starting < |topic|
    ensures WildcardKeys(topic, starting) == AncestorKeys(topic, SlashesBelow(topic, starting + 1)) + ["#"]
    decreases starting + 1
  {
    var i := LastIndexOf(topic, '/', starting);
    if i < 0 {
      SlashesBelowSkip(topic, 0, starting + 1);
    } else {
      WildcardKeysAreAncestors(topic, i - 1);
      AncestorStep(topic, starting, i);
    }
  }

  /** The slash found last at or below `starting` heads the slashes and the keys below `starting + 1`. */
  lemma AncestorStep(topic: string, starting: int, i: nat)
    requires i <= starting < |topic| && i == LastIndexOf(topic, '/', starting)
    ensures SlashesBelow(topic, starting + 1) == [i] + SlashesBelow(topic, i)
    ensures AncestorKeys(topic, SlashesBelow(topic, starting + 1)) ==
      [topic[..i] + "/#"] + AncestorKeys(topic, SlashesBelow(topic, i))
  {
    var idx := SlashesBelow(topic, starting + 1);
    SlashesBelowSkip(topic, i + 1, starting + 1);
    assert idx[0] == i && idx[1..] == SlashesBelow(topic, i);
  }

  /**
   * The probe sequence: the literal topic first, then one key per `/` of the topic from
   * right to left, then `#` last; (number of `/`) + 2 probes in all.
   */
  lemma ProbeOrder(topic: string)
    ensures var keys := CandidateKeys(topic);
      && keys == [topic] + AncestorKeys(topic, SlashesBelow(topic, |topic|)) + ["#"]
      && |keys| == multiset(topic)['/'] + 2
      && keys[0] == topic && keys[|keys| - 1] == "#"
  {
    var keys := CandidateKeys(topic);
    var anc := AncestorKeys(topic, SlashesBelow(topic, |topic|));
    assert keys == [topic] + anc + ["#"] by {
      WildcardKeysAreAncestors(topic, |topic| - 1);
    }
    assert |anc| == multiset(topic)['/'] by {
      SlashesBelowCount(topic, |topic|);
      assert topic[..|topic|] == topic;
    }
  }

  /** A key is probed exactly when it is the topic, `#`, or the part before one of its `/` followed by `/#`. */
  lemma ProbedKeys(topic: string, key: string)
    ensures key in CandidateKeys(topic) <==>
      key == topic || key == "#" || exists i :: 0 <= i < |topic| && topic[i] == '/' && key == topic[..i] + "/#"
  {
    ProbeOrder(topic);
    var idx := SlashesBelow(topic, |topic|);
    var anc := AncestorKeys(topic, idx);
    assert CandidateKeys(topic) == [topic] + anc + ["#"];
    if exists i :: 0 <= i < |topic| && topic[i] == '/' && key == topic[..i] + "/#" {
      var i :| 0 <= i < |topic| && topic[i] == '/' && key == topic[..i] + "/#";
      SlashesBelowComplete(topic, |topic|, i);
      var j :| 0 <= j < |idx| && idx[j] == i;
      AncestorKeyAt(topic, idx, j);
      assert anc[j] == key;
    }
    if key in anc {
      var j :| 0 <= j < |anc| && anc[j] == key;
      AncestorKeyAt(topic, idx, j);
      assert topic[idx[j]] == '/';
    }
  }

  /** Each wildcard key probed names a strict ancestor level: the topic lies beneath its prefix. */
  lemma WildcardKeysAreStrictAncestors(topic: string, j: nat)
    requires 0 < j < |CandidateKeys(topic)| - 1
    ensures var key := CandidateKeys(topic)[j];
      |key| >= 2 && key[|key| - 2..] == "/#" && StartsWith(topic, key[..|key| - 1])
  {
    ProbeOrder(topic);
    var idx := SlashesBelow(topic, |topic|);
    var anc := AncestorKeys(topic, idx);
    var keys := CandidateKeys(topic);
    assert keys == [topic] + anc + ["#"];
    assert keys[j] == anc[j - 1];
    var i := idx[j - 1];
    AncestorKeyAt(topic, idx, j - 1);
    var key := keys[j];
    assert key == topic[..i] + "/#";
    assert key[..|key| - 1] == topic[..i + 1];
  }

  /** A topic without `/` (the empty topic included) probes itself and then `#`. */
  lemma TopicWithoutSlash(topic: string)
    requires '/' !in topic
    ensures CandidateKeys(topic) == [topic, "#"]
  {
    assert LastIndexOf(topic, '/', |topic| - 1) < 0;
  }

  /** Keys at the root and at a trailing `/`. */
  lemma RootAndTrailingSlash()
    ensures CandidateKeys("/x") == ["/x", "/#", "#"]
    ensures CandidateKeys("a/") == ["a/", "a/#", "#"]
  {
    assert LastIndexOf("/x", '/', 1) == 0;
    assert LastIndexOf("/x", '/', -1) == -1;
    assert "/x"[..0] + "/#" == "/#";
    assert LastIndexOf("a/", '/', 1) == 1;
    assert LastIndexOf("a/", '/', 0) == -1;
    assert "a/"[..1] + "/#" == "a/#";
  }

  /** Narrower than the multi-level wildcard of MQTT 3.1.1: `a/#` is never probed for the topic `a`. */
  lemma ParentWildcardNotProbedForItself()
    ensures "a/#" !in CandidateKeys("a")
  {
    TopicWithoutSlash("a");
  }

  /** The single-level wildcard is never expanded: no probed key holds a `+` the topic does not hold. */
  lemma PlusNeverProbed(topic: string)
    requires '+' !in topic
    ensures forall key :: key in CandidateKeys(topic) ==> '+' !in key
  {
    forall key | key in CandidateKeys(topic) ensures '+' !in key {
      ProbedKeys(topic, key);
      if key != topic && key != "#" {
        var i :| 0 <= i < |topic| && topic[i] == '/' && key == topic[..i] + "/#";
        assert forall c :: c in topic[..i] ==> c in topic;
      }
    }
  }

  lemma PlusPatternNeverMatched()
    ensures "s/+/t" !in CandidateKeys("s/k/t")
  {
    PlusNeverProbed("s/k/t");
    assert '+' in "s/+/t";
  }

  /** A topic without `#` (as every published topic is) never has a key probed twice. */
  lemma ProbesDistinct(topic: string)
    requires '#' !in topic
    ensures var keys := CandidateKeys(topic);
      forall j, k :: 0 <= j < k < |keys| ==> keys[j] != keys[k]
  {
    var keys := CandidateKeys(topic);
    forall j, k | 0 <= j < k < |keys| ensures keys[j] != keys[k] {
      ProbesDistinctPair(topic, j, k);
    }
  }

  lemma ProbesDistinctPair(topic: string, j: nat, k: nat)
    requires '#' !in topic
    requires j < k < |CandidateKeys(topic)|
    ensures CandidateKeys(topic)[j] != CandidateKeys(topic)[k]
  {
    var keys := CandidateKeys(topic);
    ProbeOrder(topic);
    if k < |keys| - 1 {
      var n := CandidateKeyAt(topic, k);
      assert keys[k][n + 1] == '#';
      if j > 0 {
        var m := CandidateKeyAt(topic, j);
        assert m > n;
      }
    } else if j > 0 {
      var m := CandidateKeyAt(topic, j);
    } else {
      assert keys[k] == "#";
    }
  }

  /** A probed key between the topic and `#`: the topic up to one of its slashes, then `/#`. */
  lemma CandidateKeyAt(topic: string, k: nat) returns (n: nat)
    requires 0 < k < |CandidateKeys(topic)| - 1
    ensures n < |topic| && CandidateKeys(topic)[k] == topic[..n] + "/#"
    ensures |CandidateKeys(topic)[k]| == n + 2
    ensures k - 1 < |SlashesBelow(topic, |topic|)| && n == SlashesBelow(topic, |topic|)[k - 1]
  {
    ProbeOrder(topic);
    var idx := SlashesBelow(topic, |topic|);
    var anc := AncestorKeys(topic, idx);
    assert CandidateKeys(topic)[k] == anc[k - 1];
    AncestorKeyAt(topic, idx, k - 1);
    n := idx[k - 1];
  }

  /** A topic that itself ends in `/#` probes its own key twice (only a topic holding `#` can). */
  lemma WildcardTopicProbedTwice()
    ensures CandidateKeys("a/#")[0] == CandidateKeys("a/#")[1] == "a/#"
  {
    assert LastIndexOf("a/#", '/', 2) == 1;
    assert "a/#"[..1] + "/#" == "a/#";
  }

  /** The keys probed for `home/kitchen/light`, most specific first. */
  lemma KitchenLightKeys()
    ensures CandidateKeys("home/kitchen/light") == ["home/kitchen/light", "home/kitchen/#", "home/#", "#"]
  {
    var topic := "home/kitchen/light";
    LastIndexOfIs(topic, '/', 17, 12);
    LastIndexOfIs(topic, '/', 11, 4);
    LastIndexOfIs(topic, '/', 3, -1);
    KitchenLightPrefixes();
  }

  /** The two enclosing patterns of the lamp's topic. */
  lemma KitchenLightPrefixes()
    ensures "home/kitchen/light"[..12] + "/#" == "home/kitchen/#"
    ensures "home/kitchen/light"[..4] + "/#" == "home/#"
  {
    var topic := "home/kitchen/light";
    assert topic[..4] == "home";
    assert topic[..12] == "home/kitchen";
  }
}
