/** The topic allowlist: filters with + and #, matched level by level. */
module TopicFilter {
  import opened Std
  import opened StreamIdentity

  /** One filter against one topic, both as levels. */
  predicate Matches(filter: seq<string>, topic: seq<string>) {
    if filter == [] then topic == []
    else if filter[0] == "#" then |filter| == 1
    else topic != [] && (filter[0] == "+" || filter[0] == topic[0]) && Matches(filter[1..], topic[1..])
  }

  function FilterMatches(pattern: string, topic: string): Result<bool> {
    match NormalizeTopic(pattern)
    case Err(code) => Err(code)
    case Ok(filter) => Ok(Matches(Split(filter, '/'), Split(topic, '/')))
  }

  method TopicMatches(pattern: string, topic: string) returns (r: Result<bool>)
    ensures r == FilterMatches(pattern, topic)
  {
    var filter := NormalizeTopic(pattern);
    if filter.Err? {
      return Err(filter.code);
    }
    var patternParts, topicParts := Split(filter.value, '/'), Split(topic, '/');
    for index := 0 to |patternParts|
      invariant index <= |topicParts|
      invariant Matches(patternParts, topicParts) == Matches(patternParts[index..], topicParts[index..])
    {
      var value := patternParts[index];
      assert patternParts[index..][1..] == patternParts[index + 1..];
      if value == "#" {
        return Ok(index == |patternParts| - 1);
      }
      if index >= |topicParts| || (value != "+" && value != topicParts[index]) {
        return Ok(false);
      }
      assert topicParts[index..][1..] == topicParts[index + 1..];
    }
    r := Ok(|patternParts| == |topicParts|);
  }

  // ---- what matching means ----

  /** No # except as the last level. */
  ghost predicate HashOnlyLast(filter: seq<string>) {
    forall i :: 0 <= i < |filter| - 1 ==> filter[i] != "#"
  }

  predicate EndsInHash(filter: seq<string>) { filter != [] && filter[|filter| - 1] == "#" }

  /** The levels before a final #, or all of them. */
  function Fixed(filter: seq<string>): seq<string> {
    if EndsInHash(filter) then filter[..|filter| - 1] else filter
  }

  ghost predicate Agree(fixed: seq<string>, topic: seq<string>) {
    && |fixed| <= |topic|
    && forall i :: 0 <= i < |fixed| ==> fixed[i] == "+" || fixed[i] == topic[i]
  }

  /** A filter whose # is at most its last level matches the topics that agree with it
      level by level, of the same length or, below a #, of any length that reaches it. */
  lemma {:induction false} MatchesLevelwise(filter: seq<string>, topic: seq<string>)
    ensures Matches(filter, topic) <==>
              && HashOnlyLast(filter)
              && Agree(Fixed(filter), topic)
              && (EndsInHash(filter) || |filter| == |topic|)
  {
    if filter != [] && filter[0] != "#" && topic != [] {
      var f, t := filter[1..], topic[1..];
      MatchesLevelwise(f, t);
      assert forall i :: 0 <= i < |f| ==> f[i] == filter[i + 1];
      assert HashOnlyLast(filter) <==> HashOnlyLast(f) by {
        if HashOnlyLast(f) {
          forall i | 0 <= i < |filter| - 1 ensures filter[i] != "#" {
            if i > 0 { assert f[i - 1] != "#"; }
          }
        }
      }
      assert Fixed(filter) == [filter[0]] + Fixed(f);
      AgreeStep(filter[0], Fixed(f), topic);
    }
  }

  lemma AgreeStep(first: string, fixed: seq<string>, topic: seq<string>)
    requires topic != []
    ensures Agree([first] + fixed, topic) <==> (first == "+" || first == topic[0]) && Agree(fixed, topic[1..])
  {
  }

  // ---- widening a filter ----

  /** Writing + for a level keeps every matched topic, except where the level is a final #. */
  lemma PlusWidensUnlessHash(filter: seq<string>, i: nat)
    requires i < |filter|
    ensures (forall topic :: Matches(filter, topic) ==> Matches(filter[i := "+"], topic))
       <==> !(filter[i] == "#" && i == |filter| - 1 && HashOnlyLast(filter))
  {
    var wider := filter[i := "+"];
    if filter[i] == "#" && i == |filter| - 1 && HashOnlyLast(filter) {
      var topic := filter[..i];
      MatchesLevelwise(filter, topic);
      MatchesLevelwise(wider, topic);
      assert Matches(filter, topic) && !Matches(wider, topic);
    } else {
      forall topic | Matches(filter, topic) ensures Matches(wider, topic) {
        MatchesLevelwise(filter, topic);
        MatchesLevelwise(wider, topic);
        assert filter[i] != "#";
        assert EndsInHash(wider) <==> EndsInHash(filter);
        forall k | 0 <= k < |Fixed(wider)| ensures Fixed(wider)[k] == "+" || Fixed(wider)[k] == topic[k] {
          assert Fixed(filter)[k] == "+" || Fixed(filter)[k] == topic[k];
        }
      }
    }
  }

  /** Writing # for a filter's last levels, however many, keeps every matched topic. */
  lemma HashWidens(filter: seq<string>, k: nat, topic: seq<string>)
    requires k < |filter| && Matches(filter, topic)
    ensures Matches(filter[..k] + ["#"], topic)
  {
    var wider := filter[..k] + ["#"];
    MatchesLevelwise(filter, topic);
    MatchesLevelwise(wider, topic);
    assert Fixed(wider) == filter[..k] && filter[..k] == Fixed(filter)[..k];
    forall i | 0 <= i < k ensures filter[..k][i] == "+" || filter[..k][i] == topic[i] {
      assert Fixed(filter)[i] == filter[..k][i];
    }
  }

  // ---- the allowlist ----

  function AnyMatches(allowlist: seq<string>, topic: string): Result<bool> {
    if allowlist == [] then Ok(false)
    else
      match FilterMatches(allowlist[0], topic)
      case Err(code) => Err(code)
      case Ok(true) => Ok(true)
      case Ok(false) => AnyMatches(allowlist[1..], topic)
  }

  function Authorized(allowlist: seq<string>, topic: string): Result<string> {
    match NormalizeTopic(topic)
    case Err(code) => Err(code)
    case Ok(normalized) =>
      match AnyMatches(allowlist, normalized)
      case Err(code) => Err(code)
      case Ok(found) => if found then Ok(normalized) else Err("MQTT topic is not authorized")
  }

  method Authorize(allowlist: seq<string>, topic: string) returns (r: Result<string>)
    ensures r == Authorized(allowlist, topic)
  {
    var normalized := NormalizeTopic(topic);
    if normalized.Err? {
      return normalized;
    }
    for k := 0 to |allowlist|
      invariant AnyMatches(allowlist, normalized.value) == AnyMatches(allowlist[k..], normalized.value)
    {
      assert allowlist[k..][1..] == allowlist[k + 1..];
      var matched := TopicMatches(allowlist[k], normalized.value);
      if matched.Err? {
        return Err(matched.code);
      }
      if matched.value {
        return normalized;
      }
    }
    r := Err("MQTT topic is not authorized");
  }

  /** The filter, by its levels, accepts the topic, by its: it has a level, no # but a final
      one, agrees level by level, and has as many levels unless a # closes it. */
  ghost predicate Accepts(filter: seq<string>, topic: seq<string>) {
    && filter != [] && HashOnlyLast(filter)
    && Agree(Fixed(filter), topic)
    && (EndsInHash(filter) || |filter| == |topic|)
  }

  /** A filter text matches a topic exactly when its levels accept the topic's parts; it
      raises exactly when it has no level. */
  lemma FilterMatchesIff(pattern: string, topic: string)
    ensures FilterMatches(pattern, topic) == Ok(true) <==> Accepts(Levels(pattern), Split(topic, '/'))
    ensures FilterMatches(pattern, topic).Err? <==> Levels(pattern) == []
  {
    hide Levels, Matches, Split;
    TopicNormalizationIsIdempotent(pattern);
    MatchesLevelwise(Levels(pattern), Split(topic, '/'));
  }

  /** The filter accepts the topic, and every filter before it has a level. */
  ghost predicate AcceptedAt(allowlist: seq<string>, topic: seq<string>, k: nat) {
    && k < |allowlist|
    && Accepts(Levels(allowlist[k]), topic)
    && forall j :: 0 <= j < k ==> Levels(allowlist[j]) != []
  }

  ghost predicate AcceptedByAny(allowlist: seq<string>, topic: seq<string>) {
    exists k: nat :: AcceptedAt(allowlist, topic, k)
  }

  lemma {:induction false} AcceptedIsMatched(allowlist: seq<string>, topic: string, k: nat)
    requires AcceptedAt(allowlist, Split(topic, '/'), k)
    ensures AnyMatches(allowlist, topic) == Ok(true)
  {
    hide FilterMatches, Levels, Accepts, Split;
    FilterMatchesIff(allowlist[0], topic);
    if k > 0 {
      var rest := allowlist[1..];
      assert rest[k - 1] == allowlist[k];
      forall j | 0 <= j < k - 1 ensures Levels(rest[j]) != [] {
        assert rest[j] == allowlist[j + 1];
      }
      AcceptedIsMatched(rest, topic, k - 1);
    }
  }

  lemma {:induction false} MatchedIsAccepted(allowlist: seq<string>, topic: string) returns (k: nat)
    requires AnyMatches(allowlist, topic) == Ok(true)
    ensures AcceptedAt(allowlist, Split(topic, '/'), k)
  {
    hide FilterMatches, Levels, Accepts, Split;
    FilterMatchesIff(allowlist[0], topic);
    k := 0;
    if FilterMatches(allowlist[0], topic) != Ok(true) {
      var rest := allowlist[1..];
      var n := MatchedIsAccepted(rest, topic);
      k := n + 1;
      assert allowlist[k] == rest[n];
      forall j | 0 <= j < k ensures Levels(allowlist[j]) != [] {
        if j > 0 { assert allowlist[j] == rest[j - 1]; }
      }
    }
  }

  /** A topic is authorized exactly when it has a level, the levels of some filter accept its
      levels, and every filter before that one has a level; an authorized topic comes back
      as its levels, joined, and is authorized as it then stands. */
  lemma AuthorizedIffAccepted(allowlist: seq<string>, topic: string)
    ensures Authorized(allowlist, topic).Ok? <==> Levels(topic) != [] && AcceptedByAny(allowlist, Levels(topic))
    ensures Authorized(allowlist, topic).Ok? ==>
              var normalized := Authorized(allowlist, topic).value;
              && normalized == Join(Levels(topic), '/') && Levels(normalized) == Levels(topic)
              && Authorized(allowlist, normalized) == Ok(normalized)
  {
    hide Levels, AcceptedByAny, Split, Join, AnyMatches;
    TopicNormalizationIsIdempotent(topic);
    var levels := Levels(topic);
    if levels != [] {
      var t := NormalizeTopic(topic).value;
      assert t == Join(levels, '/');
      AcceptedIffMatched(allowlist, t);
    }
  }

  lemma AcceptedIffMatched(allowlist: seq<string>, topic: string)
    ensures AnyMatches(allowlist, topic) == Ok(true) <==> AcceptedByAny(allowlist, Split(topic, '/'))
  {
    hide AcceptedAt, AnyMatches, Split;
    if AnyMatches(allowlist, topic) == Ok(true) {
      var k := MatchedIsAccepted(allowlist, topic);
    }
    if k: nat :| AcceptedAt(allowlist, Split(topic, '/'), k) {
      AcceptedIsMatched(allowlist, topic, k);
    }
  }
}
