/** Which timestamp an observation carries, and the receive-time window that stands in
    for one when there is none. Times are microseconds since a whole minute, in UTC. */
module ObservationTime {
  import opened Std
  import opened JsonValues
  import opened LeaseTable

  /** What reading an ISO 8601 text gives: no date, a date without an
      offset (which the server reads in its own zone), or an instant. */
  datatype Parsed = NotATime | Naive(asLocal: int) | Aware(utc: int)

  datatype TimestampSource = SourceClock | BrokerClock | ReceiptClock

  function SourceText(s: TimestampSource): string {
    match s
    case SourceClock => "source"
    case BrokerClock => "broker"
    case ReceiptClock => "received"
  }

  datatype Selected = Selected(at: int, source: TimestampSource)

  function ReplaceZ(s: string): string {
    if s == "" then "" else (if s[0] == 'Z' then "+00:00" else [s[0]]) + ReplaceZ(s[1..])
  }

  /** The instant a candidate names, unless it lies too far in the future. */
  function Usable(fromIso: string -> Parsed, value: Option<Json>, receivedAt: int, skewSeconds: nat): Option<int> {
    if value.None? || !value.value.JString? then None
    else
      match fromIso(ReplaceZ(value.value.s))
      case Aware(utc) => if utc <= receivedAt + Seconds(skewSeconds) then Some(utc) else None
      case _ => None
  }

  function BrokerValue(metadata: map<string, Json>): Option<Json> {
    if "timestamp" in metadata then Some(metadata["timestamp"]) else None
  }

  function SelectTimestamp(fromIso: string -> Parsed, source: Option<Json>, metadata: map<string, Json>,
                           receivedAt: int, skewSeconds: nat): Selected {
    var fromSource := Usable(fromIso, source, receivedAt, skewSeconds);
    var fromBroker := Usable(fromIso, BrokerValue(metadata), receivedAt, skewSeconds);
    if fromSource.Some? then Selected(fromSource.value, SourceClock)
    else if fromBroker.Some? then Selected(fromBroker.value, BrokerClock)
    else Selected(receivedAt, ReceiptClock)
  }

  const MINUTE := 60

  /** A window length in whole seconds. */
  type Window = w: int | w >= 1 witness 1

  function SecondOf(t: int): int { (t / Seconds(1)) % MINUTE }

  function MinuteOf(t: int): int { t / Seconds(MINUTE) }

  /** t.replace(second = second - second % window, microsecond = 0) */
  function Bucket(t: int, window: Window): int
  {
    Seconds(MINUTE * MinuteOf(t) + SecondOf(t) - SecondOf(t) % window)
  }

  /** The timestamp that identifies an observation. */
  function IdentityTime(selected: Selected, window: Window): int
  {
    if selected.source.ReceiptClock? then Bucket(selected.at, window) else selected.at
  }

  // ---- the window ----

  lemma TimeSplits(t: int)
    ensures 0 <= SecondOf(t) < MINUTE
    ensures t / Seconds(1) == MINUTE * MinuteOf(t) + SecondOf(t)
    ensures Seconds(t / Seconds(1)) <= t < Seconds(t / Seconds(1) + 1)
  {
    var seconds := t / 1_000_000;
    assert t == 1_000_000 * seconds + t % 1_000_000;
    assert seconds == 60 * (seconds / 60) + seconds % 60;
    assert t / 60_000_000 == seconds / 60;
  }

  lemma Floored(x: int, window: int)
    requires window >= 1 && x >= 0
    ensures 0 <= x - x % window <= x && x % window < window
    ensures (x - x % window) % window == 0
    ensures (x - x % window) / window == x / window
  {
    var q := x / window;
    assert x == q * window + x % window;
    assert x - x % window == q * window;
    MultipleOf(q, window);
  }

  lemma MultipleOf(q: int, window: int)
    requires window >= 1
    ensures (q * window) % window == 0 && (q * window) / window == q
  {
    assert q * window == window * q + 0;
    DivisionIsUnique(q * window, window, q, 0);
  }

  lemma AtLeastOne(d: int, k: int)
    requires d >= 1 && k >= 1
    ensures d * k >= d
  {
  }

  lemma DivisionIsUnique(x: int, d: int, q: int, r: int)
    requires d >= 1 && x == d * q + r && 0 <= r < d
    ensures x / d == q && x % d == r
  {
    var p := x / d;
    assert x == d * p + x % d;
    assert d * (q - p) == x % d - r;
    if q != p {
      AtLeastOne(d, if q > p then q - p else p - q);
    }
  }

  lemma BucketParts(t: int, window: Window)
    ensures MinuteOf(Bucket(t, window)) == MinuteOf(t)
    ensures SecondOf(Bucket(t, window)) == SecondOf(t) - SecondOf(t) % window
  {
    TimeSplits(t);
    Floored(SecondOf(t), window);
    var s := SecondOf(t) - SecondOf(t) % window;
    assert Bucket(t, window) / Seconds(1) == MINUTE * MinuteOf(t) + s;
  }

  /** The bucket is the last window boundary at or before the instant; bucketing again
      changes nothing. Boundaries restart with every minute, so a window of a minute or
      more is a window of one minute. */
  lemma BucketIsLastBoundary(t: int, window: Window)
    ensures Bucket(t, window) <= t < Bucket(t, window) + Seconds(window)
    ensures MinuteOf(Bucket(t, window)) == MinuteOf(t) && SecondOf(Bucket(t, window)) % window == 0
    ensures Bucket(Bucket(t, window), window) == Bucket(t, window)
    ensures window >= MINUTE ==> Bucket(t, window) == Bucket(t, MINUTE)
  {
    TimeSplits(t);
    Floored(SecondOf(t), window);
    BucketParts(t, window);
    BucketParts(Bucket(t, window), window);
    if window >= MINUTE {
      DivisionIsUnique(SecondOf(t), window, 0, SecondOf(t));
    }
  }

  /** Two instants share a bucket exactly when they lie in the same minute and in the same
      window of that minute. */
  lemma SameBucketIff(a: int, b: int, window: Window)
    ensures Bucket(a, window) == Bucket(b, window) <==>
              MinuteOf(a) == MinuteOf(b) && SecondOf(a) / window == SecondOf(b) / window
  {
    BucketParts(a, window);
    BucketParts(b, window);
    TimeSplits(a);
    TimeSplits(b);
    SameFloorIff(SecondOf(a), SecondOf(b), window);
  }

  lemma SameFloorIff(x: int, y: int, window: int)
    requires window >= 1 && x >= 0 && y >= 0
    ensures x - x % window == y - y % window <==> x / window == y / window
  {
  }

  /** No selected time lies further ahead of the receipt than the skew allows. */
  lemma SelectedTimeIsBounded(fromIso: string -> Parsed, source: Option<Json>, metadata: map<string, Json>,
                              receivedAt: int, skewSeconds: nat)
    ensures var s := SelectTimestamp(fromIso, source, metadata, receivedAt, skewSeconds);
            s.at <= receivedAt + Seconds(skewSeconds) && (s.source.ReceiptClock? ==> s.at == receivedAt)
  {
  }

  // ---- the selected time, said of the texts ----

  lemma {:induction false} ReplaceZAppends(a: string, b: string)
    ensures ReplaceZ(a + b) == ReplaceZ(a) + ReplaceZ(b)
  {
    if a == "" {
      assert a + b == b;
    } else {
      var first := if a[0] == 'Z' then "+00:00" else [a[0]];
      assert (a + b)[1..] == a[1..] + b;
      ReplaceZAppends(a[1..], b);
      assert first + (ReplaceZ(a[1..]) + ReplaceZ(b)) == (first + ReplaceZ(a[1..])) + ReplaceZ(b);
    }
  }

  lemma {:induction false} NothingToReplace(s: string)
    requires 'Z' !in s
    ensures ReplaceZ(s) == s
  {
    if s != "" {
      assert s[0] in s && forall c :: c in s[1..] ==> c in s;
      NothingToReplace(s[1..]);
      assert s == [s[0]] + s[1..];
    }
  }

  /** Every Z is written as the offset of UTC, and nothing else changes. */
  lemma ZIsUtc(a: string, b: string)
    ensures ReplaceZ(a + "Z" + b) == ReplaceZ(a) + "+00:00" + ReplaceZ(b)
    ensures 'Z' !in a ==> ReplaceZ(a) == a
  {
    ReplaceZAppends(a + "Z", b);
    ReplaceZAppends(a, "Z");
    assert ReplaceZ("Z") == "+00:00";
    if 'Z' !in a {
      NothingToReplace(a);
    }
  }

  /** The value is a text that names the instant, which is no later than the limit. */
  ghost predicate Names(fromIso: string -> Parsed, value: Option<Json>, t: int, limit: int) {
    value.Some? && value.value.JString? && fromIso(ReplaceZ(value.value.s)) == Aware(t) && t <= limit
  }

  ghost predicate NamesNone(fromIso: string -> Parsed, value: Option<Json>, limit: int) {
    forall t :: !Names(fromIso, value, t, limit)
  }

  /** The member "timestamp" of a document. */
  function OwnStamp(document: Option<Json>): Option<Json> {
    match document
    case Some(JObject(members)) => if "timestamp" in Keys(members) then Some(Lookup(members, "timestamp")) else None
    case _ => None
  }

  /** What a reading's clock is called. */
  ghost function ClockName(source: TimestampSource): string {
    if source == SourceClock then "source" else if source == BrokerClock then "broker" else "received"
  }

  /** The instant of the document's own stamp; if that names none within the skew, the
      instant of the broker's; if that names none either, the receipt. */
  ghost predicate Selects(fromIso: string -> Parsed, document: Option<Json>, metadata: map<string, Json>,
                          receivedAt: int, skewSeconds: nat, s: Selected) {
    var limit := receivedAt + Seconds(skewSeconds);
    var own, broker := OwnStamp(document), if "timestamp" in metadata then Some(metadata["timestamp"]) else None;
    match s.source
    case SourceClock => Names(fromIso, own, s.at, limit)
    case BrokerClock => NamesNone(fromIso, own, limit) && Names(fromIso, broker, s.at, limit)
    case ReceiptClock => NamesNone(fromIso, own, limit) && NamesNone(fromIso, broker, limit) && s.at == receivedAt
  }

  lemma UsableNames(fromIso: string -> Parsed, value: Option<Json>, receivedAt: int, skewSeconds: nat)
    ensures var u, limit := Usable(fromIso, value, receivedAt, skewSeconds), receivedAt + Seconds(skewSeconds);
            && (u.Some? ==> forall t :: Names(fromIso, value, t, limit) <==> t == u.value)
            && (u.None? ==> NamesNone(fromIso, value, limit))
  {
    hide ReplaceZ;
  }

  /** The selected time is the one that the texts of the two stamps say. */
  lemma SelectedIff(fromIso: string -> Parsed, document: Option<Json>, metadata: map<string, Json>, receivedAt: int,
                    skewSeconds: nat, s: Selected)
    ensures s == SelectTimestamp(fromIso, OwnStamp(document), metadata, receivedAt, skewSeconds)
       <==> Selects(fromIso, document, metadata, receivedAt, skewSeconds, s)
  {
    hide Usable, Names, OwnStamp;
    var own, broker, limit := OwnStamp(document), BrokerValue(metadata), receivedAt + Seconds(skewSeconds);
    UsableNames(fromIso, own, receivedAt, skewSeconds);
    UsableNames(fromIso, broker, receivedAt, skewSeconds);
    var mine, theirs := Usable(fromIso, own, receivedAt, skewSeconds), Usable(fromIso, broker, receivedAt, skewSeconds);
    if mine.Some? {
      assert Names(fromIso, own, mine.value, limit);
    }
    if theirs.Some? {
      assert Names(fromIso, broker, theirs.value, limit);
    }
  }

  // ---- redelivery ----

  /** The instant a candidate names, however far ahead. */
  function Stamp(fromIso: string -> Parsed, value: Option<Json>): Option<int> {
    if value.None? || !value.value.JString? then None
    else
      match fromIso(ReplaceZ(value.value.s))
      case Aware(utc) => Some(utc)
      case _ => None
  }

  /** The stamp was too far ahead at the first receipt and no longer is at the second. */
  predicate Crosses(stamp: Option<int>, r1: int, r2: int, skewSeconds: nat) {
    stamp.Some? && r1 + Seconds(skewSeconds) < stamp.value <= r2 + Seconds(skewSeconds)
  }

  predicate InTime(stamp: Option<int>, receivedAt: int, skewSeconds: nat) {
    stamp.Some? && stamp.value <= receivedAt + Seconds(skewSeconds)
  }

  predicate SameWindow(r1: int, r2: int, window: Window) {
    MinuteOf(r1) == MinuteOf(r2) && SecondOf(r1) / window == SecondOf(r2) / window
  }

  lemma UsableIsInTime(fromIso: string -> Parsed, value: Option<Json>, receivedAt: int, skewSeconds: nat)
    ensures var stamp := Stamp(fromIso, value);
            Usable(fromIso, value, receivedAt, skewSeconds) == if InTime(stamp, receivedAt, skewSeconds) then stamp
                else None
  {
  }

  /** When a redelivery, received no earlier, has the identity of the first delivery, for
      every pair of stamps: the source's stamp is not one that has come within the skew in
      between; and, unless it was in time at once, neither is the broker's; and, unless that
      was in time at once, both receipts lie in the same window of the same minute. A stamp
      that crosses the skew always changes the identity. */
  lemma RedeliveryKeepsIdentity(fromIso: string -> Parsed, source: Option<Json>, metadata: map<string, Json>,
                                r1: int, r2: int, skewSeconds: nat, window: Window)
    requires r1 <= r2
    ensures var s1 := SelectTimestamp(fromIso, source, metadata, r1, skewSeconds);
            var s2 := SelectTimestamp(fromIso, source, metadata, r2, skewSeconds);
            var own, broker := Stamp(fromIso, source), Stamp(fromIso, BrokerValue(metadata));
            IdentityTime(s1, window) == IdentityTime(s2, window) <==>
              && !Crosses(own, r1, r2, skewSeconds)
              && (InTime(own, r1, skewSeconds)
                  || (!Crosses(broker, r1, r2, skewSeconds)
                      && (InTime(broker, r1, skewSeconds) || SameWindow(r1, r2, window))))
  {
    hide Stamp, Usable, Bucket, MinuteOf, SecondOf;
    UsableIsInTime(fromIso, source, r1, skewSeconds);
    UsableIsInTime(fromIso, source, r2, skewSeconds);
    UsableIsInTime(fromIso, BrokerValue(metadata), r1, skewSeconds);
    UsableIsInTime(fromIso, BrokerValue(metadata), r2, skewSeconds);
    BucketIsLastBoundary(r1, window);
    SameBucketIff(r1, r2, window);
  }
}
