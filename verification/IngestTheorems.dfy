/** What the catalog says of the observations it was given, at every point of every run. */
module IngestTheorems {
  import opened Std
  import opened LeaseTable
  import opened Repositories
  import opened StreamIdentity
  import opened TopicFilter
  import opened ObservationTime
  import opened Storage
  import opened ObservationKeys
  import opened StreamCatalog
  import opened CatalogTheorems
  import opened FieldProjection
  import opened PipelineRuns
  import opened PipelineTheorems

  /** Event k is an observation that is recorded, and not raised. */
  ghost predicate Recorded(p: Platform, s: Settings, ts: seq<Catalog>, es: seq<Event>, k: nat) {
    k < |es| && k < |ts| && es[k].Ingest? && Record(p, s, ts[k], es[k].command).Ok?
  }

  /** Event k is an observation that is recorded under stream i. */
  ghost predicate RecordedTo(p: Platform, s: Settings, ts: seq<Catalog>, es: seq<Event>, k: nat, i: nat) {
    Recorded(p, s, ts, es, k) && Record(p, s, ts[k], es[k].command).value.streamId == Some(i)
  }

  // ---- streams ----

  /** The stream's key is the digest of the key text of its own source, topic and tenant. */
  ghost predicate Keyed(p: Platform, stream: Stream) {
    var text := StreamKeyMaterial(p.lower, stream.sourceId, stream.topic, stream.tenant);
    text.Ok? && stream.key == p.sha256(text.value)
  }

  ghost predicate AllKeyed(p: Platform, streams: seq<Stream>) {
    forall i :: 0 <= i < |streams| ==> Keyed(p, streams[i])
  }

  lemma IngestKeys(p: Platform, s: Settings, t: Catalog, c: Command)
    requires AllKeyed(p, t.streams)
    ensures AllKeyed(p, Next(p, s, t, Ingest(c)).streams)
  {
    hide Authorized, NormalizeIdentifier, StreamKeyMaterial, Classify, RawOf, PointDelivery, EvidenceOf, TasksAfter;
  }

  lemma OthersKeepStreams(p: Platform, s: Settings, t: Catalog, e: Event)
    requires !e.Ingest?
    ensures Next(p, s, t, e).streams == t.streams && Next(p, s, t, e).evidence == t.evidence
  {
  }

  /** In every run, every stream's key is made of that stream's own source, topic and tenant. */
  lemma {:induction false} StreamsAreKeyed(p: Platform, s: Settings, ts: seq<Catalog>, es: seq<Event>, n: nat)
    requires IsRun(p, s, ts, es) && n <= |es|
    ensures AllKeyed(p, ts[n].streams)
  {
    hide Next, Enabled, Keyed;
    if n > 0 {
      StreamsAreKeyed(p, s, ts, es, n - 1);
      var e := es[n - 1];
      assert ts[n] == Next(p, s, ts[n - 1], e);
      if e.Ingest? {
        IngestKeys(p, s, ts[n - 1], e.command);
      } else {
        OthersKeepStreams(p, s, ts[n - 1], e);
      }
    }
  }

  /** What an observation is filed under: source and topic normalized, and the digest of the
      key text of what the observation itself gives. */
  lemma ResolvesTo(p: Platform, s: Settings, c: Command)
    requires Resolve(p, s, c).Ok? && Resolve(p, s, c).value.Some?
    ensures var target := Resolve(p, s, c).value.value;
            && target.sourceId == p.lower(Strip(c.sourceId)) && target.topic == Join(Levels(c.topic), '/')
            && (LowersOnce(p.lower) ==>
                  var text := StreamKeyMaterial(p.lower, c.sourceId, c.topic, c.tenant);
                  text.Ok? && target.key == p.sha256(text.value))
  {
    hide Levels, Join, Strip, AcceptedByAny, LowersOnce, KeyMaterial, TenantPart, AnyMatches;
    AuthorizedIffAccepted(s.allowlist, c.topic);
    TopicNormalizationIsIdempotent(c.topic);
    if LowersOnce(p.lower) {
      IdentifiersAreFixed(p.lower, c.sourceId);
    }
  }

  /** Recording places the observation's stream, and adds its evidence. */
  lemma RecordNotes(p: Platform, s: Settings, t: Catalog, c: Command)
    requires Record(p, s, t, c).Ok?
    ensures var receipt := Record(p, s, t, c).value;
            && Resolve(p, s, c).Ok?
            && (receipt.streamId.None? <==> Resolve(p, s, c).value.None?)
            && (receipt.streamId.Some? ==>
                  var target := Resolve(p, s, c).value.value;
                  && receipt.catalog.streams == StreamsAfter(t.streams, target, c)
                  && receipt.streamId.value == StreamFor(t.streams, target))
            && (receipt.streamId.None? ==> receipt.catalog == t.(evidence := receipt.catalog.evidence))
            && receipt.catalog.evidence
               == t.evidence + [EvidenceOf(p, s, c, receipt.streamId,
                                           if receipt.streamId.None? then "rejected"
                                           else Classify(p, s, c.payload, c.contentType))]
  {
    hide Resolve, Classify, RawOf, PointDelivery, EvidenceOf, TasksAfter, StreamsAfter, StreamFor;
  }

  lemma RecordedKey(p: Platform, s: Settings, ts: seq<Catalog>, es: seq<Event>, k: nat, i: nat)
    requires IsRun(p, s, ts, es) && LowersOnce(p.lower) && RecordedTo(p, s, ts, es, k, i)
    ensures i < |ts[k + 1].streams|
    ensures var c := es[k].command;
            var text := StreamKeyMaterial(p.lower, c.sourceId, c.topic, c.tenant);
            text.Ok? && ts[k + 1].streams[i].key == p.sha256(text.value)
  {
    hide Record, Resolve, Enabled, Consistent, JsonQueued, LowersOnce, StreamKeyMaterial;
    var c := es[k].command;
    assert ts[k + 1] == Next(p, s, ts[k], es[k]);
    RecordNotes(p, s, ts[k], c);
    ResolvesTo(p, s, c);
  }

  /** The tenant as it tells streams apart: absent and empty are the same. */
  ghost function TenantName(p: Platform, tenant: Option<string>): string {
    if tenant.Some? && tenant.value != "" then p.lower(Strip(tenant.value)) else ""
  }

  /** No separator in what the observation is filed under. */
  ghost predicate PlainlyNamed(p: Platform, c: Command) {
    && Without(p.lower(Strip(c.sourceId)), UNIT_SEPARATOR) && Without(Join(Levels(c.topic), '/'), UNIT_SEPARATOR)
    && Without(TenantName(p, c.tenant), UNIT_SEPARATOR)
  }

  ghost predicate SameNames(p: Platform, c1: Command, c2: Command) {
    && p.lower(Strip(c1.sourceId)) == p.lower(Strip(c2.sourceId))
    && Levels(c1.topic) == Levels(c2.topic)
    && TenantName(p, c1.tenant) == TenantName(p, c2.tenant)
  }

  /** Two recorded observations of a run are filed under one stream exactly when their source,
      topic and tenant give the same key text; and, if one of them is plainly named, exactly
      when source, topic levels and tenant are the same once normalized. */
  lemma SameStreamIff(p: Platform, s: Settings, ts: seq<Catalog>, es: seq<Event>, k1: nat, k2: nat, i1: nat, i2: nat)
    requires CollisionFree(p) && LowersOnce(p.lower) && IsRun(p, s, ts, es)
    requires RecordedTo(p, s, ts, es, k1, i1) && RecordedTo(p, s, ts, es, k2, i2)
    ensures var c1, c2 := es[k1].command, es[k2].command;
            && (i1 == i2 <==> StreamKeyMaterial(p.lower, c1.sourceId, c1.topic, c1.tenant)
                              == StreamKeyMaterial(p.lower, c2.sourceId, c2.topic, c2.tenant))
            && (PlainlyNamed(p, c1) ==> (i1 == i2 <==> SameNames(p, c1, c2)))
  {
    hide Next, Enabled, StreamKeyMaterial, LowersOnce, Sound, Record, PlainlyNamed, SameNames;
    var c1, c2 := es[k1].command, es[k2].command;
    RecordedKey(p, s, ts, es, k1, i1);
    RecordedKey(p, s, ts, es, k2, i2);
    GrowsAlong(p, s, ts, es, k1 + 1, |es|);
    GrowsAlong(p, s, ts, es, k2 + 1, |es|);
    RecordingIsConservative(p, s, ts, es, |es|);
    var streams := ts[|es|].streams;
    assert streams[i1].key == ts[k1 + 1].streams[i1].key && streams[i2].key == ts[k2 + 1].streams[i2].key;
    if PlainlyNamed(p, c1) {
      NamesTellStreams(p, c1, c2);
    }
  }

  lemma PartsAreNames(p: Platform, c: Command)
    requires StreamKeyMaterial(p.lower, c.sourceId, c.topic, c.tenant).Ok?
    ensures StreamParts(p.lower, c.sourceId, c.topic, c.tenant)
            == Ok([p.lower(Strip(c.sourceId)), Join(Levels(c.topic), '/'), TenantName(p, c.tenant)])
  {
    hide Levels, Join, Strip;
  }

  lemma NamesTellStreams(p: Platform, c1: Command, c2: Command)
    requires PlainlyNamed(p, c1)
    requires StreamKeyMaterial(p.lower, c1.sourceId, c1.topic, c1.tenant).Ok?
             && StreamKeyMaterial(p.lower, c2.sourceId, c2.topic, c2.tenant).Ok?
    ensures SameNames(p, c1, c2) <==> StreamKeyMaterial(p.lower, c1.sourceId, c1.topic, c1.tenant)
                                      == StreamKeyMaterial(p.lower, c2.sourceId, c2.topic, c2.tenant)
  {
    hide StreamParts, StreamKeyMaterial, Levels, Join, Strip, TenantName;
    PartsAreNames(p, c1);
    PartsAreNames(p, c2);
    SeparatorFreeStreamsAreTold(p.lower, c1.sourceId, c1.topic, c1.tenant, c2.sourceId, c2.topic, c2.tenant);
    JoinedTopicsAgree(c1.topic, c2.topic);
  }

  lemma JoinedTopicsAgree(a: string, b: string)
    ensures Join(Levels(a), '/') == Join(Levels(b), '/') <==> Levels(a) == Levels(b)
  {
    hide Levels, Join;
    TopicNormalizationIsIdempotent(a);
    TopicNormalizationIsIdempotent(b);
  }

  /** The stream is as its first observation gave it. */
  ghost predicate StartedBy(p: Platform, stream: Stream, c: Command) {
    && stream.sourceId == p.lower(Strip(c.sourceId)) && stream.topic == Join(Levels(c.topic), '/')
    && stream.tenant == c.tenant && stream.firstObservedAt == c.receivedAt
  }

  /** Every stream shows the normalized source and topic, the tenant and the receipt of the
      observation that started it, the first that was recorded under it. */
  lemma {:induction false} StreamsShowTheirFirst(p: Platform, s: Settings, ts: seq<Catalog>, es: seq<Event>, n: nat,
                                                 i: nat) returns (k: nat)
    requires IsRun(p, s, ts, es) && n <= |es| && i < |ts[n].streams|
    ensures k < n && RecordedTo(p, s, ts, es, k, i) && |ts[k].streams| == i
    ensures StartedBy(p, ts[n].streams[i], es[k].command)
  {
    hide Enabled, Record, Sound, Levels, Join, Strip;
    var t, e := ts[n - 1], es[n - 1];
    SoundAlways(p, s, ts, es, n - 1);
    assert Enabled(s, t, e) && ts[n] == Next(p, s, t, e);
    StepIsSound(p, s, t, e);
    if i < |t.streams| {
      k := StreamsShowTheirFirst(p, s, ts, es, n - 1, i);
    } else {
      k := n - 1;
      if e.Ingest? {
        NewStreamIsStarted(p, s, t, e.command, i);
      } else {
        OthersKeepStreams(p, s, t, e);
      }
    }
  }

  lemma NewStreamIsStarted(p: Platform, s: Settings, t: Catalog, c: Command, i: nat)
    requires |t.streams| <= i < |Next(p, s, t, Ingest(c)).streams|
    ensures i == |t.streams| && Record(p, s, t, c).Ok? && Record(p, s, t, c).value.streamId == Some(i)
    ensures StartedBy(p, Next(p, s, t, Ingest(c)).streams[i], c)
  {
    hide Record, Resolve, Levels, Join, Strip;
    RecordNotes(p, s, t, c);
    if Resolve(p, s, c).value.Some? {
      ResolvesTo(p, s, c);
    }
  }

  // ---- evidence ----

  /** The observation may be recorded under a stream: its topic has levels that a filter
      accepts, and its source is not blank. */
  ghost predicate Admitted(p: Platform, s: Settings, c: Command) {
    Levels(c.topic) != [] && AcceptedByAny(s.allowlist, Levels(c.topic)) && p.lower(Strip(c.sourceId)) != ""
  }

  ghost predicate KnownType(contentType: Option<string>) {
    contentType in {None, Some(""), Some("application/json"), Some("text/plain"), Some("application/octet-stream")}
  }

  /** The outcome is the first complaint there is, in this order, or "accepted". */
  ghost predicate IsOutcome(p: Platform, s: Settings, c: Command, outcome: string) {
    if !Admitted(p, s, c) then outcome == "rejected"
    else if |c.payload| > s.maxPayloadBytes then outcome == "oversized"
    else if !KnownType(c.contentType) || !p.isUtf8(c.payload) then outcome == "unsupported_encoding"
    else if c.contentType == Some("application/json") && p.parse(c.payload).None? then outcome == "malformed"
    else outcome == "accepted"
  }

  /** The evidence says what was received, when, and what became of it; it keeps the digest
      of the payload, or of as much of it as may be stored. */
  ghost predicate Witnesses(p: Platform, s: Settings, c: Command, e: Evidence) {
    && e.receivedAt == c.receivedAt && e.payloadSize == |c.payload| && e.contentType == c.contentType
    && e.metadata == c.metadata
    && (|c.payload| <= s.maxPayloadBytes ==> e.fingerprint == p.digest(c.payload))
    && (|c.payload| > s.maxPayloadBytes ==> e.fingerprint == p.digest(c.payload[..s.maxPayloadBytes]))
    && IsOutcome(p, s, c, e.outcome)
    && (e.outcome == "rejected" <==> e.streamId.None?)
  }

  lemma AdmittedIff(p: Platform, s: Settings, c: Command)
    ensures Admitted(p, s, c) <==> Authorized(s.allowlist, c.topic).Ok? && NormalizeIdentifier(p.lower, c.sourceId).Ok?
  {
    hide Levels, Join, Strip, AcceptedByAny, AnyMatches;
    AuthorizedIffAccepted(s.allowlist, c.topic);
  }

  lemma RecordedIsWitnessed(p: Platform, s: Settings, t: Catalog, c: Command)
    requires Record(p, s, t, c).Ok?
    ensures var u := Record(p, s, t, c).value.catalog;
            |u.evidence| == |t.evidence| + 1 && Witnesses(p, s, c, u.evidence[|t.evidence|])
            && t.evidence <= u.evidence
            && u.evidence[|t.evidence|].streamId == Record(p, s, t, c).value.streamId
  {
    hide Record, AcceptedByAny, Levels, Join, Strip, Authorized, NormalizeIdentifier, StreamKeyMaterial, Admitted;
    RecordNotes(p, s, t, c);
    AdmittedIff(p, s, c);
  }

  /** The evidence is the log of all that was recorded, in order: the n-th row is that of the
      n-th recorded observation, there are no others, and none is ever changed. */
  lemma EvidenceIsTheLog(p: Platform, s: Settings, ts: seq<Catalog>, es: seq<Event>, n: nat, k: nat)
    requires IsRun(p, s, ts, es) && k < n <= |es|
    ensures Recorded(p, s, ts, es, k) ==>
              var at := |ts[k].evidence|;
              && at < |ts[n].evidence| && |ts[k + 1].evidence| == at + 1
              && Witnesses(p, s, es[k].command, ts[n].evidence[at])
    ensures !Recorded(p, s, ts, es, k) ==> ts[k + 1].evidence == ts[k].evidence
    ensures ts[k + 1].evidence <= ts[n].evidence
  {
    hide Enabled, Record, Witnesses, Sound;
    assert ts[k + 1] == Next(p, s, ts[k], es[k]);
    GrowsAlong(p, s, ts, es, k + 1, n);
    if Recorded(p, s, ts, es, k) {
      RecordedIsWitnessed(p, s, ts[k], es[k].command);
    } else if !es[k].Ingest? {
      OthersKeepStreams(p, s, ts[k], es[k]);
    }
  }

  // ---- what is stored and queued ----

  /** The text a stored observation's key is the digest of: stream key, topic as sent,
      identifying time and payload digest, with separators between. */
  ghost predicate IsStoredKey(p: Platform, s: Settings, c: Command, streamKey: string, key: string) {
    var u := [UNIT_SEPARATOR];
    key == p.sha256(streamKey + u + (c.topic + u + (p.iso(Identity(p, s, c)) + u + p.digest(c.payload))))
  }

  /** The identifying time is the time the observation was measured at, or, where only the
      receipt tells it, the last boundary of the receive window. */
  lemma IdentityIsMeasured(p: Platform, s: Settings, c: Command) returns (at: Selected)
    ensures MeasuredAt(p, s, c, at)
    ensures !at.source.ReceiptClock? ==> Identity(p, s, c) == at.at
    ensures at.source.ReceiptClock? ==>
              var id, window := Identity(p, s, c), s.fallbackWindowSeconds;
              && id <= c.receivedAt < id + Seconds(window)
              && MinuteOf(id) == MinuteOf(c.receivedAt) && SecondOf(id) % window == 0
  {
    hide MeasuredAt, SelectTimestamp, MinuteOf, SecondOf, Bucket;
    at := SelectedTime(p, s, c);
    SelectedTimeIff(p, s, c, at);
    SelectedTimeIsBounded(p.fromIso, SourceTimestamp(p, c), c.metadata, c.receivedAt, s.futureSkewSeconds);
    BucketIsLastBoundary(c.receivedAt, s.fallbackWindowSeconds);
  }

  /** A task just queued. */
  ghost predicate IsQueued(row: Row<Task>, rawId: nat, processor: string, version: string, at: int) {
    row == Row(Task(rawId, processor, version), Pending, 0, at, None, None, None)
  }

  lemma OutcomeIsClassified(p: Platform, s: Settings, c: Command)
    ensures Resolve(p, s, c).Ok? && Resolve(p, s, c).value.Some?
            ==> (Classify(p, s, c.payload, c.contentType) == "accepted" <==> IsOutcome(p, s, c, "accepted"))
    ensures Resolve(p, s, c).Ok? && Resolve(p, s, c).value.None? ==> !IsOutcome(p, s, c, "accepted")
  {
    hide Admitted, Authorized, NormalizeIdentifier, StreamKeyMaterial;
    AdmittedIff(p, s, c);
  }

  /** The tables in which an accepted observation is stored. */
  ghost function Noted(p: Platform, s: Settings, t: Catalog, c: Command, target: Target): Catalog {
    t.(streams := StreamsAfter(t.streams, target, c),
       evidence := t.evidence + [EvidenceOf(p, s, c, Some(StreamFor(t.streams, target)), "accepted")])
  }

  lemma RecordAccepts(p: Platform, s: Settings, t: Catalog, c: Command)
    requires Record(p, s, t, c).Ok?
    ensures var receipt := Record(p, s, t, c).value;
            if IsOutcome(p, s, c, "accepted") then
              Resolve(p, s, c).Ok? && Resolve(p, s, c).value.Some?
              && var target := Resolve(p, s, c).value.value;
              && receipt.streamId == Some(StreamFor(t.streams, target))
              && StreamFor(t.streams, target) < |StreamsAfter(t.streams, target, c)|
              && receipt.catalog == Accepted(p, s, Noted(p, s, t, c, target), c, receipt.streamId.value, |t.evidence|)
            else
              receipt.catalog.raws == t.raws && receipt.catalog.tasks == t.tasks && receipt.catalog.outbox == t.outbox
  {
    hide IsOutcome, Resolve, Classify, Accepted, EvidenceOf;
    OutcomeIsClassified(p, s, c);
  }

  lemma FingerprintIsDigest(p: Platform, s: Settings, c: Command)
    requires IsOutcome(p, s, c, "accepted")
    ensures Fingerprint(p, s, c.payload) == p.digest(c.payload)
  {
    hide Admitted;
  }

  lemma RawKeyIsStoredKey(p: Platform, s: Settings, c: Command, streamKey: string)
    requires IsOutcome(p, s, c, "accepted")
    ensures IsStoredKey(p, s, c, streamKey,
                        RawKey(p, streamKey, c.topic, Identity(p, s, c), Fingerprint(p, s, c.payload)))
  {
    hide Identity, IsOutcome, Fingerprint;
    FingerprintIsDigest(p, s, c);
    var a, b, d, u := c.topic, p.iso(Identity(p, s, c)), p.digest(c.payload), [UNIT_SEPARATOR];
    assert [streamKey, a, b, d][1..] == [a, b, d] && [a, b, d][1..] == [b, d] && [b, d][1..] == [d];
    assert Join([b, d], UNIT_SEPARATOR) == b + u + d;
    assert Join([a, b, d], UNIT_SEPARATOR) == a + u + (b + u + d);
  }

  lemma FreshTasksAreQueued(tasks: seq<Row<Task>>, rawId: nat, at: int)
    requires forall i :: 0 <= i < |tasks| ==> tasks[i].payload.rawId < rawId
    ensures var after := TasksAfter(TasksAfter(tasks, SchemaTask(rawId), at), FieldTask(rawId), at);
            && |after| == |tasks| + 2 && tasks <= after
            && IsQueued(after[|tasks|], rawId, "schema_observation", "r2.schema.v1", at)
            && IsQueued(after[|tasks| + 1], rawId, "field_projection", "r2.field-projection.v1", at)
  {
  }

  /** The row is new under its key and keeps all that the observation brought. */
  ghost predicate StoredAnew(before: seq<Raw>, after: seq<Raw>, c: Command, key: string, streamId: nat,
                             evidenceId: nat) {
    after == before + [Raw(key, streamId, evidenceId, c.contentType, c.payload, c.metadata, c.receivedAt)]
  }

  /** What recording an observation stores and queues: nothing unless it is accepted. If its
      key is new, one row that keeps what it brought and names its stream and evidence; and
      for such a row, two tasks, due at once, if it is JSON, and none if it is not. */
  lemma AcceptedIsStored(p: Platform, s: Settings, t: Catalog, c: Command) returns (key: string)
    requires Sound(t) && Record(p, s, t, c).Ok?
    ensures var receipt := Record(p, s, t, c).value;
            var u, n, m := receipt.catalog, |t.raws|, |t.tasks|;
            && (!IsOutcome(p, s, c, "accepted") ==> u.raws == t.raws && u.tasks == t.tasks && u.outbox == t.outbox)
            && (c.contentType != Some("application/json") ==> u.tasks == t.tasks)
            && (IsOutcome(p, s, c, "accepted") ==>
                  && receipt.streamId.Some? && receipt.streamId.value < |u.streams|
                  && IsStoredKey(p, s, c, u.streams[receipt.streamId.value].key, key)
                  && (HasRaw(t.raws, key) ==> u.raws == t.raws)
                  && (!HasRaw(t.raws, key) ==>
                      && StoredAnew(t.raws, u.raws, c, key, receipt.streamId.value, |t.evidence|)
                      && (c.contentType == Some("application/json") ==>
                          && |u.tasks| == m + 2 && t.tasks <= u.tasks
                          && IsQueued(u.tasks[m], n, "schema_observation", "r2.schema.v1", c.receivedAt)
                          && IsQueued(u.tasks[m + 1], n, "field_projection", "r2.field-projection.v1", c.receivedAt))))
  {
    hide Record, IsOutcome, IsStoredKey, Resolve, EvidenceOf, PointDelivery, StreamsAfter, StreamFor, RawKey, Identity,
         Fingerprint, TasksAfter, JsonQueued, IsQueued, OutboxAfter;
    key := "";
    RecordAccepts(p, s, t, c);
    if IsOutcome(p, s, c, "accepted") {
      var receipt := Record(p, s, t, c).value;
      var stream := receipt.catalog.streams[receipt.streamId.value];
      key := RawKey(p, stream.key, c.topic, Identity(p, s, c), Fingerprint(p, s, c.payload));
      RawKeyIsStoredKey(p, s, c, stream.key);
      assert RowsTraceable(t);
      FreshTasksAreQueued(t.tasks, |t.raws|, c.receivedAt);
    }
  }

  lemma AcceptedKeyIs(p: Platform, s: Settings, c: Command)
    requires LowersOnce(p.lower) && AcceptedKey(p, s, c).Some?
    ensures var text := StreamKeyMaterial(p.lower, c.sourceId, c.topic, c.tenant);
            text.Ok? && AcceptedKey(p, s, c)
                        == Some(RawKey(p, p.sha256(text.value), c.topic, Identity(p, s, c), p.digest(c.payload)))
  {
    hide Resolve, Identity, RawKey, StreamKeyMaterial, LowersOnce, IsOutcome, Classify, Fingerprint;
    ResolvesTo(p, s, c);
    OutcomeIsClassified(p, s, c);
    FingerprintIsDigest(p, s, c);
  }

  /** Two accepted observations are stored as one row exactly when the key text of their
      stream, their topic as sent, their identifying time and their payload's digest agree. */
  lemma StoredAsOneIff(p: Platform, s: Settings, c1: Command, c2: Command)
    requires CollisionFree(p) && PlainTexts(p) && LowersOnce(p.lower)
    requires AcceptedKey(p, s, c1).Some? && AcceptedKey(p, s, c2).Some?
    ensures AcceptedKey(p, s, c1) == AcceptedKey(p, s, c2) <==>
              && StreamKeyMaterial(p.lower, c1.sourceId, c1.topic, c1.tenant)
                 == StreamKeyMaterial(p.lower, c2.sourceId, c2.topic, c2.tenant)
              && c1.topic == c2.topic
              && Identity(p, s, c1) == Identity(p, s, c2)
              && p.digest(c1.payload) == p.digest(c2.payload)
  {
    hide RawKey, Identity, StreamKeyMaterial, LowersOnce, AcceptedKey;
    AcceptedKeyIs(p, s, c1);
    AcceptedKeyIs(p, s, c2);
    var m1 := StreamKeyMaterial(p.lower, c1.sourceId, c1.topic, c1.tenant).value;
    var m2 := StreamKeyMaterial(p.lower, c2.sourceId, c2.topic, c2.tenant).value;
    RawKeysAgreeIff(p, p.sha256(m1), c1.topic, Identity(p, s, c1), p.digest(c1.payload),
                    p.sha256(m2), c2.topic, Identity(p, s, c2), p.digest(c2.payload));
  }

  /** The observation that the row was stored for. */
  ghost predicate StoredFor(p: Platform, s: Settings, ts: seq<Catalog>, es: seq<Event>, n: nat, r: nat, k: nat)
    requires n < |ts| && r < |ts[n].raws|
  {
    var raw := ts[n].raws[r];
    && k < n && RecordedTo(p, s, ts, es, k, raw.streamId)
    && var c := es[k].command;
    && IsOutcome(p, s, c, "accepted") && KeptFrom(raw, c)
    && raw.evidenceId == |ts[k].evidence| && raw.streamId < |ts[n].streams|
    && IsStoredKey(p, s, c, ts[n].streams[raw.streamId].key, raw.observationKey)
    && !HasRaw(ts[k].raws, raw.observationKey)
  }

  lemma StoredForStays(p: Platform, s: Settings, ts: seq<Catalog>, es: seq<Event>, n: nat, r: nat, k: nat)
    requires 0 < n < |ts| && r < |ts[n - 1].raws| && StoredFor(p, s, ts, es, n - 1, r, k)
    requires Grows(ts[n - 1], ts[n])
    ensures r < |ts[n].raws| && StoredFor(p, s, ts, es, n, r, k)
  {
    hide Record, IsOutcome, IsStoredKey, HasRaw;
  }

  lemma FirstIsStored(p: Platform, s: Settings, ts: seq<Catalog>, es: seq<Event>, n: nat, r: nat)
    requires IsRun(p, s, ts, es) && 0 < n <= |es| && |ts[n - 1].raws| <= r < |ts[n].raws| && Sound(ts[n - 1])
    ensures StoredFor(p, s, ts, es, n, r, n - 1)
  {
    hide Enabled, Record, IsOutcome, IsStoredKey, HasRaw, Sound;
    var t, e := ts[n - 1], es[n - 1];
    assert ts[n] == Next(p, s, t, e);
    if e.Ingest? {
      if Record(p, s, t, e.command).Ok? {
        var key := AcceptedIsStored(p, s, t, e.command);
      }
    } else {
      OthersStoreNothing(p, s, t, e);
    }
  }

  /** Every stored observation was stored for an accepted one of the run, which was the first
      under its key. The row keeps what that one brought, under the stream it was recorded
      under and next to its evidence. */
  lemma {:induction false} RowsShowTheirOrigin(p: Platform, s: Settings, ts: seq<Catalog>, es: seq<Event>, n: nat,
                                               r: nat) returns (k: nat)
    requires IsRun(p, s, ts, es) && n <= |es| && r < |ts[n].raws|
    ensures StoredFor(p, s, ts, es, n, r, k)
  {
    hide Next, Enabled, Sound, StoredFor;
    SoundAlways(p, s, ts, es, n - 1);
    if r < |ts[n - 1].raws| {
      k := RowsShowTheirOrigin(p, s, ts, es, n - 1, r);
      GrowsAlong(p, s, ts, es, n - 1, n);
      StoredForStays(p, s, ts, es, n, r, k);
    } else {
      k := n - 1;
      FirstIsStored(p, s, ts, es, n, r);
    }
  }

  /** A stored JSON observation is projected at the time it was recorded at. */
  lemma ProjectedAsMeasured(p: Platform, s: Settings, raw: Raw, c: Command, at: Selected)
    requires KeptFrom(raw, c) && raw.contentType == Some("application/json")
    ensures ObservedAt(p, s.futureSkewSeconds, raw, at) <==> MeasuredAt(p, s, c, at)
    ensures RawTime(p, s.futureSkewSeconds, raw) == SelectedTime(p, s, c)
  {
    hide SelectTimestamp, Selects;
    RawTimeIff(p, s.futureSkewSeconds, raw, RawTime(p, s.futureSkewSeconds, raw));
    SelectedTimeIff(p, s, c, RawTime(p, s.futureSkewSeconds, raw));
  }
}
