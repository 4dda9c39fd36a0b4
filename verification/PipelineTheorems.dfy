/** What holds at every point of every run of ingestion, projection and delivery. */
module PipelineTheorems {
  import opened Std
  import opened LeaseTable
  import opened Repositories
  import opened Storage
  import opened ObservationKeys
  import opened FieldValueExtraction
  import opened StreamCatalog
  import opened CatalogTheorems
  import opened FieldProjection
  import opened ProjectionSteps
  import opened PointMapping
  import opened PipelineRuns
  import SchemaExtraction
  import ExtractorAgreement
  import ExtractorTheorems

  // ---- recording ----

  /** Every stream counts exactly its linked evidence and shows the times and format of the
      first and the last of it; streams, stored observations,
      tasks and outbox rows are unique under their keys; and every stored JSON observation
      has its schema task and its field task. */
  lemma RecordingIsConservative(p: Platform, s: Settings, ts: seq<Catalog>, es: seq<Event>, n: nat)
    requires IsRun(p, s, ts, es) && n <= |es|
    ensures var t := ts[n];
            && (forall i: nat :: i < |t.streams| ==> SumsUp(t.streams[i], Seen(t.evidence, i)))
            && DistinctStreams(t.streams) && DistinctRaws(t.raws) && DistinctTasks(t.tasks)
            && DistinctDeliveries(t.outbox)
            && (forall r: nat :: r < |t.raws| && t.raws[r].contentType == JSON_CONTENT ==>
                  HasTask(t.tasks, SchemaTask(r)) && HasTask(t.tasks, FieldTask(r)))
            && RowsTraceable(t)
  {
    hide Next, Enabled, RowsTraceable, Seen, SumsUp;
    SoundAlways(p, s, ts, es, n);
  }

  /** A redelivery with the same identifying time, anywhere later in the run, adds one
      evidence row and, unless it was rejected, one to its stream's count; nothing else. */
  lemma RedeliveryInARun(p: Platform, s: Settings, ts: seq<Catalog>, es: seq<Event>, i: nat, j: nat)
    requires IsRun(p, s, ts, es) && i < j < |es|
    requires es[i].Ingest? && es[j].Ingest? && SameObservation(es[i].command, es[j].command)
    requires Identity(p, s, es[i].command) == Identity(p, s, es[j].command)
    requires Record(p, s, ts[i], es[i].command).Ok?
    ensures var id := Record(p, s, ts[i], es[i].command).value.streamId;
            && (id.Some? ==> id.value < |ts[j].streams| && ts[j + 1] == OnlyNoted(p, s, ts[j], es[j].command, id.value))
            && (id.None? ==>
                  ts[j + 1] == ts[j].(evidence := ts[j].evidence + [EvidenceOf(p, s, es[j].command, None, "rejected")]))
  {
    var c1, c2 := es[i].command, es[j].command;
    hide Consistent, Grows, Record, Identity, SameObservation, OnlyNoted, JsonQueued, EvidenceOf;
    SoundAlways(p, s, ts, es, i);
    SoundAlways(p, s, ts, es, j);
    assert ts[i + 1] == Next(p, s, ts[i], es[i]) && ts[j + 1] == Next(p, s, ts[j], es[j]);
    GrowsAlong(p, s, ts, es, i + 1, j);
    RedeliveryAddsOnlyEvidence(p, s, ts[i], c1, ts[j], c2);
  }

  // ---- stored observations are the accepted identities ----

  /** The key an accepted observation is stored under. */
  function AcceptedKey(p: Platform, s: Settings, c: Command): Option<string> {
    match Resolve(p, s, c)
    case Ok(Some(target)) =>
      if Classify(p, s, c.payload, c.contentType) == "accepted"
      then Some(RawKey(p, target.key, c.topic, Identity(p, s, c), Fingerprint(p, s, c.payload))) else None
    case _ => None
  }

  ghost predicate HasRaw(raws: seq<Raw>, key: string) {
    exists r :: 0 <= r < |raws| && raws[r].observationKey == key
  }

  lemma RawAdded(raws: seq<Raw>, raw: Raw, key: string)
    ensures HasRaw(RawsAfter(raws, raw), key) <==> HasRaw(raws, key) || raw.observationKey == key
  {
    var after := RawsAfter(raws, raw);
    if HasRaw(raws, key) {
      var r :| 0 <= r < |raws| && raws[r].observationKey == key;
      assert after[r].observationKey == key;
    }
    if raw.observationKey == key {
      assert after[RawFor(raws, raw)].observationKey == key;
    }
  }

  lemma IngestStores(p: Platform, s: Settings, t: Catalog, c: Command, key: string)
    ensures HasRaw(Next(p, s, t, Ingest(c)).raws, key) <==> HasRaw(t.raws, key) || AcceptedKey(p, s, c) == Some(key)
  {
    hide Resolve, Classify, Identity, HasRaw, PointDelivery, RawKey, TasksAfter, Fingerprint;
    match Resolve(p, s, c)
    case Ok(Some(target)) =>
      if Classify(p, s, c.payload, c.contentType) == "accepted" {
        var id := StreamFor(t.streams, target);
        assert StreamsAfter(t.streams, target, c)[id].key == target.key;
        RawAdded(t.raws, RawOf(p, s, c, target.key, id, |t.evidence|), key);
      }
    case _ =>
  }

  ghost predicate Accepts(p: Platform, s: Settings, e: Event, key: string) {
    e.Ingest? && AcceptedKey(p, s, e.command) == Some(key)
  }

  lemma OthersStoreNothing(p: Platform, s: Settings, t: Catalog, e: Event)
    requires !e.Ingest?
    ensures Next(p, s, t, e).raws == t.raws
  {
  }

  /** The stored observations are exactly the accepted ones, one row per identity: a key is
      stored if and only if some observation accepted so far has it (and, by
      RecordingIsConservative, it is stored once). */
  lemma {:induction false} StoredAreTheAccepted(p: Platform, s: Settings, ts: seq<Catalog>, es: seq<Event>, n: nat,
                                                key: string)
    requires IsRun(p, s, ts, es) && n <= |es|
    ensures HasRaw(ts[n].raws, key) <==> exists k :: 0 <= k < n && Accepts(p, s, es[k], key)
  {
    hide Next, Enabled, AcceptedKey;
    if n > 0 {
      var t, e := ts[n - 1], es[n - 1];
      StoredAreTheAccepted(p, s, ts, es, n - 1, key);
      assert ts[n] == Next(p, s, t, e);
      if e.Ingest? {
        IngestStores(p, s, t, e.command, key);
      } else {
        OthersStoreNothing(p, s, t, e);
      }
      assert HasRaw(ts[n].raws, key) <==> HasRaw(t.raws, key) || Accepts(p, s, e, key);
    }
  }

  /** The row keeps what the observation brought. */
  ghost predicate KeptFrom(raw: Raw, c: Command) {
    raw.payload == c.payload && raw.contentType == c.contentType && raw.metadata == c.metadata
        && raw.receivedAt == c.receivedAt
  }

  /** Event k is the first that was accepted under the row's key, and the row keeps it. */
  ghost predicate StoredFrom(p: Platform, s: Settings, es: seq<Event>, raw: Raw, k: nat) {
    && k < |es| && Accepts(p, s, es[k], raw.observationKey) && KeptFrom(raw, es[k].command)
    && forall j :: 0 <= j < k ==> !Accepts(p, s, es[j], raw.observationKey)
  }

  lemma IngestKeepsRows(p: Platform, s: Settings, t: Catalog, c: Command, r: nat)
    requires r < |Next(p, s, t, Ingest(c)).raws|
    ensures t.raws <= Next(p, s, t, Ingest(c)).raws
    ensures var raw := Next(p, s, t, Ingest(c)).raws[r];
            r >= |t.raws| ==>
              && AcceptedKey(p, s, c) == Some(raw.observationKey) && KeptFrom(raw, c)
              && !HasRaw(t.raws, raw.observationKey)
  {
    hide Resolve, Classify, Identity, PointDelivery, RawKey, TasksAfter, Fingerprint;
    match Resolve(p, s, c)
    case Ok(Some(target)) =>
      assert StreamsAfter(t.streams, target, c)[StreamFor(t.streams, target)].key == target.key;
    case _ =>
  }

  /** Each stored observation is, byte for byte, the first one accepted under its key;
      later ones under the key change nothing of it, not even its content type. */
  lemma {:induction false} StoredAsFirstAccepted(p: Platform, s: Settings, ts: seq<Catalog>, es: seq<Event>, n: nat,
                                                 r: nat) returns (k: nat)
    requires IsRun(p, s, ts, es) && n <= |es| && r < |ts[n].raws|
    ensures k < n && StoredFrom(p, s, es, ts[n].raws[r], k)
  {
    hide Next, Enabled, AcceptedKey, KeptFrom;
    var t, e := ts[n - 1], es[n - 1];
    assert ts[n] == Next(p, s, t, e);
    if e.Ingest? {
      IngestKeepsRows(p, s, t, e.command, r);
    } else {
      OthersStoreNothing(p, s, t, e);
    }
    if r < |t.raws| {
      k := StoredAsFirstAccepted(p, s, ts, es, n - 1, r);
      assert ts[n].raws[r] == t.raws[r];
    } else {
      k := n - 1;
      StoredAreTheAccepted(p, s, ts, es, n - 1, ts[n].raws[r].observationKey);
    }
  }

  lemma AcceptedMeansReadable(p: Platform, s: Settings, payload: Bytes, contentType: Option<string>)
    ensures Classify(p, s, payload, contentType) == "accepted" <==>
              && |payload| <= s.maxPayloadBytes && p.isUtf8(payload)
              && (contentType == JSON_CONTENT ==> p.parse(payload).Some?)
              && contentType in {None, Some(""), JSON_CONTENT, Some("text/plain"), Some("application/octet-stream")}
  {
  }

  /** Every stored payload is within the size limit and reads as UTF-8, and, if it is stored
      as JSON, parses. */
  lemma StoredPayloadsAreReadable(p: Platform, s: Settings, ts: seq<Catalog>, es: seq<Event>, n: nat, r: nat)
    requires IsRun(p, s, ts, es) && n <= |es| && r < |ts[n].raws|
    ensures var raw := ts[n].raws[r];
            && |raw.payload| <= s.maxPayloadBytes && p.isUtf8(raw.payload)
            && (raw.contentType == JSON_CONTENT ==> p.parse(raw.payload).Some?)
  {
    hide Next, Enabled, Resolve, Classify, Identity, RawKey;
    var k := StoredAsFirstAccepted(p, s, ts, es, n, r);
    AcceptedMeansReadable(p, s, es[k].command.payload, es[k].command.contentType);
  }

  /** In no run does a projection fail for a missing row or for a payload that is not JSON
      at all; it is refused as unsupported input exactly when its stored row is not JSON,
      that is, by StoredAsFirstAccepted, when the first observation accepted under its key
      was not declared so. */
  lemma WhatProjectionCanFailOf(p: Platform, s: Settings, ts: seq<Catalog>, es: seq<Event>, n: nat, item: Item<Task>)
    requires IsRun(p, s, ts, es) && n <= |es|
    requires Current(ts[n].tasks, item) && item.payload == ts[n].tasks[item.id].payload && IsFieldTask(item.payload)
             && item.attempts >= 1
    ensures item.payload.rawId < |ts[n].raws|
    ensures var prepared, raw := Prepare(p, ts[n], item), ts[n].raws[item.payload.rawId];
            && (prepared.Err? ==>
                prepared.code !in {STALE, "raw_observation_missing", "invalid_json", "stream_missing"})
            && (prepared == Err("unsupported_persisted_input") <==> raw.contentType != JSON_CONTENT)
  {
    hide Next, Enabled, Counted, JsonQueued, TakeStops, Stops;
    SoundAlways(p, s, ts, es, n);
    var t := ts[n];
    assert RowsTraceable(t);
    var raw := t.raws[item.payload.rawId];
    assert Traceable(t, raw.streamId, raw.evidenceId);
    StoredPayloadsAreReadable(p, s, ts, es, n, item.payload.rawId);
    if raw.contentType == JSON_CONTENT && p.parse(raw.payload).value.JObject? {
      WalkCodes(Stops(p.parse(raw.payload).value, []), EMPTY_TALLY);
    }
  }

  lemma {:induction false} WalkCodes(t: seq<Stop>, q: Tally)
    ensures TakeStops(t, q).Err? ==>
              TakeStops(t, q).code in {"field_node_limit_exceeded", "field_depth_exceeded", "field_path_too_long",
                                       "field_count_exceeded",
                                       "non_finite_number", "root_not_object"}
    decreases |t|
  {
    if t != [] {
      WalkCodes(t[..|t| - 1], q);
    }
  }

  // ---- projection ----

  /** The delivery's row, and no other under its key. */
  ghost predicate OnlyRow(outbox: seq<Row<Delivery>>, d: Delivery) {
    exists k :: 0 <= k < |outbox| && outbox[k].payload == d && forall j ::
      0 <= j < |outbox| && outbox[j].payload.key == d.key ==> j == k
  }

  ghost predicate FieldWritten(p: Platform, t: Catalog, r: nat, q: string)
    requires r < |t.raws|
  {
    HasDelivery(t.outbox, FieldKey(p, t.raws[r].observationKey, q))
  }

  /** All or nothing: while an observation's field task is not completed, the outbox holds
      no row for any of its places; once it is, the outbox holds, for each scalar field of
      its payload, exactly one row, the one that carries the extracted value, and none for
      any other place. */
  lemma ProjectionIsAllOrNothing(p: Platform, s: Settings, ts: seq<Catalog>, es: seq<Event>, n: nat, i: nat)
    requires CollisionFree(p) && PlainTexts(p) && IsRun(p, s, ts, es) && n <= |es|
    requires i < |ts[n].tasks| && IsFieldTask(ts[n].tasks[i].payload)
    ensures var t, r := ts[n], ts[n].tasks[i].payload.rawId;
            && r < |t.raws| && t.raws[r].streamId < |t.streams|
            && (!t.tasks[i].state.Done? ==> forall q :: IsPath(q) ==> !FieldWritten(p, t, r, q))
            && (t.tasks[i].state.Done? ==>
                  && ValuesOf(p, t.raws[r]).Some?
                  && var values := ValuesOf(p, t.raws[r]).value;
                  && (forall q :: q in values ==>
                        OnlyRow(t.outbox, FieldDelivery(p, s.futureSkewSeconds, t.raws[r],
                                                        t.streams[t.raws[r].streamId], q, values[q])))
                  && (forall q :: IsPath(q) ==> (FieldWritten(p, t, r, q) <==> q in values)))
  {
    hide CollisionFree, PlainTexts, Next, Enabled, Inv, FieldKey, IsPath, FieldDelivery, ValuesOf, OnlyRow;
    InvAlways(p, s, ts, es, n);
    var t := ts[n];
    TaskNamesStored(p, s, t, i);
    var r := t.tasks[i].payload.rawId;
    if t.tasks[i].state.Done? {
      DoneHasAll(p, s, t, i);
      forall q | IsPath(q) ensures FieldWritten(p, t, r, q) <==> q in ValuesOf(p, t.raws[r]).value {
        DoneHasExactly(p, s, t, i, q);
      }
    } else {
      forall q | IsPath(q) ensures !FieldWritten(p, t, r, q) {
        TaskIsUnprojected(p, s, t, i);
        UnprojectedHasNoRows(p, s, t, r, q);
      }
    }
  }

  lemma TaskNamesStored(p: Platform, s: Settings, t: Catalog, i: nat)
    requires Inv(p, s, t) && i < |t.tasks|
    ensures t.tasks[i].payload.rawId < |t.raws| && t.raws[t.tasks[i].payload.rawId].streamId < |t.streams|
  {
  }

  lemma TaskIsUnprojected(p: Platform, s: Settings, t: Catalog, i: nat)
    requires Inv(p, s, t) && i < |t.tasks| && IsFieldTask(t.tasks[i].payload) && !t.tasks[i].state.Done?
    ensures !Projected(t.tasks, t.tasks[i].payload.rawId)
  {
  }

  lemma DoneHasAll(p: Platform, s: Settings, t: Catalog, i: nat)
    requires Inv(p, s, t) && DoneField(t.tasks, i)
    ensures var r := t.tasks[i].payload.rawId;
            && r < |t.raws| && t.raws[r].streamId < |t.streams| && ValuesOf(p, t.raws[r]).Some?
            && forall q :: q in ValuesOf(p, t.raws[r]).value ==>
                 OnlyRow(t.outbox, FieldDelivery(p, s.futureSkewSeconds, t.raws[r], t.streams[t.raws[r].streamId], q,
                                                 ValuesOf(p, t.raws[r]).value[q]))
  {
  }

  lemma DoneHasExactly(p: Platform, s: Settings, t: Catalog, i: nat, q: string)
    requires CollisionFree(p) && Inv(p, s, t) && DoneField(t.tasks, i) && IsPath(q)
    requires t.tasks[i].payload.rawId < |t.raws|
    ensures ValuesOf(p, t.raws[t.tasks[i].payload.rawId]).Some?
    ensures FieldWritten(p, t, t.tasks[i].payload.rawId, q)
            <==> q in ValuesOf(p, t.raws[t.tasks[i].payload.rawId]).value
  {
    hide CollisionFree, Inv, ValuesOf, IsPath, FieldKey, RawTime, FieldPoint;
    var r := t.tasks[i].payload.rawId;
    DoneHasAll(p, s, t, i);
    var values, key := ValuesOf(p, t.raws[r]).value, FieldKey(p, t.raws[r].observationKey, q);
    if q in values {
      var d := FieldDelivery(p, s.futureSkewSeconds, t.raws[r], t.streams[t.raws[r].streamId], q, values[q]);
      assert OnlyRow(t.outbox, d);
    }
    if FieldWritten(p, t, r, q) {
      var k: nat :| k < |t.outbox| && t.outbox[k].payload.key == key;
      RowWithFieldKey(p, s, t, k, r, q);
    }
  }

  /** Where the schema extractor also accepts the payload, the rows of a completed field
      task are one for each scalar field of the schema outside arrays, and no other. */
  lemma ProjectedFieldsAreTheSchemas(p: Platform, s: Settings, ts: seq<Catalog>, es: seq<Event>, n: nat, i: nat,
                                     codec: SchemaExtraction.Codec)
    requires CollisionFree(p) && PlainTexts(p) && IsRun(p, s, ts, es) && n <= |es|
    requires DoneField(ts[n].tasks, i)
    requires ts[n].tasks[i].payload.rawId < |ts[n].raws|
             && SchemaExtraction.Extract(codec, p.parse(ts[n].raws[ts[n].tasks[i].payload.rawId].payload)).Ok?
    ensures var t, r := ts[n], ts[n].tasks[i].payload.rawId;
            var fields := SchemaExtraction.Extract(codec, p.parse(t.raws[r].payload)).value.fields;
            forall q :: IsPath(q) ==>
              (FieldWritten(p, t, r, q) <==> q in ExtractorTheorems.FieldPaths(fields, ExtractorAgreement.Kept))
  {
    hide CollisionFree, PlainTexts, Next, Enabled, Inv, FieldKey, IsPath, SchemaExtraction.Extract, TakeStops,
         FieldWritten;
    var t, r := ts[n], ts[n].tasks[i].payload.rawId;
    ProjectionIsAllOrNothing(p, s, ts, es, n, i);
    var raw := t.raws[r];
    ExtractorTheorems.ExtractorsAgree(codec, |raw.payload|, p.parse(raw.payload).value);
  }

  // ---- delivery ----

  /** Every outbox row of every run maps to a point, except the field rows of a stream whose
      tenant is the empty text. */
  lemma RowsMapUnlessTenantIsEmpty(p: Platform, s: Settings, ts: seq<Catalog>, es: seq<Event>, n: nat, k: nat)
    requires CollisionFree(p) && PlainTexts(p) && ReadsItsOwnWriting(p) && IsRun(p, s, ts, es) && n <= |es|
    requires k < |ts[n].outbox|
    ensures var t, d := ts[n], ts[n].outbox[k].payload;
            && d.streamId < |t.streams|
            && (Mapping(p, d).Ok? <==>
                  !(d.point.contentSchemaVersion == Written(FIELD_POINT_SCHEMA_VERSION)
                    && t.streams[d.streamId].tenant == Some("")))
  {
    hide CollisionFree, PlainTexts, Next, Enabled, Mapping, ReadsItsOwnWriting, JsonQueued, Completed, Counted,
         ValuesOf, IsPointRow;
    InvAlways(p, s, ts, es, n);
    var t, d := ts[n], ts[n].outbox[k].payload;
    assert Traceable(t, d.streamId, d.evidenceId);
    if IsPointRow(p, s, d) {
      PointRowMaps(p, s, d);
    } else {
      assert FromProjection(p, s, t, d);
      var r: nat, q :| IsFieldRow(p, s, t, d, r, q) && Projected(t.tasks, r);
      ValuesAreOnPaths(p, t.raws[r], q);
      FieldPointsAreValidIff(p, s.futureSkewSeconds, t.raws[r], t.streams[t.raws[r].streamId], q,
                             ValuesOf(p, t.raws[r]).value[q]);
    }
  }

  lemma PointRowMaps(p: Platform, s: Settings, d: Delivery)
    requires ReadsItsOwnWriting(p) && IsPointRow(p, s, d)
    ensures Mapping(p, d).Ok? && d.point.contentSchemaVersion != Written(FIELD_POINT_SCHEMA_VERSION)
  {
    hide Mapping, ReadsItsOwnWriting, PointDelivery, States, HoldsValue, TimedAsMeasured;
    var c, stream: Stream, streamId: nat, evidenceId: nat
        :| PointDelivery(p, s, c, stream, streamId, evidenceId) == Some(d);
    var members, m := DeliveredIsStated(p, s, c, stream, streamId, evidenceId);
    StatedIsDelivered(p, s, c, stream, streamId, evidenceId, members, m.metric, m.unit, m.value);
    NormalizedPointsAreValid(p, s, c, stream, streamId, evidenceId, members, m.metric, m.unit, m.value);
  }
}
