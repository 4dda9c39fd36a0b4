/** From what an accepted document states to the outbox row it becomes, in every run. */
module MeasurementTheorems {
  import opened Std
  import opened JsonValues
  import opened LeaseTable
  import opened Repositories
  import opened StreamIdentity
  import opened ObservationTime
  import opened Storage
  import opened ObservationKeys
  import opened StreamCatalog
  import opened FieldProjection
  import opened PointMapping
  import opened PipelineRuns
  import opened PipelineTheorems
  import opened IngestTheorems
  import Text
  import opened ProjectionSteps

  /** The observation is accepted as a JSON document that states the measurement. */
  ghost predicate Measures(p: Platform, s: Settings, c: Command, members: seq<Member>, metric: string,
                           unit: Option<string>, value: Json) {
    && IsOutcome(p, s, c, "accepted") && Declared(p, c) == Some(JObject(members))
    && States(p, members, metric, unit, value)
  }

  /** The text a measurement's delivery key is the digest of: stream key, identifying time,
      payload digest and metric, with separators between. */
  ghost predicate IsMeasurementKey(p: Platform, s: Settings, c: Command, streamKey: string, metric: string,
                                   key: string) {
    var u := [UNIT_SEPARATOR];
    key == p.sha256(streamKey + u + (p.iso(Identity(p, s, c)) + u + (p.digest(c.payload) + u + metric)))
  }

  /** The point says where the measurement comes from. */
  ghost predicate ShowsOrigin(p: Platform, c: Command, stream: Stream, streamId: nat, evidenceId: nat, point: Point) {
    && point.streamId == Some(JString(p.idText(streamId))) && point.sourceId == Some(JString(stream.sourceId))
    && point.topic == Some(JString(stream.topic))
    && point.tenant == Some(if stream.tenant.Some? then JString(stream.tenant.value) else JNull)
    && point.receivedTimestamp == Some(JString(p.iso(c.receivedAt)))
    && point.provenanceReference == Some(JString(p.idText(evidenceId)))
    && point.contentSchemaVersion == Some(JString("r1.normalized-point.v1"))
    && point.qualityStatus == Some(JString("unassessed")) && point.fieldPath == None
  }

  /** The point says when, and on whose clock. */
  ghost predicate ShowsTime(p: Platform, point: Point, at: Selected) {
    && point.observationTimestamp == Some(JString(p.iso(at.at)))
    && point.timestampSource == Some(JString(ClockName(at.source)))
  }

  /** The point says when and what was measured. */
  ghost predicate ShowsMeasurement(p: Platform, s: Settings, c: Command, point: Point, metric: string,
                                   unit: Option<string>, value: Json) {
    && (exists at :: MeasuredAt(p, s, c, at) && ShowsTime(p, point, at))
    && point.metric == Some(JString(metric))
    && point.unit == Some(if unit.Some? then JString(unit.value) else JNull)
    && point.value == Some(value) && point.valueType == Some(JString(TypeName(value)))
  }

  ghost predicate IsMeasurementRow(p: Platform, s: Settings, c: Command, stream: Stream, streamId: nat,
                                   evidenceId: nat, metric: string, unit: Option<string>, value: Json, d: Delivery) {
    && d.streamId == streamId && d.evidenceId == evidenceId
    && IsMeasurementKey(p, s, c, stream.key, metric, d.key)
    && ShowsOrigin(p, c, stream, streamId, evidenceId, d.point)
    && ShowsMeasurement(p, s, c, d.point, metric, unit, value)
  }

  // ---- one recording ----

  lemma KeyIsMeasurementKey(p: Platform, s: Settings, c: Command, streamKey: string, metric: string)
    requires IsOutcome(p, s, c, "accepted")
    ensures var key := PointKey(p, streamKey, Identity(p, s, c), Fingerprint(p, s, c.payload), metric);
            IsMeasurementKey(p, s, c, streamKey, metric, key)
  {
    hide Identity, IsOutcome, Fingerprint;
    FingerprintIsDigest(p, s, c);
    var a, b, d, u := p.iso(Identity(p, s, c)), p.digest(c.payload), metric, [UNIT_SEPARATOR];
    assert [streamKey, a, b, d][1..] == [a, b, d] && [a, b, d][1..] == [b, d] && [b, d][1..] == [d];
    assert Join([b, d], UNIT_SEPARATOR) == b + u + d;
    assert Join([a, b, d], UNIT_SEPARATOR) == a + u + (b + u + d);
  }

  lemma MeasurementIsDelivered(p: Platform, s: Settings, c: Command, stream: Stream, streamId: nat, evidenceId: nat,
                               members: seq<Member>, metric: string, unit: Option<string>, value: Json)
    requires Measures(p, s, c, members, metric, unit, value)
    ensures var d := PointDelivery(p, s, c, stream, streamId, evidenceId);
            d.Some? && IsMeasurementRow(p, s, c, stream, streamId, evidenceId, metric, unit, value, d.value)
  {
    hide IsOutcome, PointDelivery, States, Identity, Fingerprint, PointKey, IsMeasurementKey, SelectedTime, MeasuredAt;
    StatedIsDelivered(p, s, c, stream, streamId, evidenceId, members, metric, unit, value);
    KeyIsMeasurementKey(p, s, c, stream.key, metric);
    SelectedTimeIff(p, s, c, SelectedTime(p, s, c));
    assert ShowsTime(p, PointDelivery(p, s, c, stream, streamId, evidenceId).value.point, SelectedTime(p, s, c));
  }

  /** Recording an observation that states a measurement queues exactly its row, due at once,
      unless the row's key is taken. */
  lemma StatedIsQueued(p: Platform, s: Settings, t: Catalog, c: Command, members: seq<Member>, metric: string,
                       unit: Option<string>, value: Json) returns (d: Delivery)
    requires Record(p, s, t, c).Ok? && Measures(p, s, c, members, metric, unit, value)
    ensures var receipt := Record(p, s, t, c).value;
            && receipt.streamId.Some? && receipt.streamId.value < |receipt.catalog.streams|
            && IsMeasurementRow(p, s, c, receipt.catalog.streams[receipt.streamId.value], receipt.streamId.value,
                                |t.evidence|, metric, unit, value, d)
            && IsPointRow(p, s, d)
            && receipt.catalog.outbox
               == if HasDelivery(t.outbox, d.key) then t.outbox
                  else t.outbox + [Row(d, Pending, 0, c.receivedAt, None, None, None)]
  {
    hide Record, IsOutcome, Resolve, States, EvidenceOf, PointDelivery, StreamsAfter, StreamFor, RawOf, TasksAfter,
         IsMeasurementRow, HasDelivery;
    RecordAccepts(p, s, t, c);
    var receipt := Record(p, s, t, c).value;
    var streamId := receipt.streamId.value;
    var stream := receipt.catalog.streams[streamId];
    MeasurementIsDelivered(p, s, c, stream, streamId, |t.evidence|, members, metric, unit, value);
    d := PointDelivery(p, s, c, stream, streamId, |t.evidence|).value;
  }

  /** And it queues nothing else: what adds a row to the outbox states a measurement. */
  lemma QueuedIsStated(p: Platform, s: Settings, t: Catalog, c: Command)
    returns (members: seq<Member>, metric: string, unit: Option<string>, value: Json)
    requires Record(p, s, t, c).Ok? && Record(p, s, t, c).value.catalog.outbox != t.outbox
    ensures Measures(p, s, c, members, metric, unit, value)
  {
    hide Record, IsOutcome, Resolve, States, EvidenceOf, PointDelivery, StreamsAfter, StreamFor, RawOf, TasksAfter,
         HasDelivery;
    RecordAccepts(p, s, t, c);
    var receipt := Record(p, s, t, c).value;
    var m;
    members, m := DeliveredIsStated(p, s, c, receipt.catalog.streams[receipt.streamId.value], receipt.streamId.value,
                                    |t.evidence|);
    metric, unit, value := m.metric, m.unit, m.value;
  }

  // ---- runs ----

  /** No two payloads share a digest. */
  ghost predicate DigestsDiffer(p: Platform) {
    forall a, b :: p.digest(a) == p.digest(b) ==> a == b
  }

  /** The event that added the row. */
  lemma {:induction false} AddedAt(p: Platform, s: Settings, ts: seq<Catalog>, es: seq<Event>, n: nat, i: nat)
    returns (j: nat)
    requires IsRun(p, s, ts, es) && n <= |es| && i < |ts[n].outbox|
    ensures j < n && |ts[j].outbox| <= i < |ts[j + 1].outbox|
    ensures ts[n].outbox[i].payload == ts[j + 1].outbox[i].payload
  {
    hide Next, Enabled, Sound;
    if i < |ts[n - 1].outbox| {
      j := AddedAt(p, s, ts, es, n - 1, i);
      GrowsAlong(p, s, ts, es, n - 1, n);
    } else {
      j := n - 1;
    }
  }

  lemma FieldRowsAreNoPoints(p: Platform, s: Settings, t: Catalog, u: Catalog, task: nat, ready: Ready, at: int, i: nat,
                             d: Delivery)
    requires CollisionFree(p) && Inv(p, s, t) && IsPointRow(p, s, d) && ProjectsTask(p, s, t, u, task, ready, at)
    requires |t.outbox| <= i < |u.outbox|
    ensures u.outbox[i].payload.key != d.key
  {
    hide CollisionFree, IsPointRow, Sound, Origins, Completed, ValuesOf, FieldKey, FieldPoint, IsPath, PersistedAll;
    var r, k := t.tasks[task].payload.rawId, i - |t.outbox|;
    var rows := NewRows(p, s, t, u, task, ready, at);
    var q := Text.SortedSet(ready.values.Keys)[k];
    assert IsFieldRow(p, s, t, rows[k].payload, r, q);
    ValuesAreOnPaths(p, t.raws[r], q);
    NoPointRow(p, s, d, t.raws[r].observationKey, q);
  }

  /** What a projection adds to the outbox is never under a measurement's key. */
  lemma ProjectionAddsNone(p: Platform, s: Settings, t: Catalog, item: Item<Task>, takeover: Option<Takeover>, at: int,
                           i: nat, d: Delivery)
    requires CollisionFree(p) && Inv(p, s, t) && IsPointRow(p, s, d)
    requires |t.outbox| <= i < |Project(p, s.futureSkewSeconds, t, item, takeover, at).catalog.outbox|
    ensures Project(p, s.futureSkewSeconds, t, item, takeover, at).catalog.outbox[i].payload.key != d.key
  {
    hide CollisionFree, Project, IsPointRow, ProjectsTask, Inv, DoneField;
    var u := Project(p, s.futureSkewSeconds, t, item, takeover, at).catalog;
    var ready := ProjectCases(p, s, t, item, takeover, at);
    if ready.Some? {
      FieldRowsAreNoPoints(p, s, t, u, item.id, ready.value, at, i, d);
    }
  }

  /** A row under a measurement's key was added by an observation. */
  lemma AddedByIngest(p: Platform, s: Settings, ts: seq<Catalog>, es: seq<Event>, j: nat, i: nat, d: Delivery)
    requires CollisionFree(p) && PlainTexts(p) && IsRun(p, s, ts, es) && j < |es|
    requires |ts[j].outbox| <= i < |ts[j + 1].outbox|
    requires IsPointRow(p, s, d) && ts[j + 1].outbox[i].payload.key == d.key
    ensures es[j].Ingest?
  {
    hide CollisionFree, PlainTexts, Inv, Project, Record, IsPointRow, Enabled, ClaimRows, FinalizeRows, ReplayRows;
    var t, u, e := ts[j], ts[j + 1], es[j];
    assert u == Next(p, s, t, e);
    match e
    case Ingest(_) =>
    case ProjectFields(item, takeover, at) =>
      InvAlways(p, s, ts, es, j);
      ProjectionAddsNone(p, s, t, item, takeover, at, i, d);
    case _ =>
      assert Enabled(s, t, e);
      OtherStepsChangeStates(p, s, t, e);
  }

  /** The measurement's row in the outbox was queued by an earlier recording, or the same one,
      under the same stream, with the same payload and the same identifying time. */
  ghost predicate QueuedBy(p: Platform, s: Settings, ts: seq<Catalog>, es: seq<Event>, k: nat, j: nat, streamId: nat) {
    && j <= k && RecordedTo(p, s, ts, es, j, streamId) && k < |es| && es[k].Ingest?
    && es[j].command.payload == es[k].command.payload
    && Identity(p, s, es[j].command) == Identity(p, s, es[k].command)
  }

  lemma SameKeySameMeasurement(p: Platform, s: Settings, c1: Command, c2: Command, k1: string, k2: string, key: string,
                               members1: seq<Member>, metric1: string, unit1: Option<string>, value1: Json,
                               members2: seq<Member>, metric2: string, unit2: Option<string>, value2: Json)
    requires CollisionFree(p) && PlainTexts(p) && DigestsDiffer(p)
    requires Measures(p, s, c1, members1, metric1, unit1, value1)
             && Measures(p, s, c2, members2, metric2, unit2, value2)
    requires Without(k1, UNIT_SEPARATOR) && Without(k2, UNIT_SEPARATOR)
    requires PointKey(p, k1, Identity(p, s, c1), Fingerprint(p, s, c1.payload), metric1) == key
             && PointKey(p, k2, Identity(p, s, c2), Fingerprint(p, s, c2.payload), metric2) == key
    ensures k1 == k2 && c1.payload == c2.payload && Identity(p, s, c1) == Identity(p, s, c2)
    ensures metric1 == metric2 && unit1 == unit2 && value1 == value2
  {
    hide CollisionFree, IsOutcome, Identity, Fingerprint, PointKey;
    FingerprintIsDigest(p, s, c1);
    FingerprintIsDigest(p, s, c2);
    PointKeysAgreeIff(p, k1, Identity(p, s, c1), Fingerprint(p, s, c1.payload), metric1,
                      k2, Identity(p, s, c2), Fingerprint(p, s, c2.payload), metric2);
  }

  lemma StatedKey(p: Platform, s: Settings, c: Command, stream: Stream, streamId: nat, evidenceId: nat,
                  metric: string, unit: Option<string>, value: Json, d: Delivery)
    requires IsOutcome(p, s, c, "accepted")
    requires IsMeasurementRow(p, s, c, stream, streamId, evidenceId, metric, unit, value, d)
    ensures d.key == PointKey(p, stream.key, Identity(p, s, c), Fingerprint(p, s, c.payload), metric)
  {
    hide Identity, Fingerprint, IsOutcome, PointKey, ShowsOrigin, ShowsMeasurement;
    KeyIsMeasurementKey(p, s, c, stream.key, metric);
  }

  /** The row that a recorded measurement has in the outbox of its own step. */
  lemma QueuedInStep(p: Platform, s: Settings, ts: seq<Catalog>, es: seq<Event>, k: nat, streamId: nat,
                     members: seq<Member>, metric: string, unit: Option<string>, value: Json)
    returns (i: nat, key: string)
    requires IsRun(p, s, ts, es) && RecordedTo(p, s, ts, es, k, streamId)
    requires Measures(p, s, es[k].command, members, metric, unit, value)
    ensures streamId < |ts[k + 1].streams| && i < |ts[k + 1].outbox| && ts[k + 1].outbox[i].payload.key == key
    ensures var c := es[k].command;
            key == PointKey(p, ts[k + 1].streams[streamId].key, Identity(p, s, c), Fingerprint(p, s, c.payload), metric)
    ensures exists d :: IsPointRow(p, s, d) && d.key == key
  {
    hide Record, Measures, IsMeasurementRow, Identity, Fingerprint, PointKey, Enabled, IsPointRow;
    var t, c := ts[k], es[k].command;
    assert ts[k + 1] == Next(p, s, t, es[k]);
    var d := StatedIsQueued(p, s, t, c, members, metric, unit, value);
    key := d.key;
    assert IsOutcome(p, s, c, "accepted") by { MeasuresAccepted(p, s, c, members, metric, unit, value); }
    StatedKey(p, s, c, ts[k + 1].streams[streamId], streamId, |t.evidence|, metric, unit, value, d);
    if HasDelivery(t.outbox, key) {
      i :| i < |t.outbox| && t.outbox[i].payload.key == key;
    } else {
      i := |t.outbox|;
    }
  }

  lemma MeasuresAccepted(p: Platform, s: Settings, c: Command, members: seq<Member>, metric: string,
                         unit: Option<string>, value: Json)
    requires Measures(p, s, c, members, metric, unit, value)
    ensures IsOutcome(p, s, c, "accepted")
  {
  }

  /** The row an observation added states that observation's measurement. */
  lemma AddedRowIsStated(p: Platform, s: Settings, ts: seq<Catalog>, es: seq<Event>, j: nat, i: nat)
    returns (streamId: nat, members: seq<Member>, metric: string, unit: Option<string>, value: Json)
    requires IsRun(p, s, ts, es) && j < |es| && es[j].Ingest? && |ts[j].outbox| <= i < |ts[j + 1].outbox|
    ensures RecordedTo(p, s, ts, es, j, streamId) && streamId < |ts[j + 1].streams|
    ensures Measures(p, s, es[j].command, members, metric, unit, value)
    ensures IsMeasurementRow(p, s, es[j].command, ts[j + 1].streams[streamId], streamId, |ts[j].evidence|, metric, unit,
                             value, ts[j + 1].outbox[i].payload)
  {
    hide Record, Measures, IsMeasurementRow, Enabled, IsPointRow, HasDelivery;
    var t, c := ts[j], es[j].command;
    assert ts[j + 1] == Next(p, s, t, es[j]);
    members, metric, unit, value := QueuedIsStated(p, s, t, c);
    var d := StatedIsQueued(p, s, t, c, members, metric, unit, value);
    streamId := Record(p, s, t, c).value.streamId.value;
  }

  /** The row shows the same measurement of the same stream in every later state. */
  lemma RowStays(p: Platform, s: Settings, ts: seq<Catalog>, es: seq<Event>, j: nat, n: nat, i: nat, streamId: nat,
                 metric: string, unit: Option<string>, value: Json)
    requires IsRun(p, s, ts, es) && j < n <= |es| && es[j].Ingest?
    requires streamId < |ts[j + 1].streams| && i < |ts[j + 1].outbox|
    requires IsMeasurementRow(p, s, es[j].command, ts[j + 1].streams[streamId], streamId, |ts[j].evidence|, metric,
                              unit,
                              value, ts[j + 1].outbox[i].payload)
    ensures streamId < |ts[n].streams| && i < |ts[n].outbox|
    ensures IsMeasurementRow(p, s, es[j].command, ts[n].streams[streamId], streamId, |ts[j].evidence|, metric, unit,
                             value, ts[n].outbox[i].payload)
  {
    hide Next, Enabled, Sound, Identity, IsMeasurementKey, ShowsMeasurement;
    GrowsAlong(p, s, ts, es, j + 1, n);
  }

  lemma StreamKeysArePlain(p: Platform, s: Settings, ts: seq<Catalog>, es: seq<Event>, n: nat, i: nat)
    requires PlainTexts(p) && IsRun(p, s, ts, es) && n <= |es| && i < |ts[n].streams|
    ensures Without(ts[n].streams[i].key, UNIT_SEPARATOR)
  {
    hide Next, Enabled, StreamKeyMaterial, Without;
    StreamsAreKeyed(p, s, ts, es, n);
    assert Keyed(p, ts[n].streams[i]);
  }

  /** Streams with one key are one stream, however far apart in a run. */
  lemma OneStreamPerKey(p: Platform, s: Settings, ts: seq<Catalog>, es: seq<Event>, j: nat, k: nat, a: nat, b: nat)
    requires IsRun(p, s, ts, es) && j <= k <= |es| && a < |ts[j].streams| && b < |ts[k].streams|
    requires ts[j].streams[a].key == ts[k].streams[b].key
    ensures a == b
  {
    hide Next, Enabled, Sound;
    GrowsAlong(p, s, ts, es, j, k);
    RecordingIsConservative(p, s, ts, es, k);
    assert ts[k].streams[a].key == ts[j].streams[a].key;
  }

  /** The recording that added the row of a recorded measurement. */
  lemma AddedBefore(p: Platform, s: Settings, ts: seq<Catalog>, es: seq<Event>, k: nat, streamId: nat,
                    members: seq<Member>, metric: string, unit: Option<string>, value: Json)
    returns (i: nat, j: nat)
    requires CollisionFree(p) && PlainTexts(p) && IsRun(p, s, ts, es) && RecordedTo(p, s, ts, es, k, streamId)
    requires Measures(p, s, es[k].command, members, metric, unit, value)
    ensures j <= k && es[j].Ingest? && |ts[j].outbox| <= i < |ts[j + 1].outbox| && streamId < |ts[k + 1].streams|
    ensures var c := es[k].command;
            ts[j + 1].outbox[i].payload.key == PointKey(p, ts[k + 1].streams[streamId].key, Identity(p, s, c),
                                                        Fingerprint(p, s, c.payload), metric)
  {
    hide CollisionFree, PlainTexts, IsRun, Record, Measures, IsPointRow, Identity, Fingerprint, PointKey;
    RunIsLong(p, s, ts, es);
    var key;
    i, key := QueuedInStep(p, s, ts, es, k, streamId, members, metric, unit, value);
    var d :| IsPointRow(p, s, d) && d.key == key;
    j := AddedAt(p, s, ts, es, k + 1, i);
    AddedByIngest(p, s, ts, es, j, i, d);
  }

  /** Once an observation that states a measurement is recorded, the outbox holds a row for
      it, there and in every later state: under the key of its stream, identifying time,
      payload and metric, with the metric, unit and value it states, and at the time of the
      observation that was the first to be recorded under that key. */
  lemma MeasurementsReachTheOutbox(p: Platform, s: Settings, ts: seq<Catalog>, es: seq<Event>, n: nat, k: nat,
                                   streamId: nat, members: seq<Member>, metric: string, unit: Option<string>,
                                   value: Json) returns (i: nat, j: nat)
    requires CollisionFree(p) && PlainTexts(p) && DigestsDiffer(p) && IsRun(p, s, ts, es) && k < n <= |es|
    requires RecordedTo(p, s, ts, es, k, streamId) && Measures(p, s, es[k].command, members, metric, unit, value)
    ensures QueuedBy(p, s, ts, es, k, j, streamId) && streamId < |ts[n].streams| && i < |ts[n].outbox|
    ensures IsMeasurementRow(p, s, es[j].command, ts[n].streams[streamId], streamId, |ts[j].evidence|, metric, unit,
                             value, ts[n].outbox[i].payload)
  {
    hide CollisionFree, PlainTexts, DigestsDiffer, IsRun, Record, Measures, IsMeasurementRow, Identity, Fingerprint,
         PointKey, Without, IsOutcome;
    RunIsLong(p, s, ts, es);
    i, j := AddedBefore(p, s, ts, es, k, streamId, members, metric, unit, value);
    var a, members1, metric1, unit1, value1 := AddedRowIsStated(p, s, ts, es, j, i);
    var row := ts[j + 1].outbox[i].payload;
    MeasuresAccepted(p, s, es[j].command, members1, metric1, unit1, value1);
    StatedKey(p, s, es[j].command, ts[j + 1].streams[a], a, |ts[j].evidence|, metric1, unit1, value1, row);
    StreamKeysArePlain(p, s, ts, es, j + 1, a);
    StreamKeysArePlain(p, s, ts, es, k + 1, streamId);
    SameKeySameMeasurement(p, s, es[j].command, es[k].command, ts[j + 1].streams[a].key,
                           ts[k + 1].streams[streamId].key, row.key, members1, metric1, unit1, value1, members, metric,
                           unit, value);
    OneStreamPerKey(p, s, ts, es, j + 1, k + 1, a, streamId);
    RowStays(p, s, ts, es, j, n, i, a, metric, unit, value);
  }

  lemma RunIsLong(p: Platform, s: Settings, ts: seq<Catalog>, es: seq<Event>)
    requires IsRun(p, s, ts, es)
    ensures |ts| == |es| + 1
  {
  }
}
