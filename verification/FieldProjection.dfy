/** Field projection: one transaction per claimed task, one outbox row per scalar field. */
module FieldProjection {
  import opened Std
  import opened Text
  import opened JsonValues
  import opened LeaseTable
  import opened Repositories
  import opened ObservationTime
  import opened Storage
  import opened ObservationKeys
  import opened FieldValueExtraction
  import opened StreamCatalog

  const FIELD_POINT_SCHEMA_VERSION := "r2.field-point.v1"

  predicate IsFieldTask(t: Task) {
    t.processorType == FIELD_PROJECTION_PROCESSOR_TYPE && t.processorVersion == FIELD_PROJECTION_PROCESSOR_VERSION
  }

  function ScalarType(v: Scalar): string {
    match v
    case IntegerValue(_) => "integer"
    case FloatValue(_) => "float"
    case BooleanValue(_) => "boolean"
    case StringValue(_) => "string"
  }

  function ScalarJson(v: Scalar): Json {
    match v
    case IntegerValue(i) => JInt(i)
    case FloatValue(r) => JFloat(Finite(r))
    case BooleanValue(b) => JBool(b)
    case StringValue(s) => JString(s)
  }

  function PayloadTimestamp(p: Platform, raw: Raw): Option<Json> {
    match p.parse(raw.payload)
    case Some(JObject(members)) => Get(members, "timestamp")
    case _ => None
  }

  function RawTime(p: Platform, skewSeconds: nat, raw: Raw): Selected {
    SelectTimestamp(p.fromIso, PayloadTimestamp(p, raw), raw.metadata, raw.receivedAt, skewSeconds)
  }

  /** The time a stored observation is projected at, said of its payload, its metadata and
      its receipt. */
  ghost predicate ObservedAt(p: Platform, skewSeconds: nat, raw: Raw, at: Selected) {
    Selects(p.fromIso, p.parse(raw.payload), raw.metadata, raw.receivedAt, skewSeconds, at)
  }

  lemma RawTimeIff(p: Platform, skewSeconds: nat, raw: Raw, at: Selected)
    ensures at == RawTime(p, skewSeconds, raw) <==> ObservedAt(p, skewSeconds, raw, at)
  {
    hide SelectTimestamp, Selects;
    SelectedIff(p.fromIso, p.parse(raw.payload), raw.metadata, raw.receivedAt, skewSeconds, at);
  }

  function FieldPoint(p: Platform, raw: Raw, stream: Stream, selected: Selected, path: string, value: Scalar): Point {
    Point(
      streamId := Written(p.idText(raw.streamId)),
      sourceId := Written(stream.sourceId),
      tenant := if stream.tenant.Some? then Written(stream.tenant.value) else None,
      topic := Written(stream.topic),
      observationTimestamp := Written(p.iso(selected.at)),
      receivedTimestamp := Written(p.iso(raw.receivedAt)),
      timestampSource := Written(SourceText(selected.source)),
      metric := None,
      unit := None,
      fieldPath := Written(path),
      valueType := Written(ScalarType(value)),
      value := Some(ScalarJson(value)),
      contentSchemaVersion := Written(FIELD_POINT_SCHEMA_VERSION),
      qualityStatus := Written("unassessed"),
      provenanceReference := Written(p.idText(raw.evidenceId)))
  }

  /** The outbox row of one scalar field. */
  function FieldDelivery(p: Platform, skewSeconds: nat, raw: Raw, stream: Stream, path: string,
                         value: Scalar): Delivery {
    Delivery(FieldKey(p, raw.observationKey, path), raw.streamId, raw.evidenceId,
             FieldPoint(p, raw, stream, RawTime(p, skewSeconds, raw), path, value))
  }

  datatype Ready = Ready(raw: Raw, values: map<string, Scalar>)

  /** Everything process_claim checks before it writes. */
  function Prepare(p: Platform, t: Catalog, item: Item<Task>): (r: Result<Ready>)
    ensures r.Ok? ==>
              && item.id < |t.tasks| && IsFieldTask(t.tasks[item.id].payload) && t.tasks[item.id].state.Processing?
              && t.tasks[item.id].payload.rawId < |t.raws| && r.value.raw == t.raws[t.tasks[item.id].payload.rawId]
              && r.value.raw.streamId < |t.streams|
              && Current(t.tasks, item) && r.value.raw.contentType == JSON_CONTENT
              && ExtractValues(|r.value.raw.payload|, p.parse(r.value.raw.payload)).Ok?
              && ExtractValues(|r.value.raw.payload|, p.parse(r.value.raw.payload)).value.values == r.value.values
  {
    if !IsFieldTask(item.payload) || item.attempts < 1 then Err(STALE)
    else if !Current(t.tasks, item) || !IsFieldTask(t.tasks[item.id].payload) then Err(STALE)
    else if t.tasks[item.id].payload.rawId != item.payload.rawId then Err(STALE)
    else if item.payload.rawId >= |t.raws| then Err("raw_observation_missing")
    else
      var raw := t.raws[item.payload.rawId];
      if raw.contentType != JSON_CONTENT then Err("unsupported_persisted_input")
      else
        match ExtractValues(|raw.payload|, p.parse(raw.payload))
        case Err(code) => Err(code)
        case Ok(extraction) =>
          if raw.streamId >= |t.streams| then Err("stream_missing")
          else Ok(Ready(raw, extraction.values))
  }

  /** The outbox after the fields on the first n paths have been written in turn. */
  function Persisted(p: Platform, skewSeconds: nat, outbox: seq<Row<Delivery>>, ready: Ready, stream: Stream,
                     paths: seq<string>, n: nat): seq<Row<Delivery>>
    requires n <= |paths| && forall q :: q in paths ==> q in ready.values
  {
    if n == 0 then outbox
    else
      var q := paths[n - 1];
      OutboxAfter(Persisted(p, skewSeconds, outbox, ready, stream, paths, n - 1),
                  FieldDelivery(p, skewSeconds, ready.raw, stream, q, ready.values[q]), ready.raw.receivedAt)
  }

  function PersistedAll(p: Platform, skewSeconds: nat, outbox: seq<Row<Delivery>>, ready: Ready,
                        stream: Stream): seq<Row<Delivery>> {
    var paths := SortedSet(ready.values.Keys);
    Persisted(p, skewSeconds, outbox, ready, stream, paths, |paths|)
  }

  datatype Outcome = Processed(count: nat) | Stale | Failed(code: string)

  datatype Effect = Effect(catalog: Catalog, outcome: Outcome)

  /** process_claim as one transaction: all of its writes, or none. */
  function Project(p: Platform, skewSeconds: nat, t: Catalog, item: Item<Task>, takeover: Option<Takeover>,
                   now: int): Effect {
    match Prepare(p, t, item)
    case Err(code) => Effect(t, if code == STALE then Stale else Failed(code))
    case Ok(ready) =>
      var between := Reclaimed(t.tasks, item.id, takeover);
      if Current(between, item) then
        Effect(t.(tasks := FinalizeRows(between, item, Done, None, None, now),
                  outbox := PersistedAll(p, skewSeconds, t.outbox, ready, t.streams[ready.raw.streamId])),
               Processed(|ready.values|))
      else Effect(t.(tasks := between), Stale)
  }

  class FieldProjectionService {
    const p: Platform
    const skewSeconds: nat
    const session: Database

    constructor (p: Platform, skewSeconds: nat, session: Database)
      ensures this.p == p && this.skewSeconds == skewSeconds && this.session == session
    {
      this.p, this.skewSeconds, this.session := p, skewSeconds, session;
    }

    method ProcessClaim(item: Item<Task>, takeover: Option<Takeover>, now: int) returns (outcome: Outcome)
      modifies session.tasks, session.outbox
      ensures Effect(session.Tables(), outcome) == Project(p, skewSeconds, old(session.Tables()), item, takeover, now)
    {
      var prepared := Prepare(p, session.Tables(), item);
      if prepared.Err? {
        return if prepared.code == STALE then Stale else Failed(prepared.code);
      }
      var ready, saved := prepared.value, session.outbox.rows;
      PersistFields(ready, session.streams[ready.raw.streamId]);
      session.tasks.rows := Reclaimed(session.tasks.rows, item.id, takeover);
      var finalized := session.tasks.Finalize(item, Done, None, None, now);
      if !finalized {
        session.outbox.rows := saved;
        return Stale;
      }
      outcome := Processed(|ready.values|);
    }

    /** The loop over the extracted values, in path order. */
    method PersistFields(ready: Ready, stream: Stream)
      modifies session.outbox
      ensures session.outbox.rows == PersistedAll(p, skewSeconds, old(session.outbox.rows), ready, stream)
    {
      var paths := SortedSet(ready.values.Keys);
      for k := 0 to |paths|
        invariant session.outbox.rows == Persisted(p, skewSeconds, old(session.outbox.rows), ready, stream, paths, k)
      {
        assert paths[k] in paths;
        PersistOutbox(ready.raw, stream, paths[k], ready.values[paths[k]]);
      }
    }

    /** Write one field's row unless its delivery key is taken. */
    method PersistOutbox(raw: Raw, stream: Stream, path: string, value: Scalar)
      modifies session.outbox
      ensures session.outbox.rows
              == OutboxAfter(old(session.outbox.rows), FieldDelivery(p, skewSeconds, raw, stream, path, value),
                             raw.receivedAt)
    {
      var d := FieldDelivery(p, skewSeconds, raw, stream, path, value);
      if !HasDelivery(session.outbox.rows, d.key) {
        session.outbox.rows := session.outbox.rows + [NewRow(d, raw.receivedAt)];
      }
    }
  }
}
