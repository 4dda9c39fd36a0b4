/** The per-stream registry of observed schemas, one transaction per claimed task. */
module SchemaRegistry {
  import opened Std
  import opened JsonValues
  import opened SchemaExtraction
  import opened SchemaDrift
  import opened LeaseTable
  import opened Repositories
  import opened Storage

  datatype ObservedSchema = ObservedSchema(
    streamId: nat, fingerprint: string, versionNumber: nat, rootType: Kind, fields: map<string, FieldDef>,
    document: SchemaDocument, firstObservedAt: int, lastObservedAt: int, observationCount: nat)

  datatype SchemaRecord = SchemaRecord(taskId: nat, rawId: nat, schemaId: nat, observedAt: int)

  datatype DriftEvent = DriftEvent(streamId: nat, previousId: nat, currentId: nat, detectedAt: int, drift: Drift)

  /** The registry's tables; a row's identifier is its position. */
  datatype Registry = Registry(schemas: seq<ObservedSchema>, records: seq<SchemaRecord>, drifts: seq<DriftEvent>)

  /** What processing reads besides: stored observations, existing streams, the JSON parser,
      and the attempt limit of each kind of task. */
  datatype Source = Source(raws: map<nat, Raw>, streams: set<nat>, parse: Bytes -> Option<Json>, codec: Codec,
                           limit: Task -> nat)

  predicate IsSchemaTask(t: Task) {
    t.processorType == SCHEMA_OBSERVATION_PROCESSOR_TYPE && t.processorVersion == SCHEMA_OBSERVATION_PROCESSOR_VERSION
  }

  datatype Ready = Ready(raw: Raw, observation: SchemaObservation)

  /** Everything process_claim checks before it writes. */
  function Prepare(src: Source, rows: seq<Row<Task>>, item: Item<Task>): (r: Result<Ready>) {
    if !IsSchemaTask(item.payload) then Err(STALE)
    else if !Current(rows, item) || !IsSchemaTask(rows[item.id].payload) then Err(STALE)
    else if rows[item.id].payload.rawId != item.payload.rawId then Err(STALE)
    else if item.payload.rawId !in src.raws then Err("raw_observation_missing")
    else
      var raw := src.raws[item.payload.rawId];
      if raw.contentType != JSON_CONTENT then Err("unsupported_persisted_input")
      else
        match Extract(src.codec, src.parse(raw.payload))
        case Err(code) => Err(code)
        case Ok(observation) =>
          if raw.streamId !in src.streams then Err("raw_observation_missing")
          else Ok(Ready(raw, observation))
  }

  /** The stream's schema with this fingerprint. */
  function FindSchema(schemas: seq<ObservedSchema>, streamId: nat, fingerprint: string): (r: Option<nat>)
    ensures r.Some? ==>
              && r.value < |schemas| && schemas[r.value].streamId == streamId
              && schemas[r.value].fingerprint == fingerprint
    ensures r.None? ==> forall i :: 0 <= i < |schemas| && schemas[i].streamId == streamId ==>
              schemas[i].fingerprint != fingerprint
  {
    if schemas == [] then None
    else
      var n := |schemas| - 1;
      if schemas[n].streamId == streamId && schemas[n].fingerprint == fingerprint then Some(n)
      else FindSchema(schemas[..n], streamId, fingerprint)
  }

  /** The stream's schema with the highest version number. */
  function Latest(schemas: seq<ObservedSchema>, streamId: nat): (r: Option<nat>)
    ensures r.Some? ==>
              && r.value < |schemas| && schemas[r.value].streamId == streamId
              && forall i :: 0 <= i < |schemas| && schemas[i].streamId == streamId ==>
                schemas[i].versionNumber <= schemas[r.value].versionNumber
    ensures r.None? ==> forall i :: 0 <= i < |schemas| ==> schemas[i].streamId != streamId
  {
    if schemas == [] then None
    else
      var n := |schemas| - 1;
      var earlier := Latest(schemas[..n], streamId);
      if schemas[n].streamId == streamId
          && (earlier.None? || schemas[earlier.value].versionNumber <= schemas[n].versionNumber)
      then Some(n) else earlier
  }

  /** Recording one observation: reuse the stream's schema with this fingerprint, or add
      the next version and its drift. Returns the schema used. */
  function Register(reg: Registry, ready: Ready, taskId: nat, rawId: nat, now: int): (Registry, nat) {
    var raw, o := ready.raw, ready.observation;
    match FindSchema(reg.schemas, raw.streamId, o.fingerprint)
    case Some(i) =>
      var schema := reg.schemas[i];
      (Registry(reg.schemas[i :=
                            schema.(observationCount := schema.observationCount + 1, lastObservedAt := raw.receivedAt)],
                reg.records + [SchemaRecord(taskId, rawId, i, now)], reg.drifts), i)
    case None =>
      var previous, id := Latest(reg.schemas, raw.streamId), |reg.schemas|;
      var version := if previous.None? then 1 else reg.schemas[previous.value].versionNumber + 1;
      var drifts := if previous.None? then reg.drifts
                    else reg.drifts + [DriftEvent(raw.streamId, previous.value, id, now,
                                                  DriftBetween(reg.schemas[previous.value].fields, o.fields))];
      (Registry(reg.schemas
                + [ObservedSchema(raw.streamId, o.fingerprint, version, o.rootType, o.fields, o.document,
                                  raw.receivedAt, raw.receivedAt, 1)],
                reg.records + [SchemaRecord(taskId, rawId, id, now)], drifts), id)
  }

  datatype Outcome = Processed(schemaId: nat) | Stale | Failed(code: string)

  datatype Effect = Effect(rows: seq<Row<Task>>, registry: Registry, outcome: Outcome)

  /** process_claim as one transaction: all of its writes, or none. */
  function Process(src: Source, rows: seq<Row<Task>>, reg: Registry, item: Item<Task>, takeover: Option<Takeover>,
                   now: int): Effect {
    match Prepare(src, rows, item)
    case Err(code) => Effect(rows, reg, if code == STALE then Stale else Failed(code))
    case Ok(ready) =>
      var between := Reclaimed(rows, item.id, takeover);
      if Current(between, item) then
        var (after, id) := Register(reg, ready, item.id, item.payload.rawId, now);
        Effect(FinalizeRows(between, item, Done, None, None, now), after, Processed(id))
      else Effect(between, reg, Stale)
  }

  class SchemaObservationService {
    const src: Source
    const tasks: ProcessingTaskRepository
    var schemas: seq<ObservedSchema>
    var records: seq<SchemaRecord>
    var drifts: seq<DriftEvent>

    constructor (src: Source, tasks: ProcessingTaskRepository)
      ensures this.src == src && this.tasks == tasks && Tables() == Registry([], [], [])
    {
      this.src, this.tasks := src, tasks;
      schemas, records, drifts := [], [], [];
    }

    function Tables(): Registry
      reads this
    {
      Registry(schemas, records, drifts)
    }

    method ProcessClaim(item: Item<Task>, takeover: Option<Takeover>, now: int) returns (outcome: Outcome)
      modifies this, tasks
      ensures Effect(tasks.rows, Tables(), outcome) == Process(src, old(tasks.rows), old(Tables()), item, takeover, now)
    {
      var prepared := Prepare(src, tasks.rows, item);
      if prepared.Err? {
        return if prepared.code == STALE then Stale else Failed(prepared.code);
      }
      var saved := Tables();
      var schemaId := Write(prepared.value, item.id, item.payload.rawId, now);
      tasks.rows := Reclaimed(tasks.rows, item.id, takeover);
      var finalized := tasks.Finalize(item, Done, None, None, now);
      if !finalized {
        schemas, records, drifts := saved.schemas, saved.records, saved.drifts;
        return Stale;
      }
      outcome := Processed(schemaId);
    }

    method Write(ready: Ready, taskId: nat, rawId: nat, now: int) returns (schemaId: nat)
      modifies this
      ensures (Tables(), schemaId) == Register(old(Tables()), ready, taskId, rawId, now)
    {
      hide DriftBetween, FindSchema, Latest;
      var known := FindSchema(schemas, ready.raw.streamId, ready.observation.fingerprint);
      if known.None? {
        schemaId := AddVersion(ready.raw, ready.observation, now);
      } else {
        schemaId := known.value;
        var schema := schemas[schemaId];
        schemas := schemas[schemaId := schema.(observationCount := schema.observationCount + 1,
                                               lastObservedAt := ready.raw.receivedAt)];
      }
      records := records + [SchemaRecord(taskId, rawId, schemaId, now)];
    }

    /** Insert the stream's next version and, unless it is the first, its drift event. */
    method AddVersion(raw: Raw, observation: SchemaObservation, now: int) returns (id: nat)
      modifies this`schemas, this`drifts
      ensures id == |old(schemas)|
      ensures var previous := Latest(old(schemas), raw.streamId);
              && schemas == old(schemas) + [ObservedSchema(raw.streamId, observation.fingerprint,
                              if previous.None? then 1 else old(schemas)[previous.value].versionNumber + 1,
                              observation.rootType, observation.fields, observation.document, raw.receivedAt,
                              raw.receivedAt, 1)]
              && drifts == if previous.None? then old(drifts)
                           else old(drifts) + [DriftEvent(raw.streamId, previous.value, id, now,
                                                          DriftBetween(old(schemas)[previous.value].fields,
                                                              observation.fields))]
    {
      var previous := Latest(schemas, raw.streamId);
      id := |schemas|;
      var version := if previous.None? then 1 else schemas[previous.value].versionNumber + 1;
      schemas := schemas + [ObservedSchema(raw.streamId, observation.fingerprint, version, observation.rootType,
                                           observation.fields, observation.document, raw.receivedAt,
                                           raw.receivedAt, 1)];
      if previous.Some? {
        drifts := drifts + [DriftEvent(raw.streamId, previous.value, id, now,
                                       DriftBetween(schemas[previous.value].fields, observation.fields))];
      }
    }
  }
}
