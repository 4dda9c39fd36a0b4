/** Rows that several services share, and the functions of the platform they all call. */
module Storage {
  import opened Std
  import opened JsonValues
  import opened ObservationTime
  import opened LeaseTable
  import opened Repositories

  type Bytes = seq<nat>

  /** `sha256` and `digest` are hexadecimal digests, of a text's UTF-8 form and of bytes. */
  datatype Platform = Platform(
    lower: string -> string, sha256: string -> string, digest: Bytes -> string,
    iso: int -> string, fromIso: string -> Parsed, isUtf8: Bytes -> bool, parse: Bytes -> Option<Json>,
    idText: nat -> string, show: Json -> string)

  datatype Stream = Stream(
    key: string, sourceId: string, topic: string, tenant: Option<string>,
    firstObservedAt: int, lastObservedAt: int, observationCount: nat, payloadFormat: Option<string>)

  datatype Evidence = Evidence(
    streamId: Option<nat>, receivedAt: int, outcome: string, payloadSize: nat, contentType: Option<string>,
    fingerprint: string, metadata: map<string, Json>)

  /** An accepted observation, kept as received. */
  datatype Raw = Raw(
    observationKey: string, streamId: nat, evidenceId: nat, contentType: Option<string>,
    payload: Bytes, metadata: map<string, Json>, receivedAt: int)

  /** A point payload: a JSON object, by key; None for a key that is absent. */
  datatype Point = Point(
    streamId: Option<Json>, sourceId: Option<Json>, tenant: Option<Json>, topic: Option<Json>,
    observationTimestamp: Option<Json>, receivedTimestamp: Option<Json>, timestampSource: Option<Json>,
    metric: Option<Json>, unit: Option<Json>, fieldPath: Option<Json>, valueType: Option<Json>, value: Option<Json>,
    contentSchemaVersion: Option<Json>, qualityStatus: Option<Json>, provenanceReference: Option<Json>)

  function Written(s: string): Option<Json> { Some(JString(s)) }

  /** What an outbox row carries. */
  datatype Delivery = Delivery(key: string, streamId: nat, evidenceId: nat, point: Point)

  /** The tables that ingestion and projection write; a row's identifier is its position. */
  datatype Catalog = Catalog(
    streams: seq<Stream>, evidence: seq<Evidence>, raws: seq<Raw>, tasks: seq<Row<Task>>, outbox: seq<Row<Delivery>>)

  /** The same tables in place. */
  class Database {
    var streams: seq<Stream>
    var evidence: seq<Evidence>
    var raws: seq<Raw>
    const tasks: ProcessingTaskRepository
    const outbox: ObservationOutboxRepository<Delivery>

    constructor (tasks: ProcessingTaskRepository, outbox: ObservationOutboxRepository<Delivery>)
      ensures this.tasks == tasks && this.outbox == outbox
      ensures Tables() == Catalog([], [], [], tasks.rows, outbox.rows)
    {
      this.tasks, this.outbox := tasks, outbox;
      streams, evidence, raws := [], [], [];
    }

    function Tables(): Catalog
      reads this, tasks, outbox
    {
      Catalog(streams, evidence, raws, tasks.rows, outbox.rows)
    }
  }

  const SCHEMA_OBSERVATION_PROCESSOR_TYPE := "schema_observation"
  const SCHEMA_OBSERVATION_PROCESSOR_VERSION := "r2.schema.v1"
  const FIELD_PROJECTION_PROCESSOR_TYPE := "field_projection"
  const FIELD_PROJECTION_PROCESSOR_VERSION := "r2.field-projection.v1"
  const STALE := "stale_processing_claim"
  const JSON_CONTENT := Some("application/json")

  function Get(members: seq<Member>, key: string): Option<Json> {
    if key in Keys(members) then Some(Lookup(members, key)) else None
  }
}
