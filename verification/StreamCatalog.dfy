/** Ingestion: one transaction per received observation. */
module StreamCatalog {
  import opened Std
  import opened JsonValues
  import opened LeaseTable
  import opened Repositories
  import opened StreamIdentity
  import opened TopicFilter
  import opened ObservationTime
  import opened Storage
  import opened ObservationKeys

  const NORMALIZED_POINT_SCHEMA_VERSION := "r1.normalized-point.v1"
  const MAX_METRIC_LENGTH := 255
  const MAX_UNIT_LENGTH := 64

  datatype Settings = Settings(
    allowlist: seq<string>, maxPayloadBytes: nat, futureSkewSeconds: nat, fallbackWindowSeconds: Window,
    schemaMaxAttempts: nat, projectionMaxAttempts: nat, outbox: Policy)

  datatype Command = Command(
    sourceId: string, topic: string, payload: Bytes, tenant: Option<string>, contentType: Option<string>,
    metadata: map<string, Json>, receivedAt: int)

  function Classify(p: Platform, s: Settings, payload: Bytes, contentType: Option<string>): string {
    if |payload| > s.maxPayloadBytes then "oversized"
    else if contentType.Some? && contentType.value != ""
            && contentType.value !in {"application/json", "text/plain", "application/octet-stream"}
               then "unsupported_encoding"
    else if !p.isUtf8(payload) then "unsupported_encoding"
    else if contentType == JSON_CONTENT && p.parse(payload).None? then "malformed"
    else "accepted"
  }

  function Fingerprint(p: Platform, s: Settings, payload: Bytes): string {
    p.digest(if |payload| > s.maxPayloadBytes then payload[..s.maxPayloadBytes] else payload)
  }

  /** The stream an observation belongs to. */
  datatype Target = Target(key: string, sourceId: string, topic: string)

  /** No target: the observation is rejected. An error: the tenant is blank. */
  function Resolve(p: Platform, s: Settings, c: Command): Result<Option<Target>> {
    var topic, source := Authorized(s.allowlist, c.topic), NormalizeIdentifier(p.lower, c.sourceId);
    if topic.Err? || source.Err? then Ok(None)
    else
      match StreamKeyMaterial(p.lower, source.value, topic.value, c.tenant)
      case Err(code) => Err(code)
      case Ok(material) => Ok(Some(Target(p.sha256(material), source.value, topic.value)))
  }

  // ---- the envelope ----

  /** The members of a JSON payload that is an object. */
  function Envelope(p: Platform, c: Command): Option<seq<Member>> {
    if c.contentType != JSON_CONTENT then None
    else
      match p.parse(c.payload)
      case Some(JObject(members)) => Some(members)
      case _ => None
  }

  function SourceTimestamp(p: Platform, c: Command): Option<Json> {
    match Envelope(p, c)
    case None => None
    case Some(members) => Get(members, "timestamp")
  }

  function SelectedTime(p: Platform, s: Settings, c: Command): Selected {
    SelectTimestamp(p.fromIso, SourceTimestamp(p, c), c.metadata, c.receivedAt, s.futureSkewSeconds)
  }

  /** The document an observation declares its payload to be. */
  ghost function Declared(p: Platform, c: Command): Option<Json> {
    if c.contentType == JSON_CONTENT then p.parse(c.payload) else None
  }

  /** The time an observation is recorded at, said of its payload, its metadata and its
      receipt. */
  ghost predicate MeasuredAt(p: Platform, s: Settings, c: Command, at: Selected) {
    Selects(p.fromIso, Declared(p, c), c.metadata, c.receivedAt, s.futureSkewSeconds, at)
  }

  lemma SelectedTimeIff(p: Platform, s: Settings, c: Command, at: Selected)
    ensures at == SelectedTime(p, s, c) <==> MeasuredAt(p, s, c, at)
  {
    hide SelectTimestamp, Selects;
    SelectedIff(p.fromIso, Declared(p, c), c.metadata, c.receivedAt, s.futureSkewSeconds, at);
  }

  function Identity(p: Platform, s: Settings, c: Command): int {
    IdentityTime(SelectedTime(p, s, c), s.fallbackWindowSeconds)
  }

  datatype Measurement = Measurement(metric: string, unit: Option<string>, valueType: string, value: Json)

  function ValueType(v: Json): Option<string> {
    match v
    case JBool(_) => Some("boolean")
    case JInt(_) => Some("integer")
    case JFloat(Finite(_)) => Some("float")
    case JString(_) => Some("string")
    case _ => None
  }

  /** The measurement an envelope states, if it states one. */
  function MeasurementOf(p: Platform, members: seq<Member>): Option<Measurement> {
    var metric, value, unit := Get(members, "metric"), Get(members, "value"), Get(members, "unit");
    if metric.None? || !metric.value.JString? || Strip(metric.value.s) == ""
        || |Strip(metric.value.s)| > MAX_METRIC_LENGTH then None
    else if unit.Some? && !unit.value.JNull? && (!unit.value.JString? || |Strip(unit.value.s)| > MAX_UNIT_LENGTH)
        then None
    else if value.None? || ValueType(value.value).None? then None
    else
      Some(Measurement(
             p.lower(Strip(metric.value.s)),
             if unit.Some? && unit.value.JString? then Some(Strip(unit.value.s)) else None,
             ValueType(value.value).value, value.value))
  }

  /** The unit that members give, if they give one. */
  ghost predicate GivesUnit(members: seq<Member>, unit: Option<string>) {
    if "unit" !in Keys(members) || Lookup(members, "unit").JNull? then unit == None
    else
      var u := Lookup(members, "unit");
      u.JString? && |Strip(u.s)| <= 64 && unit == Some(Strip(u.s))
  }

  /** The members state a measurement: a metric that is a text of 1 to 255 characters between
      spaces, in lower case; a boolean, integer, finite float or text as its value; and no
      unit, or one that is a text of at most 64 characters between spaces. */
  ghost predicate States(p: Platform, members: seq<Member>, metric: string, unit: Option<string>, value: Json) {
    && "metric" in Keys(members) && "value" in Keys(members)
    && (var m := Lookup(members, "metric");
        m.JString? && 1 <= |Strip(m.s)| <= 255 && metric == p.lower(Strip(m.s)))
    && value == Lookup(members, "value")
    && (value.JBool? || value.JInt? || (value.JFloat? && value.f.Finite?) || value.JString?)
    && GivesUnit(members, unit)
  }

  function TypeName(value: Json): string {
    match value
    case JBool(_) => "boolean"
    case JInt(_) => "integer"
    case JFloat(_) => "float"
    case _ => "string"
  }

  /** A measurement is read exactly from the members that state it. */
  lemma MeasurementIff(p: Platform, members: seq<Member>, m: Measurement)
    ensures MeasurementOf(p, members) == Some(m)
       <==> States(p, members, m.metric, m.unit, m.value) && m.valueType == TypeName(m.value)
  {
    hide Strip, Lookup, Keys;
  }

  function TextOrNull(t: Option<string>): Option<Json> {
    Some(if t.Some? then JString(t.value) else JNull)
  }

  function NormalizedPoint(p: Platform, stream: Stream, streamId: nat, evidenceId: nat, m: Measurement,
                           selected: Selected, receivedAt: int): Point {
    Point(
      streamId := Written(p.idText(streamId)),
      sourceId := Written(stream.sourceId),
      tenant := TextOrNull(stream.tenant),
      topic := Written(stream.topic),
      observationTimestamp := Written(p.iso(selected.at)),
      receivedTimestamp := Written(p.iso(receivedAt)),
      timestampSource := Written(SourceText(selected.source)),
      metric := Written(m.metric),
      unit := TextOrNull(m.unit),
      fieldPath := None,
      valueType := Written(m.valueType),
      value := Some(m.value),
      contentSchemaVersion := Written(NORMALIZED_POINT_SCHEMA_VERSION),
      qualityStatus := Written("unassessed"),
      provenanceReference := Written(p.idText(evidenceId)))
  }

  // ---- the tables ----

  function FindStream(streams: seq<Stream>, key: string): (r: Option<nat>)
    ensures r.Some? ==> r.value < |streams| && streams[r.value].key == key
    ensures r.None? ==> forall i :: 0 <= i < |streams| ==> streams[i].key != key
  {
    if streams == [] then None
    else
      var n := |streams| - 1;
      if streams[n].key == key then Some(n) else FindStream(streams[..n], key)
  }

  function FindRaw(raws: seq<Raw>, key: string): (r: Option<nat>)
    ensures r.Some? ==> r.value < |raws| && raws[r.value].observationKey == key
    ensures r.None? ==> forall i :: 0 <= i < |raws| ==> raws[i].observationKey != key
  {
    if raws == [] then None
    else
      var n := |raws| - 1;
      if raws[n].observationKey == key then Some(n) else FindRaw(raws[..n], key)
  }

  predicate HasTask(tasks: seq<Row<Task>>, task: Task) {
    exists i :: 0 <= i < |tasks| && tasks[i].payload == task
  }

  predicate HasDelivery(outbox: seq<Row<Delivery>>, key: string) {
    exists i :: 0 <= i < |outbox| && outbox[i].payload.key == key
  }

  function NewStream(target: Target, c: Command): Stream {
    Stream(target.key, target.sourceId, target.topic, c.tenant, c.receivedAt, c.receivedAt, 1, c.contentType)
  }

  function Observed(stream: Stream, c: Command): Stream {
    stream.(lastObservedAt := c.receivedAt, observationCount := stream.observationCount + 1,
            payloadFormat := c.contentType)
  }

  function StreamsAfter(streams: seq<Stream>, target: Target, c: Command): seq<Stream> {
    match FindStream(streams, target.key)
    case Some(i) => streams[i := Observed(streams[i], c)]
    case None => streams + [NewStream(target, c)]
  }

  function StreamFor(streams: seq<Stream>, target: Target): nat {
    match FindStream(streams, target.key)
    case Some(i) => i
    case None => |streams|
  }

  function EvidenceOf(p: Platform, s: Settings, c: Command, streamId: Option<nat>, outcome: string): Evidence {
    Evidence(streamId, c.receivedAt, outcome, |c.payload|, c.contentType, Fingerprint(p, s, c.payload), c.metadata)
  }

  function RawOf(p: Platform, s: Settings, c: Command, streamKey: string, streamId: nat, evidenceId: nat): Raw {
    Raw(RawKey(p, streamKey, c.topic, Identity(p, s, c), Fingerprint(p, s, c.payload)),
        streamId, evidenceId, c.contentType, c.payload, c.metadata, c.receivedAt)
  }

  function RawsAfter(raws: seq<Raw>, raw: Raw): seq<Raw> {
    if FindRaw(raws, raw.observationKey).Some? then raws else raws + [raw]
  }

  function RawFor(raws: seq<Raw>, raw: Raw): nat {
    match FindRaw(raws, raw.observationKey)
    case Some(i) => i
    case None => |raws|
  }

  function TasksAfter(tasks: seq<Row<Task>>, task: Task, availableAt: int): seq<Row<Task>> {
    if HasTask(tasks, task) then tasks else tasks + [NewRow(task, availableAt)]
  }

  function SchemaTask(rawId: nat): Task {
    Task(rawId, SCHEMA_OBSERVATION_PROCESSOR_TYPE, SCHEMA_OBSERVATION_PROCESSOR_VERSION)
  }

  function FieldTask(rawId: nat): Task {
    Task(rawId, FIELD_PROJECTION_PROCESSOR_TYPE, FIELD_PROJECTION_PROCESSOR_VERSION)
  }

  function OutboxAfter(outbox: seq<Row<Delivery>>, d: Delivery, availableAt: int): seq<Row<Delivery>> {
    if HasDelivery(outbox, d.key) then outbox else outbox + [NewRow(d, availableAt)]
  }

  /** The delivery of the measurement an observation states. */
  function PointDelivery(p: Platform, s: Settings, c: Command, stream: Stream, streamId: nat,
                         evidenceId: nat): Option<Delivery> {
    match Envelope(p, c)
    case None => None
    case Some(members) =>
      match MeasurementOf(p, members)
      case None => None
      case Some(m) =>
        Some(Delivery(PointKey(p, stream.key, Identity(p, s, c), Fingerprint(p, s, c.payload), m.metric), streamId,
                      evidenceId,
                      NormalizedPoint(p, stream, streamId, evidenceId, m, SelectedTime(p, s, c), c.receivedAt)))
  }

  // ---- record ----

  /** What an accepted observation adds once its stream and evidence are in place. */
  function Accepted(p: Platform, s: Settings, t: Catalog, c: Command, streamId: nat, evidenceId: nat): Catalog
    requires streamId < |t.streams|
  {
    var stream := t.streams[streamId];
    var raw := RawOf(p, s, c, stream.key, streamId, evidenceId);
    var rawId := RawFor(t.raws, raw);
    var tasks := if c.contentType == JSON_CONTENT
                 then TasksAfter(TasksAfter(t.tasks, SchemaTask(rawId), c.receivedAt), FieldTask(rawId), c.receivedAt)
                 else t.tasks;
    var point := PointDelivery(p, s, c, stream, streamId, evidenceId);
    var outbox := if point.Some? then OutboxAfter(t.outbox, point.value, c.receivedAt) else t.outbox;
    t.(raws := RawsAfter(t.raws, raw), tasks := tasks, outbox := outbox)
  }

  datatype Receipt = Receipt(catalog: Catalog, streamId: Option<nat>)

  /** record as one transaction; when it raises, nothing is written. */
  function Record(p: Platform, s: Settings, t: Catalog, c: Command): Result<Receipt> {
    match Resolve(p, s, c)
    case Err(code) => Err(code)
    case Ok(None) => Ok(Receipt(t.(evidence := t.evidence + [EvidenceOf(p, s, c, None, "rejected")]), None))
    case Ok(Some(target)) =>
      var outcome := Classify(p, s, c.payload, c.contentType);
      var id := StreamFor(t.streams, target);
      var noted := t.(streams := StreamsAfter(t.streams, target, c),
                      evidence := t.evidence + [EvidenceOf(p, s, c, Some(id), outcome)]);
      Ok(Receipt(if outcome == "accepted" then Accepted(p, s, noted, c, id, |t.evidence|) else noted, Some(id)))
  }

  class StreamCatalogService {
    const p: Platform
    const settings: Settings
    const session: Database

    constructor (p: Platform, settings: Settings, session: Database)
      ensures this.p == p && this.settings == settings && this.session == session
    {
      this.p, this.settings, this.session := p, settings, session;
    }

    method RecordObservation(c: Command) returns (r: Result<Option<nat>>)
      modifies session, session.tasks, session.outbox
      ensures match Record(p, settings, old(session.Tables()), c)
              case Err(code) => r == Err(code) && session.Tables() == old(session.Tables())
              case Ok(receipt) => r == Ok(receipt.streamId) && session.Tables() == receipt.catalog
    {
      hide Classify, StreamKeyMaterial, Authorized, NormalizeIdentifier, PointDelivery, EvidenceOf, StreamsAfter,
           StreamFor, RawsAfter, RawFor, TasksAfter, OutboxAfter, RawKey;
      var authorized := Authorize(settings.allowlist, c.topic);
      var source := NormalizeIdentifier(p.lower, c.sourceId);
      if authorized.Err? || source.Err? {
        var rejected := AddEvidence(c, None, "rejected");
        return Ok(None);
      }
      var outcome := Classify(p, settings, c.payload, c.contentType);
      var material := StreamKeyMaterial(p.lower, source.value, authorized.value, c.tenant);
      if material.Err? {
        return Err(material.code);
      }
      var streamId := UpsertStream(Target(p.sha256(material.value), source.value, authorized.value), c);
      var evidenceId := AddEvidence(c, Some(streamId), outcome);
      if outcome == "accepted" {
        var rawId := AddRaw(c, streamId, evidenceId);
        if c.contentType == JSON_CONTENT {
          Enqueue(SchemaTask(rawId), c.receivedAt);
          Enqueue(FieldTask(rawId), c.receivedAt);
        }
        var point := PointDelivery(p, settings, c, session.streams[streamId], streamId, evidenceId);
        if point.Some? {
          AddDelivery(point.value, c.receivedAt);
        }
      }
      r := Ok(Some(streamId));
    }

    /** Insert the stream, or count one more observation of it. */
    method UpsertStream(target: Target, c: Command) returns (id: nat)
      modifies session`streams
      ensures session.streams == StreamsAfter(old(session.streams), target, c)
      ensures id == StreamFor(old(session.streams), target) && id < |session.streams|
    {
      var known := FindStream(session.streams, target.key);
      if known.Some? {
        id := known.value;
        var stream := session.streams[id];
        session.streams := session.streams[id := stream.(lastObservedAt := c.receivedAt,
                                                         observationCount := stream.observationCount + 1,
                                                         payloadFormat := c.contentType)];
      } else {
        id := |session.streams|;
        session.streams := session.streams + [NewStream(target, c)];
      }
    }

    method AddEvidence(c: Command, streamId: Option<nat>, outcome: string) returns (id: nat)
      modifies session`evidence
      ensures id == |old(session.evidence)|
      ensures session.evidence == old(session.evidence) + [EvidenceOf(p, settings, c, streamId, outcome)]
    {
      id := |session.evidence|;
      session.evidence := session.evidence + [EvidenceOf(p, settings, c, streamId, outcome)];
    }

    /** The accepted bytes, kept once per observation key. */
    method AddRaw(c: Command, streamId: nat, evidenceId: nat) returns (id: nat)
      requires streamId < |session.streams|
      modifies session`raws
      ensures var raw := RawOf(p, settings, c, session.streams[streamId].key, streamId, evidenceId);
              session.raws == RawsAfter(old(session.raws), raw) && id == RawFor(old(session.raws), raw)
    {
      var raw := RawOf(p, settings, c, session.streams[streamId].key, streamId, evidenceId);
      var known := FindRaw(session.raws, raw.observationKey);
      if known.Some? {
        id := known.value;
      } else {
        id := |session.raws|;
        session.raws := session.raws + [raw];
      }
    }

    method Enqueue(task: Task, availableAt: int)
      modifies session.tasks
      ensures session.tasks.rows == TasksAfter(old(session.tasks.rows), task, availableAt)
    {
      if !HasTask(session.tasks.rows, task) {
        session.tasks.rows := session.tasks.rows + [NewRow(task, availableAt)];
      }
    }

    method AddDelivery(d: Delivery, availableAt: int)
      modifies session.outbox
      ensures session.outbox.rows == OutboxAfter(old(session.outbox.rows), d, availableAt)
    {
      if !HasDelivery(session.outbox.rows, d.key) {
        session.outbox.rows := session.outbox.rows + [NewRow(d, availableAt)];
      }
    }
  }
}
