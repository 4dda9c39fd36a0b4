/** What every run of the schema workers keeps true of the registry. */
module RegistryRuns {
  import opened Std
  import opened Ordering
  import opened Text
  import opened JsonValues
  import opened SchemaExtraction
  import opened SchemaDrift
  import opened LeaseTable
  import opened Repositories
  import opened SchemaRegistry
  import ExtractorTheorems
  import LeaseRuns

  // ---- runs ----

  datatype System = System(rows: seq<Row<Task>>, registry: Registry)

  datatype Event =
    | Enqueue(arrivals: seq<Row<Task>>)
    | Claim(now: int, leaseSeconds: int, sel: seq<nat>)
    | ProcessTask(item: Item<Task>, takeover: Option<Takeover>, at: int)
    | Settle(settled: Item<Task>, state: State, when: Option<int>, code: Option<string>, settledAt: int)

  /** Any tasks may arrive, none claimed before. A schema task is only ever completed by the
      transaction that registers its schema; any worker may give it up, or send it back
      below its attempt limit. */
  ghost predicate Enabled(src: Source, s: System, e: Event) {
    match e
    case Enqueue(arrivals) => LeaseRuns.AllNew(arrivals)
    case Claim(now, lease, sel) => Distinct(sel) && forall i :: i in sel ==>
      i < |s.rows| && Eligible(s.rows[i], now, lease)
    case ProcessTask(_, _, _) => true
    case Settle(item, state, _, _, _) =>
      && (Terminal(state) || state.Retryable?)
      && (item.id < |s.rows| && IsSchemaTask(s.rows[item.id].payload) ==> !state.Done?)
      && (state.Retryable? && Current(s.rows, item) ==> item.attempts < src.limit(s.rows[item.id].payload))
  }

  ghost function Next(src: Source, s: System, e: Event): System {
    match e
    case Enqueue(arrivals) => s.(rows := s.rows + arrivals)
    case Claim(now, _, sel) => s.(rows := ClaimRows(s.rows, sel, now))
    case ProcessTask(item, takeover, at) =>
      var effect := Process(src, s.rows, s.registry, item, takeover, at);
      System(effect.rows, effect.registry)
    case Settle(item, state, when, code, at) => s.(rows := FinalizeRows(s.rows, item, state, when, code, at))
  }

  ghost predicate IsRun(src: Source, ss: seq<System>, es: seq<Event>) {
    && |ss| == |es| + 1
    && ss[0] == System([], Registry([], [], []))
    && forall k :: 0 <= k < |es| ==> Enabled(src, ss[k], es[k]) && ss[k + 1] == Next(src, ss[k], es[k])
  }

  // ---- the invariant ----

  /** Schemas of the stream among the first n. */
  function VersionCount(schemas: seq<ObservedSchema>, n: nat, streamId: nat): nat
    requires n <= |schemas|
  {
    if n == 0 then 0
    else VersionCount(schemas, n - 1, streamId) + if schemas[n - 1].streamId == streamId then 1 else 0
  }

  /** Versions are numbered in order of arrival; fingerprints do not repeat; each schema is
      what an observed document has, named by its fingerprint. */
  ghost predicate VersionsInOrder(schemas: seq<ObservedSchema>) {
    forall i: nat :: i < |schemas| ==> schemas[i].versionNumber == VersionCount(schemas, i, schemas[i].streamId) + 1
  }

  ghost predicate FingerprintsDistinct(schemas: seq<ObservedSchema>) {
    forall i, j :: 0 <= i < j < |schemas| && schemas[i].streamId == schemas[j].streamId ==>
      schemas[i].fingerprint != schemas[j].fingerprint
  }

  ghost predicate Genuine(codec: Codec, rootType: Kind, fields: map<string, FieldDef>, document: SchemaDocument,
                          fingerprint: string) {
    && ExtractorTheorems.SelfDescribing(rootType, fields)
    && document == DocumentOf(rootType, fields)
    && fingerprint == codec.sha256(codec.encode(document))
  }

  ghost predicate AllGenuine(codec: Codec, schemas: seq<ObservedSchema>) {
    forall i :: 0 <= i < |schemas| ==>
      Genuine(codec, schemas[i].rootType, schemas[i].fields, schemas[i].document, schemas[i].fingerprint)
  }

  /** The drift event says how its schema differs from the version just before it. */
  ghost predicate Links(schemas: seq<ObservedSchema>, d: DriftEvent) {
    && d.previousId < d.currentId < |schemas|
    && d.streamId == schemas[d.previousId].streamId == schemas[d.currentId].streamId
    && schemas[d.currentId].versionNumber == schemas[d.previousId].versionNumber + 1
    && d.drift == DriftBetween(schemas[d.previousId].fields, schemas[d.currentId].fields)
  }

  ghost predicate DriftFor(drifts: seq<DriftEvent>, schemaId: nat) {
    exists k :: 0 <= k < |drifts| && drifts[k].currentId == schemaId
  }

  ghost predicate DriftsComplete(schemas: seq<ObservedSchema>, drifts: seq<DriftEvent>) {
    && (forall k :: 0 <= k < |drifts| ==> Links(schemas, drifts[k]))
    && (forall j, k :: 0 <= j < k < |drifts| ==> drifts[j].currentId < drifts[k].currentId)
    && (forall i: nat :: i < |schemas| && schemas[i].versionNumber >= 2 ==> DriftFor(drifts, i))
  }

  /** What the extractor makes of a stored observation. */
  function ObservedAs(src: Source, rawId: nat): Result<SchemaObservation>
    requires rawId in src.raws
  {
    Extract(src.codec, src.parse(src.raws[rawId].payload))
  }

  /** The record names the schema its observation has, by its fingerprint; the observation is
      stored as JSON, and the record was made when its task was completed. */
  ghost predicate RecordHolds(src: Source, s: System, r: SchemaRecord) {
    && r.taskId < |s.rows| && s.rows[r.taskId].state.Done? && IsSchemaTask(s.rows[r.taskId].payload)
    && s.rows[r.taskId].payload.rawId == r.rawId && r.rawId in src.raws
    && s.rows[r.taskId].doneAt == Some(r.observedAt)
    && src.raws[r.rawId].contentType == Some("application/json")
    && r.schemaId < |s.registry.schemas|
    && s.registry.schemas[r.schemaId].streamId == src.raws[r.rawId].streamId
    && ObservedAs(src, r.rawId).Ok?
    && s.registry.schemas[r.schemaId].fingerprint == ObservedAs(src, r.rawId).value.fingerprint
  }

  ghost predicate RecordFor(records: seq<SchemaRecord>, taskId: nat) {
    exists k :: 0 <= k < |records| && records[k].taskId == taskId
  }

  /** Completed schema tasks and provenance records correspond one to one. */
  ghost predicate RecordsMatchTasks(src: Source, s: System) {
    var records := s.registry.records;
    && (forall k :: 0 <= k < |records| ==> RecordHolds(src, s, records[k]))
    && (forall j, k :: 0 <= j < k < |records| ==> records[j].taskId != records[k].taskId)
    && (forall i: nat :: i < |s.rows| && s.rows[i].state.Done? && IsSchemaTask(s.rows[i].payload) ==>
        RecordFor(records, i))
  }

  /** Observation counts of the stream's schemas, added up. */
  function Observations(schemas: seq<ObservedSchema>, streamId: nat): nat {
    if schemas == [] then 0
    else
      var n := |schemas| - 1;
      Observations(schemas[..n], streamId) + if schemas[n].streamId == streamId then schemas[n].observationCount else 0
  }

  function OfStream(src: Source, rawId: nat, streamId: nat): bool {
    rawId in src.raws && src.raws[rawId].streamId == streamId
  }

  function CompletedFor(src: Source, streamId: nat): Row<Task> -> bool {
    (row: Row<Task>) => row.state.Done? && IsSchemaTask(row.payload) && OfStream(src, row.payload.rawId, streamId)
  }

  function RecordedFor(src: Source, streamId: nat): SchemaRecord -> bool {
    (r: SchemaRecord) => OfStream(src, r.rawId, streamId)
  }

  function UsesSchema(schemaId: nat): SchemaRecord -> bool {
    (r: SchemaRecord) => r.schemaId == schemaId
  }

  ghost predicate CountsAgree(src: Source, s: System, streamId: nat) {
    && Observations(s.registry.schemas, streamId) == Count(RecordedFor(src, streamId), s.registry.records)
    && Observations(s.registry.schemas, streamId) == Count(CompletedFor(src, streamId), s.rows)
  }

  ghost predicate CountsPerSchema(registry: Registry) {
    forall i: nat :: i < |registry.schemas| ==>
      registry.schemas[i].observationCount == Count(UsesSchema(i), registry.records) >= 1
  }

  /** Record k is the first, or the last, that names the schema. */
  ghost predicate FirstUse(records: seq<SchemaRecord>, schemaId: nat, k: nat) {
    k < |records| && records[k].schemaId == schemaId && forall j :: 0 <= j < k ==> records[j].schemaId != schemaId
  }

  ghost predicate LastUse(records: seq<SchemaRecord>, schemaId: nat, k: nat) {
    k < |records| && records[k].schemaId == schemaId && forall j :: k < j < |records| ==>
      records[j].schemaId != schemaId
  }

  ghost predicate ReceivedAt(src: Source, r: SchemaRecord, at: int) {
    r.rawId in src.raws && src.raws[r.rawId].receivedAt == at
  }

  ghost predicate FirstSeen(src: Source, records: seq<SchemaRecord>, schemaId: nat, at: int) {
    exists k: nat :: FirstUse(records, schemaId, k) && ReceivedAt(src, records[k], at)
  }

  ghost predicate LastSeen(src: Source, records: seq<SchemaRecord>, schemaId: nat, at: int) {
    exists k: nat :: LastUse(records, schemaId, k) && ReceivedAt(src, records[k], at)
  }

  ghost predicate TimesOf(src: Source, records: seq<SchemaRecord>, schemaId: nat, schema: ObservedSchema) {
    FirstSeen(src, records, schemaId, schema.firstObservedAt) && LastSeen(src, records, schemaId, schema.lastObservedAt)
  }

  /** A drift event was detected when the first record of its schema was made. */
  ghost predicate DetectedWithFirstUse(records: seq<SchemaRecord>, d: DriftEvent) {
    exists k: nat :: FirstUse(records, d.currentId, k) && records[k].observedAt == d.detectedAt
  }

  /** A schema was first and last observed when the observations of its first and its last
      provenance record were received. */
  ghost predicate TimesAgree(src: Source, registry: Registry) {
    && (forall i: nat :: i < |registry.schemas| ==> TimesOf(src, registry.records, i, registry.schemas[i]))
    && (forall j :: 0 <= j < |registry.drifts| ==> DetectedWithFirstUse(registry.records, registry.drifts[j]))
  }

  ghost predicate Inv(src: Source, s: System) {
    && VersionsInOrder(s.registry.schemas)
    && FingerprintsDistinct(s.registry.schemas)
    && AllGenuine(src.codec, s.registry.schemas)
    && DriftsComplete(s.registry.schemas, s.registry.drifts)
    && RecordsMatchTasks(src, s)
    && CountsPerSchema(s.registry)
    && TimesAgree(src, s.registry)
    && forall streamId :: CountsAgree(src, s, streamId)
  }

  // ---- one registration ----

  lemma {:induction false} VersionCountFrame(a: seq<ObservedSchema>, b: seq<ObservedSchema>, n: nat, streamId: nat)
    requires n <= |a| && n <= |b|
    requires forall i :: 0 <= i < n ==> a[i].streamId == b[i].streamId
    ensures VersionCount(a, n, streamId) == VersionCount(b, n, streamId)
  {
    if n > 0 {
      VersionCountFrame(a, b, n - 1, streamId);
    }
  }

  lemma {:induction false} VersionCountGrows(schemas: seq<ObservedSchema>, m: nat, n: nat, streamId: nat)
    requires m <= n <= |schemas|
    ensures VersionCount(schemas, m, streamId) <= VersionCount(schemas, n, streamId)
    decreases n
  {
    if m < n {
      VersionCountGrows(schemas, m, n - 1, streamId);
    }
  }

  lemma {:induction false} VersionExists(schemas: seq<ObservedSchema>, n: nat, streamId: nat, k: nat) returns (i: nat)
    requires n <= |schemas| && VersionsInOrder(schemas)
    requires 1 <= k <= VersionCount(schemas, n, streamId)
    ensures i < n && schemas[i].streamId == streamId && schemas[i].versionNumber == k
  {
    if schemas[n - 1].streamId == streamId && VersionCount(schemas, n - 1, streamId) + 1 == k {
      i := n - 1;
    } else {
      i := VersionExists(schemas, n - 1, streamId, k);
    }
  }

  ghost predicate HasVersion(schemas: seq<ObservedSchema>, streamId: nat, version: nat) {
    exists i :: 0 <= i < |schemas| && schemas[i].streamId == streamId && schemas[i].versionNumber == version
  }

  lemma VersionsIncrease(schemas: seq<ObservedSchema>, i: nat, j: nat)
    requires VersionsInOrder(schemas) && i < j < |schemas| && schemas[i].streamId == schemas[j].streamId
    ensures schemas[i].versionNumber < schemas[j].versionNumber
  {
    VersionCountGrows(schemas, i + 1, j, schemas[i].streamId);
    assert VersionCount(schemas, i + 1, schemas[i].streamId) == VersionCount(schemas, i, schemas[i].streamId) + 1;
  }

  /** Each stream's versions are exactly 1..n, each held by one schema. */
  lemma VersionsAreOneToN(schemas: seq<ObservedSchema>, streamId: nat)
    requires VersionsInOrder(schemas)
    ensures forall k: nat :: HasVersion(schemas, streamId, k) <==> 1 <= k <= VersionCount(schemas, |schemas|, streamId)
    ensures forall i, j :: 0 <= i < j < |schemas| && schemas[i].streamId == streamId == schemas[j].streamId
              ==> schemas[i].versionNumber < schemas[j].versionNumber
  {
    var n := VersionCount(schemas, |schemas|, streamId);
    forall k: nat ensures HasVersion(schemas, streamId, k) <==> 1 <= k <= n {
      if 1 <= k <= n {
        var i := VersionExists(schemas, |schemas|, streamId, k);
      }
      if HasVersion(schemas, streamId, k) {
        var i: nat :| i < |schemas| && schemas[i].streamId == streamId && schemas[i].versionNumber == k;
        VersionCountGrows(schemas, i + 1, |schemas|, streamId);
      }
    }
    forall i, j | 0 <= i < j < |schemas| && schemas[i].streamId == streamId == schemas[j].streamId
      ensures schemas[i].versionNumber < schemas[j].versionNumber
    {
      VersionsIncrease(schemas, i, j);
    }
  }

  lemma VersionAt(schemas: seq<ObservedSchema>, i: nat)
    requires VersionsInOrder(schemas) && i < |schemas|
    ensures schemas[i].versionNumber == VersionCount(schemas, i + 1, schemas[i].streamId)
  {
  }

  /** The highest version is the number of versions. */
  lemma LatestIsCount(schemas: seq<ObservedSchema>, streamId: nat)
    requires VersionsInOrder(schemas)
    ensures match Latest(schemas, streamId)
            case None => VersionCount(schemas, |schemas|, streamId) == 0
            case Some(p) => schemas[p].versionNumber == VersionCount(schemas, |schemas|, streamId)
  {
    hide VersionsInOrder, VersionCount, Latest;
    var n := VersionCount(schemas, |schemas|, streamId);
    if n > 0 {
      var i := VersionExists(schemas, |schemas|, streamId, n);
      assert schemas[i].streamId == streamId;
    }
    var latest := Latest(schemas, streamId);
    if latest.Some? {
      VersionAt(schemas, latest.value);
      VersionCountGrows(schemas, latest.value + 1, |schemas|, streamId);
    }
  }

  ghost predicate SchemasInv(codec: Codec, schemas: seq<ObservedSchema>, drifts: seq<DriftEvent>) {
    && VersionsInOrder(schemas)
    && FingerprintsDistinct(schemas)
    && AllGenuine(codec, schemas)
    && DriftsComplete(schemas, drifts)
  }

  /** The observation is one the extractor made of the stored payload. */
  ghost predicate ReadyFrom(src: Source, ready: Ready) {
    && Extract(src.codec, src.parse(ready.raw.payload)) == Ok(ready.observation)
  }

  lemma ObservationIsGenuine(src: Source, ready: Ready)
    requires ReadyFrom(src, ready)
    ensures var o := ready.observation; Genuine(src.codec, o.rootType, o.fields, o.document, o.fingerprint)
  {
    ExtractorTheorems.ObservationsDescribeThemselves(src.codec, src.parse(ready.raw.payload).value);
  }

  lemma VersionsAppend(schemas: seq<ObservedSchema>, schema: ObservedSchema)
    requires VersionsInOrder(schemas) && FingerprintsDistinct(schemas)
    requires schema.versionNumber == VersionCount(schemas, |schemas|, schema.streamId) + 1
    requires forall i :: 0 <= i < |schemas| && schemas[i].streamId == schema.streamId ==>
               schemas[i].fingerprint != schema.fingerprint
    ensures VersionsInOrder(schemas + [schema]) && FingerprintsDistinct(schemas + [schema])
  {
    var after := schemas + [schema];
    forall i: nat | i < |after| ensures after[i].versionNumber == VersionCount(after, i, after[i].streamId) + 1 {
      VersionCountFrame(schemas, after, i, after[i].streamId);
    }
  }

  lemma DriftsAppend(schemas: seq<ObservedSchema>, drifts: seq<DriftEvent>, schema: ObservedSchema, d: DriftEvent)
    requires DriftsComplete(schemas, drifts) && d.currentId == |schemas| && Links(schemas + [schema], d)
    ensures DriftsComplete(schemas + [schema], drifts + [d])
  {
    hide DriftBetween;
    var after, more := schemas + [schema], drifts + [d];
    forall k | 0 <= k < |drifts| ensures Links(after, drifts[k]) {
      assert Links(schemas, drifts[k]);
    }
    forall i: nat | i < |after| && after[i].versionNumber >= 2 ensures DriftFor(more, i) {
      if i < |schemas| {
        assert DriftFor(drifts, i);
        var k :| 0 <= k < |drifts| && drifts[k].currentId == i;
        assert more[k].currentId == i;
      } else {
        assert more[|drifts|].currentId == i;
      }
    }
  }

  lemma FirstVersionNeedsNoDrift(schemas: seq<ObservedSchema>, drifts: seq<DriftEvent>, schema: ObservedSchema)
    requires DriftsComplete(schemas, drifts) && schema.versionNumber == 1
    ensures DriftsComplete(schemas + [schema], drifts)
  {
  }

  lemma NewVersionKeeps(src: Source, reg: Registry, ready: Ready, taskId: nat, rawId: nat, now: int)
    requires SchemasInv(src.codec, reg.schemas, reg.drifts) && ReadyFrom(src, ready)
    requires FindSchema(reg.schemas, ready.raw.streamId, ready.observation.fingerprint).None?
    ensures var after := Register(reg, ready, taskId, rawId, now).0; SchemasInv(src.codec, after.schemas, after.drifts)
  {
    hide DriftBetween, Genuine, ReadyFrom;
    var after := Register(reg, ready, taskId, rawId, now).0;
    var schema := after.schemas[|reg.schemas|];
    assert after.schemas == reg.schemas + [schema];
    LatestIsCount(reg.schemas, ready.raw.streamId);
    VersionsAppend(reg.schemas, schema);
    ObservationIsGenuine(src, ready);
    if Latest(reg.schemas, ready.raw.streamId).None? {
      FirstVersionNeedsNoDrift(reg.schemas, reg.drifts, schema);
    } else {
      var d := after.drifts[|reg.drifts|];
      assert after.drifts == reg.drifts + [d];
      assert Links(reg.schemas + [schema], d);
      DriftsAppend(reg.schemas, reg.drifts, schema, d);
    }
  }

  lemma SameVersionsKeep(codec: Codec, schemas: seq<ObservedSchema>, drifts: seq<DriftEvent>, i: nat, count: nat,
                         at: int)
    requires SchemasInv(codec, schemas, drifts) && i < |schemas|
    ensures SchemasInv(codec, schemas[i := schemas[i].(observationCount := count, lastObservedAt := at)], drifts)
  {
    hide DriftBetween, Genuine, ReadyFrom;
    var after := schemas[i := schemas[i].(observationCount := count, lastObservedAt := at)];
    forall j: nat | j < |after| ensures after[j].versionNumber == VersionCount(after, j, after[j].streamId) + 1 {
      VersionCountFrame(schemas, after, j, after[j].streamId);
    }
    forall k | 0 <= k < |drifts| ensures Links(after, drifts[k]) {
      assert Links(schemas, drifts[k]);
    }
  }

  lemma ReuseKeeps(src: Source, reg: Registry, ready: Ready, taskId: nat, rawId: nat, now: int)
    requires SchemasInv(src.codec, reg.schemas, reg.drifts)
    requires FindSchema(reg.schemas, ready.raw.streamId, ready.observation.fingerprint).Some?
    ensures var after := Register(reg, ready, taskId, rawId, now).0; SchemasInv(src.codec, after.schemas, after.drifts)
  {
    hide SchemasInv;
    var i := FindSchema(reg.schemas, ready.raw.streamId, ready.observation.fingerprint).value;
    SameVersionsKeep(src.codec, reg.schemas, reg.drifts, i, reg.schemas[i].observationCount + 1, ready.raw.receivedAt);
  }

  lemma RegisterKeepsSchemas(src: Source, reg: Registry, ready: Ready, taskId: nat, rawId: nat, now: int)
    requires SchemasInv(src.codec, reg.schemas, reg.drifts) && ReadyFrom(src, ready)
    ensures var after := Register(reg, ready, taskId, rawId, now).0; SchemasInv(src.codec, after.schemas, after.drifts)
  {
    hide SchemasInv, Register, ReadyFrom;
    if FindSchema(reg.schemas, ready.raw.streamId, ready.observation.fingerprint).None? {
      NewVersionKeeps(src, reg, ready, taskId, rawId, now);
    } else {
      ReuseKeeps(src, reg, ready, taskId, rawId, now);
    }
  }

  // ---- counting ----

  lemma {:induction false} ObservationsUpdate(schemas: seq<ObservedSchema>, i: nat, schema: ObservedSchema,
                                              streamId: nat)
    requires i < |schemas| && schema.streamId == schemas[i].streamId
    ensures Observations(schemas[i := schema], streamId) ==
              Observations(schemas, streamId) + if schema.streamId == streamId
                  then schema.observationCount - schemas[i].observationCount else 0
    decreases |schemas|
  {
    var n := |schemas| - 1;
    if i < n {
      ObservationsUpdate(schemas[..n], i, schema, streamId);
      assert schemas[i := schema][..n] == schemas[..n][i := schema];
    } else {
      assert schemas[i := schema][..n] == schemas[..n];
    }
  }

  /** One registration adds one observation to its stream and none to any other. */
  lemma RegisterCounts(reg: Registry, ready: Ready, taskId: nat, rawId: nat, now: int, streamId: nat)
    ensures Observations(Register(reg, ready, taskId, rawId, now).0.schemas, streamId) ==
              Observations(reg.schemas, streamId) + if ready.raw.streamId == streamId then 1 else 0
  {
    var after := Register(reg, ready, taskId, rawId, now).0.schemas;
    match FindSchema(reg.schemas, ready.raw.streamId, ready.observation.fingerprint)
    case Some(i) => ObservationsUpdate(reg.schemas, i, after[i], streamId);
    case None => assert after[..|after| - 1] == reg.schemas;
  }

  lemma CountOneMore<T>(p: T -> bool, s: seq<T>, x: T)
    ensures Count(p, s + [x]) == Count(p, s) + if p(x) then 1 else 0
  {
    CountAppend(p, s, [x]);
  }

  lemma {:induction false} CountNone<T>(p: T -> bool, s: seq<T>)
    requires forall i :: 0 <= i < |s| ==> !p(s[i])
    ensures Count(p, s) == 0
  {
    if s != [] {
      CountNone(p, s[1..]);
    }
  }

  lemma RegisterCountsPerSchema(reg: Registry, ready: Ready, taskId: nat, rawId: nat, now: int)
    requires CountsPerSchema(reg)
    requires forall k :: 0 <= k < |reg.records| ==> reg.records[k].schemaId < |reg.schemas|
    ensures CountsPerSchema(Register(reg, ready, taskId, rawId, now).0)
  {
    var (after, id) := Register(reg, ready, taskId, rawId, now);
    forall i: nat | i < |after.schemas|
      ensures after.schemas[i].observationCount == Count(UsesSchema(i), after.records) >= 1
    {
      CountOneMore(UsesSchema(i), reg.records, SchemaRecord(taskId, rawId, id, now));
      if i == |reg.schemas| {
        CountNone(UsesSchema(i), reg.records);
      }
    }
  }

  lemma FirstSeenNow(src: Source, records: seq<SchemaRecord>, r: SchemaRecord, at: int)
    requires (forall k :: 0 <= k < |records| ==> records[k].schemaId != r.schemaId) && ReceivedAt(src, r, at)
    ensures FirstSeen(src, records + [r], r.schemaId, at)
  {
    assert FirstUse(records + [r], r.schemaId, |records|);
  }

  lemma FirstSeenStays(src: Source, records: seq<SchemaRecord>, r: SchemaRecord, schemaId: nat, at: int)
    requires FirstSeen(src, records, schemaId, at)
    ensures FirstSeen(src, records + [r], schemaId, at)
  {
    var k: nat :| FirstUse(records, schemaId, k) && ReceivedAt(src, records[k], at);
    assert (records + [r])[..|records|] == records;
    assert FirstUse(records + [r], schemaId, k);
  }

  lemma LastSeenNow(src: Source, records: seq<SchemaRecord>, r: SchemaRecord, at: int)
    requires ReceivedAt(src, r, at)
    ensures LastSeen(src, records + [r], r.schemaId, at)
  {
    assert LastUse(records + [r], r.schemaId, |records|);
  }

  lemma LastSeenStays(src: Source, records: seq<SchemaRecord>, r: SchemaRecord, schemaId: nat, at: int)
    requires LastSeen(src, records, schemaId, at) && r.schemaId != schemaId
    ensures LastSeen(src, records + [r], schemaId, at)
  {
    var k: nat :| LastUse(records, schemaId, k) && ReceivedAt(src, records[k], at);
    assert LastUse(records + [r], schemaId, k);
  }

  lemma DetectedNow(records: seq<SchemaRecord>, r: SchemaRecord, d: DriftEvent)
    requires (forall k :: 0 <= k < |records| ==> records[k].schemaId != r.schemaId)
    requires d.currentId == r.schemaId && d.detectedAt == r.observedAt
    ensures DetectedWithFirstUse(records + [r], d)
  {
    assert FirstUse(records + [r], r.schemaId, |records|);
  }

  lemma DetectedStays(records: seq<SchemaRecord>, r: SchemaRecord, d: DriftEvent)
    requires DetectedWithFirstUse(records, d)
    ensures DetectedWithFirstUse(records + [r], d)
  {
    var k: nat :| FirstUse(records, d.currentId, k) && records[k].observedAt == d.detectedAt;
    assert (records + [r])[..|records|] == records;
    assert FirstUse(records + [r], d.currentId, k);
  }

  lemma RegisterKeepsTimes(src: Source, reg: Registry, ready: Ready, taskId: nat, rawId: nat, now: int)
    requires TimesAgree(src, reg) && rawId in src.raws && src.raws[rawId] == ready.raw
    requires forall k :: 0 <= k < |reg.records| ==> reg.records[k].schemaId < |reg.schemas|
    ensures TimesAgree(src, Register(reg, ready, taskId, rawId, now).0)
  {
    hide FirstSeen, LastSeen, DriftBetween, DetectedWithFirstUse;
    var (after, id) := Register(reg, ready, taskId, rawId, now);
    var r := SchemaRecord(taskId, rawId, id, now);
    forall j | 0 <= j < |after.drifts| ensures DetectedWithFirstUse(after.records, after.drifts[j]) {
      if j < |reg.drifts| {
        DetectedStays(reg.records, r, reg.drifts[j]);
      } else {
        DetectedNow(reg.records, r, after.drifts[j]);
      }
    }
    LastSeenNow(src, reg.records, r, ready.raw.receivedAt);
    forall i: nat | i < |after.schemas| ensures TimesOf(src, after.records, i, after.schemas[i]) {
      if i < |reg.schemas| {
        assert TimesOf(src, reg.records, i, reg.schemas[i]);
        FirstSeenStays(src, reg.records, r, i, reg.schemas[i].firstObservedAt);
        if i != id {
          LastSeenStays(src, reg.records, r, i, reg.schemas[i].lastObservedAt);
        }
      } else {
        FirstSeenNow(src, reg.records, r, ready.raw.receivedAt);
      }
    }
  }

  // ---- steps ----

  /** A step of the task table that completes no schema task. */
  ghost predicate NoneCompleted(before: seq<Row<Task>>, after: seq<Row<Task>>) {
    && |before| <= |after|
    && (forall i :: 0 <= i < |before| ==> after[i].payload == before[i].payload)
    && (forall i :: 0 <= i < |before| && IsSchemaTask(before[i].payload) ==>
        (after[i].state.Done? <==> before[i].state.Done?))
    && (forall i :: 0 <= i < |before| && before[i].state.Done? ==> after[i] == before[i])
    && (forall i :: |before| <= i < |after| ==> !after[i].state.Done?)
  }

  lemma {:induction false} CompletedFrame(src: Source, before: seq<Row<Task>>, after: seq<Row<Task>>, streamId: nat)
    requires NoneCompleted(before, after)
    ensures Count(CompletedFor(src, streamId), after) == Count(CompletedFor(src, streamId), before)
    decreases |after|
  {
    if before == [] {
      CountNone(CompletedFor(src, streamId), after);
    } else {
      CompletedFrame(src, before[1..], after[1..], streamId);
    }
  }

  lemma TasksFrame(src: Source, s: System, after: seq<Row<Task>>)
    requires Inv(src, s) && NoneCompleted(s.rows, after)
    ensures Inv(src, s.(rows := after))
  {
    hide AllGenuine, DriftsComplete, VersionsInOrder, FingerprintsDistinct, CountsPerSchema, TimesAgree;
    var t := s.(rows := after);
    forall k | 0 <= k < |t.registry.records| ensures RecordHolds(src, t, t.registry.records[k]) {
      assert RecordHolds(src, s, s.registry.records[k]);
    }
    forall streamId ensures CountsAgree(src, t, streamId) {
      assert CountsAgree(src, s, streamId);
      CompletedFrame(src, s.rows, after, streamId);
    }
  }

  /** What a registration does to the tables, apart from its drift. */
  lemma RegisterExtends(reg: Registry, ready: Ready, taskId: nat, rawId: nat, now: int)
    ensures var (after, id) := Register(reg, ready, taskId, rawId, now);
            && after.records == reg.records + [SchemaRecord(taskId, rawId, id, now)]
            && |reg.schemas| <= |after.schemas| && id < |after.schemas|
            && after.schemas[id].streamId == ready.raw.streamId
            && after.schemas[id].fingerprint == ready.observation.fingerprint
            && forall i :: 0 <= i < |reg.schemas| ==>
                 after.schemas[i].streamId == reg.schemas[i].streamId
                     && after.schemas[i].fingerprint == reg.schemas[i].fingerprint
  {
  }

  ghost predicate Completes(src: Source, s: System, item: Item<Task>, row: Row<Task>, ready: Ready,
                            now: int) {
    && item.id < |s.rows| && !s.rows[item.id].state.Done?
    && IsSchemaTask(s.rows[item.id].payload) && s.rows[item.id].payload.rawId == item.payload.rawId
    && row.state.Done? && row.doneAt == Some(now) && row.payload == s.rows[item.id].payload
    && item.payload.rawId in src.raws && src.raws[item.payload.rawId] == ready.raw
    && ready.raw.contentType == Some("application/json")
  }

  /** The system after the task's transaction. */
  ghost function Completed(s: System, item: Item<Task>, row: Row<Task>, ready: Ready, now: int): System
    requires item.id < |s.rows|
  {
    System(s.rows[item.id := row], Register(s.registry, ready, item.id, item.payload.rawId, now).0)
  }

  lemma RecordStays(src: Source, s: System, item: Item<Task>, row: Row<Task>, ready: Ready, now: int, r: SchemaRecord)
    requires RecordHolds(src, s, r) && Completes(src, s, item, row, ready, now)
    ensures RecordHolds(src, Completed(s, item, row, ready, now), r) && r.taskId != item.id
  {
    hide Register, Extract;
    RegisterExtends(s.registry, ready, item.id, item.payload.rawId, now);
  }

  lemma NewRecordHolds(src: Source, s: System, item: Item<Task>, row: Row<Task>, ready: Ready, now: int)
    requires Completes(src, s, item, row, ready, now) && ReadyFrom(src, ready)
    ensures var id := Register(s.registry, ready, item.id, item.payload.rawId, now).1;
            RecordHolds(src, Completed(s, item, row, ready, now), SchemaRecord(item.id, item.payload.rawId, id, now))
  {
    hide Register, Extract;
    RegisterExtends(s.registry, ready, item.id, item.payload.rawId, now);
  }

  lemma RecordForStays(records: seq<SchemaRecord>, r: SchemaRecord, taskId: nat)
    ensures RecordFor(records + [r], taskId) <==> RecordFor(records, taskId) || r.taskId == taskId
  {
    var after := records + [r];
    if RecordFor(records, taskId) {
      var k :| 0 <= k < |records| && records[k].taskId == taskId;
      assert after[k].taskId == taskId;
    }
    assert after[|records|] == r;
  }

  lemma CompletionMatchesRecords(src: Source, s: System, item: Item<Task>, row: Row<Task>, ready: Ready, now: int)
    requires RecordsMatchTasks(src, s) && Completes(src, s, item, row, ready, now) && ReadyFrom(src, ready)
    ensures RecordsMatchTasks(src, Completed(s, item, row, ready, now))
  {
    hide Register, RecordHolds, RecordFor, ReadyFrom;
    RegisterExtends(s.registry, ready, item.id, item.payload.rawId, now);
    NewRecordHolds(src, s, item, row, ready, now);
    var t := Completed(s, item, row, ready, now);
    var before, after := s.registry.records, t.registry.records;
    var r := after[|before|];
    forall k | 0 <= k < |before| ensures RecordHolds(src, t, before[k]) && before[k].taskId != item.id {
      RecordStays(src, s, item, row, ready, now, before[k]);
    }
    forall i: nat | i < |t.rows| && t.rows[i].state.Done? && IsSchemaTask(t.rows[i].payload)
      ensures RecordFor(after, i)
    {
      RecordForStays(before, r, i);
    }
  }

  lemma CompletionCounts(src: Source, s: System, item: Item<Task>, row: Row<Task>, ready: Ready, now: int,
                         streamId: nat)
    requires CountsAgree(src, s, streamId) && Completes(src, s, item, row, ready, now)
    ensures CountsAgree(src, Completed(s, item, row, ready, now), streamId)
  {
    hide Register;
    var (after, id) := Register(s.registry, ready, item.id, item.payload.rawId, now);
    RegisterExtends(s.registry, ready, item.id, item.payload.rawId, now);
    RegisterCounts(s.registry, ready, item.id, item.payload.rawId, now, streamId);
    CountOneMore(RecordedFor(src, streamId), s.registry.records, SchemaRecord(item.id, item.payload.rawId, id, now));
    CountUpdate(CompletedFor(src, streamId), s.rows, item.id, row);
  }

  lemma CompletionKeeps(src: Source, s: System, item: Item<Task>, row: Row<Task>, ready: Ready, now: int)
    requires Inv(src, s) && Completes(src, s, item, row, ready, now) && ReadyFrom(src, ready)
    ensures Inv(src, Completed(s, item, row, ready, now))
  {
    hide Register, RecordsMatchTasks, CountsAgree, CountsPerSchema, TimesAgree, AllGenuine, DriftsComplete,
         VersionsInOrder, FingerprintsDistinct, ReadyFrom;
    var t := Completed(s, item, row, ready, now);
    RegisterKeepsSchemas(src, s.registry, ready, item.id, item.payload.rawId, now);
    CompletionMatchesRecords(src, s, item, row, ready, now);
    RecordIdsInRange(src, s);
    RegisterCountsPerSchema(s.registry, ready, item.id, item.payload.rawId, now);
    RegisterKeepsTimes(src, s.registry, ready, item.id, item.payload.rawId, now);
    forall streamId ensures CountsAgree(src, t, streamId) {
      CompletionCounts(src, s, item, row, ready, now, streamId);
    }
  }

  lemma RecordIdsInRange(src: Source, s: System)
    requires RecordsMatchTasks(src, s)
    ensures forall k :: 0 <= k < |s.registry.records| ==> s.registry.records[k].schemaId < |s.registry.schemas|
  {
  }

  /** The three ways a transaction can end. */
  lemma ProcessCases(src: Source, s: System, item: Item<Task>, takeover: Option<Takeover>, at: int)
    ensures var effect := Process(src, s.rows, s.registry, item, takeover, at);
            match effect.outcome
            case Processed(_) =>
              var prepared := Prepare(src, s.rows, item);
              && prepared.Ok? && ReadyFrom(src, prepared.value) && Current(s.rows, item)
              && Completes(src, s, item, FinalizeRow(s.rows[item.id], Done, None, None, at), prepared.value, at)
              && effect.rows == s.rows[item.id := FinalizeRow(s.rows[item.id], Done, None, None, at)]
              && effect.registry == Register(s.registry, prepared.value, item.id, item.payload.rawId, at).0
            case Stale => effect.registry == s.registry && NoneCompleted(s.rows, effect.rows)
            case Failed(_) => effect.registry == s.registry && effect.rows == s.rows
  {
  }

  /** A stale claim, found out at the start or at the very end, registers nothing, and a
      failing document changes nothing at all. */
  lemma OnlySuccessRegisters(src: Source, rows: seq<Row<Task>>, reg: Registry, item: Item<Task>,
                             takeover: Option<Takeover>, at: int)
    ensures var effect := Process(src, rows, reg, item, takeover, at);
            && (effect.outcome.Processed? <==> Prepare(src, rows, item).Ok? && !TakenOver(rows, item.id, takeover))
            && (!effect.outcome.Processed? ==>
                effect.registry == reg
                && !(exists i: nat :: i < |rows| && effect.rows[i].state.Done? && !rows[i].state.Done?))
  {
  }

  lemma StepKeeps(src: Source, s: System, e: Event)
    requires Inv(src, s) && Enabled(src, s, e)
    ensures Inv(src, Next(src, s, e))
  {
    hide Inv;
    match e
    case ProcessTask(item, takeover, at) =>
      hide Completes, ReadyFrom, Process, Prepare;
      ProcessCases(src, s, item, takeover, at);
      var effect := Process(src, s.rows, s.registry, item, takeover, at);
      match effect.outcome {
        case Processed(_) =>
          CompletionKeeps(src, s, item, FinalizeRow(s.rows[item.id], Done, None, None, at),
                          Prepare(src, s.rows, item).value, at);
        case Stale => TasksFrame(src, s, effect.rows);
        case Failed(_) => TasksFrame(src, s, effect.rows);
      }
    case _ =>
      TasksFrame(src, s, Next(src, s, e).rows);
  }

  lemma {:induction false} InvAlways(src: Source, ss: seq<System>, es: seq<Event>, k: nat)
    requires IsRun(src, ss, es) && k <= |es|
    ensures Inv(src, ss[k])
  {
    if k > 0 {
      InvAlways(src, ss, es, k - 1);
      assert Enabled(src, ss[k - 1], es[k - 1]) && ss[k] == Next(src, ss[k - 1], es[k - 1]);
      StepKeeps(src, ss[k - 1], es[k - 1]);
    }
  }

  // ---- what every reachable state satisfies ----

  /** Versions 1..n without gaps, no fingerprint twice, and drift events that link exactly
      each version k >= 2 to version k - 1. */
  lemma ReachableVersions(src: Source, ss: seq<System>, es: seq<Event>, k: nat, streamId: nat)
    requires IsRun(src, ss, es) && k <= |es|
    ensures var schemas, drifts := ss[k].registry.schemas, ss[k].registry.drifts;
            && (forall v: nat ::
                  HasVersion(schemas, streamId, v) <==> 1 <= v <= VersionCount(schemas, |schemas|, streamId))
            && FingerprintsDistinct(schemas)
            && DriftsComplete(schemas, drifts)
  {
    InvAlways(src, ss, es, k);
    VersionsAreOneToN(ss[k].registry.schemas, streamId);
  }

  /** A stream's observation counts, its provenance records and its completed schema tasks
      are equally many; so are one schema's count and the records that name it. */
  lemma ReachableCounts(src: Source, ss: seq<System>, es: seq<Event>, k: nat, streamId: nat)
    requires IsRun(src, ss, es) && k <= |es|
    ensures Observations(ss[k].registry.schemas, streamId) == Count(RecordedFor(src, streamId), ss[k].registry.records)
    ensures Observations(ss[k].registry.schemas, streamId) == Count(CompletedFor(src, streamId), ss[k].rows)
    ensures CountsPerSchema(ss[k].registry)
    ensures RecordsMatchTasks(src, ss[k])
  {
    InvAlways(src, ss, es, k);
    assert CountsAgree(src, ss[k], streamId);
  }

  /** Every reachable schema was first and last observed when the observations of its first
      and its last provenance record were received, and every drift event was detected when
      the first record of its schema was made. */
  lemma ReachableTimes(src: Source, ss: seq<System>, es: seq<Event>, k: nat, i: nat)
    requires IsRun(src, ss, es) && k <= |es| && i < |ss[k].registry.schemas|
    ensures var registry := ss[k].registry;
            && TimesOf(src, registry.records, i, registry.schemas[i])
            && forall j :: 0 <= j < |registry.drifts| ==> DetectedWithFirstUse(registry.records, registry.drifts[j])
  {
    hide TimesOf, DetectedWithFirstUse, Enabled, Next;
    InvAlways(src, ss, es, k);
  }

  /** Different documents have different fingerprints. */
  ghost predicate TellsApart(codec: Codec) {
    forall a: SchemaDocument, b: SchemaDocument :: codec.sha256(codec.encode(a)) == codec.sha256(codec.encode(b)) ==>
      a == b
  }

  /** Every provenance record names the very schema of its observation. */
  lemma RecordsNameTheirSchemas(src: Source, ss: seq<System>, es: seq<Event>, k: nat, j: nat)
    requires TellsApart(src.codec) && IsRun(src, ss, es) && k <= |es| && j < |ss[k].registry.records|
    ensures var r := ss[k].registry.records[j];
            && r.rawId in src.raws && r.schemaId < |ss[k].registry.schemas|
            && ss[k].registry.schemas[r.schemaId].streamId == src.raws[r.rawId].streamId
            && ObservedAs(src, r.rawId).Ok?
            && ObservedAs(src, r.rawId).value.fields == ss[k].registry.schemas[r.schemaId].fields
  {
    hide Enabled, Next, DocumentOf, Extract;
    InvAlways(src, ss, es, k);
    var r := ss[k].registry.records[j];
    assert RecordHolds(src, ss[k], r);
    var o, schema := ObservedAs(src, r.rawId).value, ss[k].registry.schemas[r.schemaId];
    assert Genuine(src.codec, schema.rootType, schema.fields, schema.document, schema.fingerprint);
    ObservationIsGenuine(src, Ready(src.raws[r.rawId], o));
    assert Genuine(src.codec, o.rootType, o.fields, o.document, o.fingerprint);
    DocumentShowsFields(o.rootType, o.fields, schema.rootType, schema.fields);
  }

  lemma DocumentShowsField(rootA: Kind, a: map<string, FieldDef>, rootB: Kind, b: map<string, FieldDef>, path: string)
    requires DocumentOf(rootA, a) == DocumentOf(rootB, b) && path in a
    ensures path in b && a[path] == b[path]
  {
    var paths, others := SortedSet(a.Keys), SortedSet(b.Keys);
    var entries := DocumentOf(rootA, a).entries;
    assert path in paths;
    var i :| 0 <= i < |paths| && paths[i] == path;
    assert entries[i] == Entry(others[i], b[others[i]]) && others[i] in others;
  }

  lemma DocumentShowsFields(rootA: Kind, a: map<string, FieldDef>, rootB: Kind, b: map<string, FieldDef>)
    requires DocumentOf(rootA, a) == DocumentOf(rootB, b)
    ensures a == b
  {
    hide DocumentOf;
    forall path | path in a ensures path in b && a[path] == b[path] {
      DocumentShowsField(rootA, a, rootB, b, path);
    }
    forall path | path in b ensures path in a {
      DocumentShowsField(rootB, b, rootA, a, path);
    }
  }

  /** No drift event is ever empty. */
  lemma ReachableDriftsAreNotEmpty(src: Source, ss: seq<System>, es: seq<Event>, k: nat, j: nat)
    requires IsRun(src, ss, es) && k <= |es| && j < |ss[k].registry.drifts|
    ensures !EmptyDrift(ss[k].registry.drifts[j].drift)
  {
    InvAlways(src, ss, es, k);
    var schemas, d := ss[k].registry.schemas, ss[k].registry.drifts[j];
    assert Links(schemas, d);
    var a, b := schemas[d.previousId], schemas[d.currentId];
    assert a.fingerprint != b.fingerprint;
    if EmptyDrift(d.drift) {
      NoDriftSameFields(SchemaObservation(a.rootType, a.fields, a.document, a.fingerprint),
                        SchemaObservation(b.rootType, b.fields, b.document, b.fingerprint));
    }
  }
}
