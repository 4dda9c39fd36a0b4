/** Every run of ingestion, projection and delivery together. */
module PipelineRuns {
  import opened Std
  import opened Text
  import opened LeaseTable
  import opened Repositories
  import opened StreamIdentity
  import opened Storage
  import opened ObservationKeys
  import opened FieldValueExtraction
  import opened StreamCatalog
  import opened CatalogTheorems
  import opened FieldProjection
  import opened ProjectionSteps

  datatype Event =
    | Ingest(command: Command)
    | ClaimTasks(now: int, leaseSeconds: int, sel: seq<nat>)
    | ProjectFields(item: Item<Task>, takeover: Option<Takeover>, at: int)
    | SettleTask(settled: Item<Task>, state: State, when: Option<int>, code: Option<string>, settledAt: int)
    | ClaimDeliveries(claimedAt: int, lease: int, deliveryIds: seq<nat>)
    | SettleDelivery(delivered: Item<Delivery>, outcome: State, retryAt: Option<int>, error: Option<string>,
                     deliveredAt: int)
    | ReplayDeliveries(ids: set<nat>, replayAt: int)
    | Elsewhere  // a step that leaves these tables alone: the writer's, or a crash

  /** How many attempts a task may take. */
  function TaskLimit(s: Settings): Task -> nat {
    (t: Task) => if IsFieldTask(t) then s.projectionMaxAttempts else s.schemaMaxAttempts
  }

  /** Claims take different eligible rows. A field task is only ever completed by the
      transaction that projects it; any worker may give a row up, or send it back below its
      attempt limit. */
  ghost predicate Enabled(s: Settings, t: Catalog, e: Event) {
    match e
    case ClaimTasks(now, lease, sel) => Distinct(sel) && forall i :: i in sel ==>
      i < |t.tasks| && Eligible(t.tasks[i], now, lease)
    case SettleTask(item, state, _, _, _) =>
      && (Terminal(state) || state.Retryable?)
      && (item.id < |t.tasks| && IsFieldTask(t.tasks[item.id].payload) ==> !state.Done?)
      && (state.Retryable? && Current(t.tasks, item) ==> item.attempts < TaskLimit(s)(t.tasks[item.id].payload))
    case ClaimDeliveries(now, lease, ids) => Distinct(ids) && forall i :: i in ids ==>
      i < |t.outbox| && Eligible(t.outbox[i], now, lease)
    case SettleDelivery(item, state, _, _, _) =>
      && (Terminal(state) || state.Retryable?)
      && (state.Retryable? && Current(t.outbox, item) ==> item.attempts < s.outbox.maxAttempts)
    case _ => true
  }

  ghost function Next(p: Platform, s: Settings, t: Catalog, e: Event): Catalog {
    match e
    case Ingest(c) =>
      (match Record(p, s, t, c)
       case Ok(receipt) => receipt.catalog
       case Err(_) => t)
    case ClaimTasks(now, _, sel) => t.(tasks := ClaimRows(t.tasks, sel, now))
    case ProjectFields(item, takeover, at) => Project(p, s.futureSkewSeconds, t, item, takeover, at).catalog
    case SettleTask(item, state, when, code, at) => t.(tasks := FinalizeRows(t.tasks, item, state, when, code, at))
    case ClaimDeliveries(now, _, ids) => t.(outbox := ClaimRows(t.outbox, ids, now))
    case SettleDelivery(item, state, when, code, at) =>
      t.(outbox := FinalizeRows(t.outbox, item, state, when, code, at))
    case ReplayDeliveries(ids, at) => t.(outbox := ReplayRows(t.outbox, ids, at))
    case Elsewhere => t
  }

  ghost predicate IsRun(p: Platform, s: Settings, ts: seq<Catalog>, es: seq<Event>) {
    && |ts| == |es| + 1
    && ts[0] == Catalog([], [], [], [], [])
    && forall k :: 0 <= k < |es| ==> Enabled(s, ts[k], es[k]) && ts[k + 1] == Next(p, s, ts[k], es[k])
  }

  // ---- the invariant ----

  ghost predicate KeysPlain(raws: seq<Raw>) {
    forall r :: 0 <= r < |raws| ==> Without(raws[r].observationKey, UNIT_SEPARATOR)
  }

  ghost predicate Named(streams: seq<Stream>) {
    forall i :: 0 <= i < |streams| ==> streams[i].sourceId != "" && streams[i].topic != ""
  }

  /** Both tasks of every stored JSON observation exist. */
  ghost predicate JsonQueued(t: Catalog) {
    forall r: nat :: r < |t.raws| && t.raws[r].contentType == JSON_CONTENT ==>
      HasTask(t.tasks, SchemaTask(r)) && HasTask(t.tasks, FieldTask(r))
  }

  /** What holds whatever digests do. */
  ghost predicate Sound(t: Catalog) { Consistent(t) && JsonQueued(t) }

  ghost predicate IsPointRow(p: Platform, s: Settings, d: Delivery) {
    exists c, stream: Stream, streamId: nat, evidenceId: nat ::
      PointDelivery(p, s, c, stream, streamId, evidenceId) == Some(d)
  }

  /** The delivery of the field on path q of the stored observation r. */
  ghost predicate IsFieldRow(p: Platform, s: Settings, t: Catalog, d: Delivery, r: nat, q: string) {
    && r < |t.raws| && t.raws[r].streamId < |t.streams|
    && ValuesOf(p, t.raws[r]).Some? && q in ValuesOf(p, t.raws[r]).value
    && d == FieldDelivery(p, s.futureSkewSeconds, t.raws[r], t.streams[t.raws[r].streamId], q,
                          ValuesOf(p, t.raws[r]).value[q])
  }

  predicate DoneField(tasks: seq<Row<Task>>, i: nat) {
    i < |tasks| && tasks[i].state.Done? && IsFieldTask(tasks[i].payload)
  }

  ghost predicate Projected(tasks: seq<Row<Task>>, r: nat) {
    exists i: nat :: DoneField(tasks, i) && tasks[i].payload.rawId == r
  }

  ghost predicate FromProjection(p: Platform, s: Settings, t: Catalog, d: Delivery) {
    exists r: nat, q :: IsFieldRow(p, s, t, d, r, q) && Projected(t.tasks, r)
  }

  /** Every outbox row is a measurement's, or a field's of an observation already projected. */
  ghost predicate Origins(p: Platform, s: Settings, t: Catalog) {
    forall k :: 0 <= k < |t.outbox| ==>
      IsPointRow(p, s, t.outbox[k].payload) || FromProjection(p, s, t, t.outbox[k].payload)
  }

  ghost predicate HasPayload(outbox: seq<Row<Delivery>>, d: Delivery) {
    exists k :: 0 <= k < |outbox| && outbox[k].payload == d
  }

  ghost predicate FieldThere(p: Platform, s: Settings, t: Catalog, r: nat, q: string)
    requires r < |t.raws| && t.raws[r].streamId < |t.streams|
    requires ValuesOf(p, t.raws[r]).Some? && q in ValuesOf(p, t.raws[r]).value
  {
    HasPayload(t.outbox,
               FieldDelivery(p, s.futureSkewSeconds, t.raws[r], t.streams[t.raws[r].streamId], q,
                             ValuesOf(p, t.raws[r]).value[q]))
  }

  ghost predicate AllThere(p: Platform, s: Settings, t: Catalog, r: nat) {
    && r < |t.raws| && t.raws[r].streamId < |t.streams|
    && ValuesOf(p, t.raws[r]).Some?
    && forall q :: q in ValuesOf(p, t.raws[r]).value ==> FieldThere(p, s, t, r, q)
  }

  /** Every field of a projected observation has its row. */
  ghost predicate Completed(p: Platform, s: Settings, t: Catalog) {
    forall i: nat :: DoneField(t.tasks, i) ==> AllThere(p, s, t, t.tasks[i].payload.rawId)
  }

  ghost predicate Inv(p: Platform, s: Settings, t: Catalog) {
    && Sound(t) && KeysPlain(t.raws) && Named(t.streams)
    && Origins(p, s, t) && Completed(p, s, t)
  }

  // ---- steps that project nothing ----

  /** No field task is completed, and new outbox rows are measurements. */
  ghost predicate Extends(p: Platform, s: Settings, t: Catalog, u: Catalog) {
    && Grows(t, u)
    && (forall i: nat :: DoneField(t.tasks, i) <==> DoneField(u.tasks, i))
    && (forall k :: |t.outbox| <= k < |u.outbox| ==> IsPointRow(p, s, u.outbox[k].payload))
  }

  lemma FieldRowStays(p: Platform, s: Settings, t: Catalog, u: Catalog, d: Delivery, r: nat, q: string)
    requires IsFieldRow(p, s, t, d, r, q) && Grows(t, u)
    ensures IsFieldRow(p, s, u, d, r, q)
  {
  }

  lemma AllThereStays(p: Platform, s: Settings, t: Catalog, u: Catalog, r: nat)
    requires AllThere(p, s, t, r) && Grows(t, u)
    ensures AllThere(p, s, u, r)
  {
  }

  lemma OriginsStay(p: Platform, s: Settings, t: Catalog, u: Catalog)
    requires Origins(p, s, t) && Grows(t, u)
    requires forall i: nat :: DoneField(t.tasks, i) ==> DoneField(u.tasks, i)
    ensures forall k :: 0 <= k < |t.outbox| ==>
              IsPointRow(p, s, u.outbox[k].payload) || FromProjection(p, s, u, u.outbox[k].payload)
  {
    hide IsPointRow, IsFieldRow, DoneField;
    forall k | 0 <= k < |t.outbox|
      ensures IsPointRow(p, s, u.outbox[k].payload) || FromProjection(p, s, u, u.outbox[k].payload)
    {
      var d := t.outbox[k].payload;
      assert u.outbox[k].payload == d;
      if !IsPointRow(p, s, d) {
        assert FromProjection(p, s, t, d);
        var r: nat, q :| IsFieldRow(p, s, t, d, r, q) && Projected(t.tasks, r);
        ProjectedStays(t, u, r);
        FieldRowStays(p, s, t, u, d, r, q);
      }
    }
  }

  lemma ProjectedStays(t: Catalog, u: Catalog, r: nat)
    requires Projected(t.tasks, r) && PayloadsGrow(t.tasks, u.tasks)
    requires forall i: nat :: DoneField(t.tasks, i) ==> DoneField(u.tasks, i)
    ensures Projected(u.tasks, r)
  {
  }

  lemma ExtendsKeeps(p: Platform, s: Settings, t: Catalog, u: Catalog)
    requires Origins(p, s, t) && Completed(p, s, t) && Extends(p, s, t, u)
    ensures Origins(p, s, u) && Completed(p, s, u)
  {
    hide IsPointRow, FromProjection, AllThere;
    OriginsStay(p, s, t, u);
    forall i: nat | DoneField(u.tasks, i) ensures AllThere(p, s, u, u.tasks[i].payload.rawId) {
      assert DoneField(t.tasks, i);
      AllThereStays(p, s, t, u, t.tasks[i].payload.rawId);
    }
  }

  // ---- claims, settlements, replays ----

  /** The same rows, in other states, with the same field tasks done. */
  ghost predicate OnlyStates(t: Catalog, u: Catalog) {
    && u == t.(tasks := u.tasks, outbox := u.outbox)
    && |u.tasks| == |t.tasks| && |u.outbox| == |t.outbox|
    && (forall i :: 0 <= i < |t.tasks| ==> u.tasks[i].payload == t.tasks[i].payload)
    && (forall k :: 0 <= k < |t.outbox| ==> u.outbox[k].payload == t.outbox[k].payload)
    && (forall i: nat :: DoneField(t.tasks, i) <==> DoneField(u.tasks, i))
  }

  lemma StatesAreInconsequential(t: Catalog, u: Catalog)
    requires Sound(t)
    requires u == t.(tasks := u.tasks, outbox := u.outbox) && |u.tasks| == |t.tasks| && |u.outbox| == |t.outbox|
    requires forall i :: 0 <= i < |t.tasks| ==> u.tasks[i].payload == t.tasks[i].payload
    requires forall k :: 0 <= k < |t.outbox| ==> u.outbox[k].payload == t.outbox[k].payload
    ensures Sound(u) && Grows(t, u)
  {
  }

  lemma OnlyStatesKeeps(p: Platform, s: Settings, t: Catalog, u: Catalog)
    requires Inv(p, s, t) && OnlyStates(t, u)
    ensures Inv(p, s, u) && Grows(t, u)
  {
    hide Sound, Origins, Completed, DoneField;
    StatesAreInconsequential(t, u);
    ExtendsKeeps(p, s, t, u);
  }

  lemma OtherStepsChangeStates(p: Platform, s: Settings, t: Catalog, e: Event)
    requires Enabled(s, t, e) && !e.Ingest? && !e.ProjectFields?
    ensures OnlyStates(t, Next(p, s, t, e))
  {
  }

  // ---- ingestion ----

  lemma RawKeyIsPlain(p: Platform, s: Settings, raws: seq<Raw>, c: Command, streamKey: string, streamId: nat,
                      evidenceId: nat)
    requires PlainTexts(p) && KeysPlain(raws)
    ensures KeysPlain(RawsAfter(raws, RawOf(p, s, c, streamKey, streamId, evidenceId)))
  {
  }

  lemma TargetIsNamed(p: Platform, s: Settings, c: Command)
    requires Resolve(p, s, c).Ok? && Resolve(p, s, c).value.Some?
    ensures Resolve(p, s, c).value.value.sourceId != "" && Resolve(p, s, c).value.value.topic != ""
  {
  }

  lemma StreamsStayNamed(streams: seq<Stream>, target: Target, c: Command)
    requires Named(streams) && target.sourceId != "" && target.topic != ""
    ensures Named(StreamsAfter(streams, target, c))
  {
  }

  lemma QueueKeeps(tasks: seq<Row<Task>>, task: Task, at: int)
    ensures forall i: nat :: DoneField(tasks, i) <==> DoneField(TasksAfter(tasks, task, at), i)
    ensures PayloadsGrow(tasks, TasksAfter(tasks, task, at)) && HasTask(TasksAfter(tasks, task, at), task)
  {
    var after := TasksAfter(tasks, task, at);
    if !HasTask(tasks, task) {
      assert after[|tasks|].payload == task;
    }
  }

  /** What accepting an observation does beyond keeping the tables consistent. */
  lemma AcceptedExtends(p: Platform, s: Settings, t: Catalog, c: Command, streamId: nat, evidenceId: nat)
    requires Sound(t) && streamId < |t.streams|
    ensures var u := Accepted(p, s, t, c, streamId, evidenceId);
            && JsonQueued(u) && u.streams == t.streams
            && (PlainTexts(p) && KeysPlain(t.raws) ==> KeysPlain(u.raws))
            && (forall i: nat :: DoneField(t.tasks, i) <==> DoneField(u.tasks, i))
            && (forall k :: |t.outbox| <= k < |u.outbox| ==> IsPointRow(p, s, u.outbox[k].payload))
  {
    hide PointDelivery, RawKey, DoneField, KeysPlain, PlainTexts, SchemaTask, FieldTask, Counted, EvidenceLinked,
         RowsTraceable, DistinctStreams, DistinctTasks, DistinctDeliveries, TasksAfter, Identity, Fingerprint;
    var u := Accepted(p, s, t, c, streamId, evidenceId);
    var stream := t.streams[streamId];
    var raw := RawOf(p, s, c, stream.key, streamId, evidenceId);
    if PlainTexts(p) && KeysPlain(t.raws) {
      RawKeyIsPlain(p, s, t.raws, c, stream.key, streamId, evidenceId);
    }
    RawStep(t.raws, raw);
    var rawId := RawFor(t.raws, raw);
    var tasks := TasksAfter(t.tasks, SchemaTask(rawId), c.receivedAt);
    QueueKeeps(t.tasks, SchemaTask(rawId), c.receivedAt);
    QueueKeeps(tasks, FieldTask(rawId), c.receivedAt);
    forall r: nat | r < |u.raws| && u.raws[r].contentType == JSON_CONTENT
      ensures HasTask(u.tasks, SchemaTask(r)) && HasTask(u.tasks, FieldTask(r))
    {
      if r < |t.raws| {
        assert u.raws[r] == t.raws[r];
        TaskStays(t.tasks, u.tasks, SchemaTask(r));
        TaskStays(t.tasks, u.tasks, FieldTask(r));
      } else {
        assert r == rawId && u.raws[r] == raw;
        TaskStays(tasks, u.tasks, SchemaTask(r));
      }
    }
    var point := PointDelivery(p, s, c, stream, streamId, evidenceId);
    if point.Some? {
      assert IsPointRow(p, s, point.value);
    }
  }

  lemma RecordExtends(p: Platform, s: Settings, t: Catalog, c: Command)
    requires Sound(t) && Record(p, s, t, c).Ok?
    ensures var u := Record(p, s, t, c).value.catalog;
            && JsonQueued(u)
            && (Named(t.streams) ==> Named(u.streams))
            && (PlainTexts(p) && KeysPlain(t.raws) ==> KeysPlain(u.raws))
            && (forall i: nat :: DoneField(t.tasks, i) <==> DoneField(u.tasks, i))
            && (forall k :: |t.outbox| <= k < |u.outbox| ==> IsPointRow(p, s, u.outbox[k].payload))
  {
    hide Consistent, Resolve, Classify, StreamFor, StreamsAfter, Accepted, DoneField, IsPointRow, KeysPlain, Named,
         SchemaTask, FieldTask, PlainTexts;
    if Resolve(p, s, c).value.Some? {
      var target := Resolve(p, s, c).value.value;
      TargetIsNamed(p, s, c);
      if Named(t.streams) {
        StreamsStayNamed(t.streams, target, c);
      }
      var outcome := Classify(p, s, c.payload, c.contentType);
      var id := StreamFor(t.streams, target);
      var e := EvidenceOf(p, s, c, Some(id), outcome);
      NotedStep(p, s, t, target, c, e);
      if outcome == "accepted" {
        AcceptedExtends(p, s, t.(streams := StreamsAfter(t.streams, target, c), evidence := t.evidence + [e]), c, id,
                        |t.evidence|);
      }
    }
  }

  lemma IngestIsSound(p: Platform, s: Settings, t: Catalog, c: Command)
    requires Sound(t)
    ensures Sound(Next(p, s, t, Ingest(c))) && Grows(t, Next(p, s, t, Ingest(c)))
  {
    hide Consistent, JsonQueued, DoneField, Record, IsPointRow, Named, KeysPlain, PlainTexts;
    if Record(p, s, t, c).Ok? {
      RecordKeepsConsistency(p, s, t, c);
      RecordExtends(p, s, t, c);
    } else {
      StatesAreInconsequential(t, t);
    }
  }

  lemma IngestKeeps(p: Platform, s: Settings, t: Catalog, c: Command)
    requires Inv(p, s, t) && PlainTexts(p)
    ensures Inv(p, s, Next(p, s, t, Ingest(c)))
  {
    hide Sound, Origins, Completed, KeysPlain, Named, DoneField, Record, IsPointRow, PlainTexts;
    IngestIsSound(p, s, t, c);
    if Record(p, s, t, c).Ok? {
      RecordExtends(p, s, t, c);
      ExtendsKeeps(p, s, t, Record(p, s, t, c).value.catalog);
    }
  }

  // ---- projection ----

  /** Nothing in the outbox carries a field key of an observation that is not projected. */
  lemma UnprojectedHasNoRows(p: Platform, s: Settings, t: Catalog, r: nat, q: string)
    requires CollisionFree(p) && Inv(p, s, t) && r < |t.raws| && !Projected(t.tasks, r) && IsPath(q)
    ensures !HasDelivery(t.outbox, FieldKey(p, t.raws[r].observationKey, q))
  {
    hide Consistent, JsonQueued, Completed, Projected, IsPath, CollisionFree, FieldKey;
    var key := FieldKey(p, t.raws[r].observationKey, q);
    if HasDelivery(t.outbox, key) {
      var k :| 0 <= k < |t.outbox| && t.outbox[k].payload.key == key;
      RowWithFieldKey(p, s, t, k, r, q);
      assert false;
    }
  }

  /** A row under a field key is that field's row. */
  lemma RowWithFieldKey(p: Platform, s: Settings, t: Catalog, k: nat, r: nat, q: string)
    requires CollisionFree(p) && Inv(p, s, t) && r < |t.raws| && IsPath(q)
    requires k < |t.outbox| && t.outbox[k].payload.key == FieldKey(p, t.raws[r].observationKey, q)
    ensures IsFieldRow(p, s, t, t.outbox[k].payload, r, q) && Projected(t.tasks, r)
  {
    hide JsonQueued, Completed, Projected, IsPath, CollisionFree, FieldKey, ValuesOf, FieldPoint, RawTime, Counted,
         RowsTraceable, EvidenceLinked;
    var d, observationKey := t.outbox[k].payload, t.raws[r].observationKey;
    if IsPointRow(p, s, d) {
      NoPointRow(p, s, d, observationKey, q);
      assert false;
    } else {
      assert FromProjection(p, s, t, d);
      var r1: nat, q1 :| IsFieldRow(p, s, t, d, r1, q1) && Projected(t.tasks, r1);
      ValuesAreOnPaths(p, t.raws[r1], q1);
      PathKeysAgreeIff(p, t.raws[r1].observationKey, q1, observationKey, q);
      assert r1 == r;
    }
  }

  lemma NoPointRow(p: Platform, s: Settings, d: Delivery, observationKey: string, q: string)
    requires CollisionFree(p) && IsPointRow(p, s, d) && IsPath(q) && Without(observationKey, UNIT_SEPARATOR)
    ensures d.key != FieldKey(p, observationKey, q)
  {
    hide FieldKey, CollisionFree, NormalizedPoint, MeasurementOf;
    var segs :| q == JsonPath.Path(segs);
    var c, stream: Stream, streamId: nat, evidenceId: nat
        :| PointDelivery(p, s, c, stream, streamId, evidenceId) == Some(d);
    var m := MeasurementOf(p, Envelope(p, c).value).value;
    FieldKeysAreNoPointKeys(p, observationKey, segs, stream.key, Identity(p, s, c), Fingerprint(p, s, c.payload),
                            m.metric);
  }

  lemma PathKeysAreDistinct(p: Platform, raw: Raw)
    requires CollisionFree(p) && Without(raw.observationKey, UNIT_SEPARATOR) && ValuesOf(p, raw).Some?
    ensures var paths := SortedSet(ValuesOf(p, raw).value.Keys);
            && (forall q :: q in paths ==> IsPath(q))
            && DistinctKeys(p, raw.observationKey, paths)
  {
    hide FieldKey, CollisionFree, ValuesOf, IsPath;
    var paths := SortedSet(ValuesOf(p, raw).value.Keys);
    forall q | q in paths ensures IsPath(q) {
      ValuesAreOnPaths(p, raw, q);
    }
    forall i, j | 0 <= i < j < |paths|
      ensures FieldKey(p, raw.observationKey, paths[i]) != FieldKey(p, raw.observationKey, paths[j])
    {
      assert paths[i] in paths && paths[j] in paths;
      PathKeysAgreeIff(p, raw.observationKey, paths[i], raw.observationKey, paths[j]);
    }
  }

  /** The rows a first projection adds. */
  lemma ProjectionAdds(p: Platform, s: Settings, t: Catalog, r: nat, ready: Ready)
    requires CollisionFree(p) && Inv(p, s, t) && r < |t.raws| && !Projected(t.tasks, r)
    requires ready.raw == t.raws[r] && ready.raw.streamId < |t.streams| && ValuesOf(p, ready.raw) == Some(ready.values)
    ensures var stream := t.streams[ready.raw.streamId];
            var paths := SortedSet(ready.values.Keys);
            PersistedAll(p, s.futureSkewSeconds, t.outbox, ready, stream) ==
            t.outbox + FieldRows(p, s.futureSkewSeconds, ready, stream, paths, |paths|)
  {
    hide Consistent, JsonQueued, Origins, Completed, Projected, IsPath, CollisionFree, FieldKey, ValuesOf,
         HasDelivery, FieldRows, Persisted, DistinctKeys;
    var paths := SortedSet(ready.values.Keys);
    PathKeysAreDistinct(p, ready.raw);
    forall q | q in paths ensures !HasDelivery(t.outbox, FieldKey(p, ready.raw.observationKey, q)) {
      UnprojectedHasNoRows(p, s, t, r, q);
    }
    FreshFieldsAreAdded(p, s.futureSkewSeconds, t.outbox, ready, t.streams[ready.raw.streamId], paths, |paths|);
  }

  /** A claimed field task's observation is not projected: its task is its only one. */
  lemma ClaimedIsUnprojected(t: Catalog, i: nat)
    requires DistinctTasks(t.tasks) && i < |t.tasks| && IsFieldTask(t.tasks[i].payload) && !t.tasks[i].state.Done?
    ensures !Projected(t.tasks, t.tasks[i].payload.rawId)
  {
  }

  lemma {:induction false} PersistKeeps(p: Platform, skewSeconds: nat, t: Catalog, ready: Ready, stream: Stream,
                                        paths: seq<string>, n: nat)
    requires Consistent(t) && Traceable(t, ready.raw.streamId, ready.raw.evidenceId)
    requires n <= |paths| && forall q :: q in paths ==> q in ready.values
    ensures var u := t.(outbox := Persisted(p, skewSeconds, t.outbox, ready, stream, paths, n));
            Consistent(u) && Grows(t, u)
  {
    hide Consistent, FieldKey, FieldPoint, RawTime, OutboxAfter;
    if n == 0 {
      assert t.(outbox := Persisted(p, skewSeconds, t.outbox, ready, stream, paths, n)) == t;
    } else {
      PersistKeeps(p, skewSeconds, t, ready, stream, paths, n - 1);
      var u := t.(outbox := Persisted(p, skewSeconds, t.outbox, ready, stream, paths, n - 1));
      assert paths[n - 1] in paths;
      var d := FieldDelivery(p, skewSeconds, ready.raw, stream, paths[n - 1], ready.values[paths[n - 1]]);
      DeliveryKeeps(u, d, ready.raw.receivedAt);
      GrowsTransitive(t, u, u.(outbox := OutboxAfter(u.outbox, d, ready.raw.receivedAt)));
    }
  }

  /** The state after task i has projected its observation. */
  ghost predicate ProjectsTask(p: Platform, s: Settings, t: Catalog, u: Catalog, i: nat, ready: Ready, at: int) {
    && i < |t.tasks| && IsFieldTask(t.tasks[i].payload) && !t.tasks[i].state.Done?
    && var r := t.tasks[i].payload.rawId;
    && r < |t.raws| && ready.raw == t.raws[r] && ready.raw.streamId < |t.streams|
    && ValuesOf(p, ready.raw) == Some(ready.values)
    && u == t.(tasks := t.tasks[i := FinalizeRow(t.tasks[i], Done, None, None, at)],
               outbox := PersistedAll(p, s.futureSkewSeconds, t.outbox, ready, t.streams[ready.raw.streamId]))
  }

  ghost predicate AreFieldRows(p: Platform, s: Settings, t: Catalog, r: nat, paths: seq<string>,
                               rows: seq<Row<Delivery>>) {
    && |rows| == |paths|
    && forall k :: 0 <= k < |rows| ==> IsFieldRow(p, s, t, rows[k].payload, r, paths[k])
  }

  lemma AddedRowsAreFields(p: Platform, s: Settings, t: Catalog, r: nat, ready: Ready, paths: seq<string>)
    requires r < |t.raws| && ready.raw == t.raws[r] && ready.raw.streamId < |t.streams|
             && ValuesOf(p, ready.raw) == Some(ready.values)
    requires forall q :: q in paths ==> q in ready.values
    ensures AreFieldRows(p, s, t, r, paths,
                         FieldRows(p, s.futureSkewSeconds, ready, t.streams[ready.raw.streamId], paths, |paths|))
  {
    hide ValuesOf, FieldDelivery, FieldRows;
    var rows := FieldRows(p, s.futureSkewSeconds, ready, t.streams[ready.raw.streamId], paths, |paths|);
    forall k | 0 <= k < |rows| ensures IsFieldRow(p, s, t, rows[k].payload, r, paths[k]) {
      assert paths[k] in paths;
    }
  }

  /** The outbox grows by exactly the field rows. */
  lemma NewRows(p: Platform, s: Settings, t: Catalog, u: Catalog, i: nat, ready: Ready, at: int)
    returns (rows: seq<Row<Delivery>>)
    requires CollisionFree(p) && Inv(p, s, t) && ProjectsTask(p, s, t, u, i, ready, at)
    ensures u.outbox == t.outbox + rows
    ensures AreFieldRows(p, s, t, t.tasks[i].payload.rawId, SortedSet(ready.values.Keys), rows)
  {
    hide Inv, ValuesOf, CollisionFree, Projected, PersistedAll, FinalizeRow, IsFieldTask, FieldRows, AreFieldRows,
         DistinctTasks;
    var r, stream, paths := t.tasks[i].payload.rawId, t.streams[ready.raw.streamId], SortedSet(ready.values.Keys);
    TasksAreDistinct(p, s, t);
    ClaimedIsUnprojected(t, i);
    ProjectionAdds(p, s, t, r, ready);
    AddedRowsAreFields(p, s, t, r, ready, paths);
    rows := FieldRows(p, s.futureSkewSeconds, ready, stream, paths, |paths|);
  }

  lemma TasksAreDistinct(p: Platform, s: Settings, t: Catalog)
    requires Inv(p, s, t)
    ensures DistinctTasks(t.tasks)
  {
  }

  lemma ProjectedConsistent(p: Platform, s: Settings, t: Catalog, u: Catalog, i: nat, ready: Ready, at: int)
    requires Sound(t) && ProjectsTask(p, s, t, u, i, ready, at)
    ensures Sound(u) && Grows(t, u)
  {
    hide JsonQueued, ValuesOf, FieldDelivery, Persisted, Counted, EvidenceLinked, IsFieldTask;
    var paths := SortedSet(ready.values.Keys);
    var stored := t.(outbox := PersistedAll(p, s.futureSkewSeconds, t.outbox, ready, t.streams[ready.raw.streamId]));
    assert RowsTraceable(t);
    PersistKeeps(p, s.futureSkewSeconds, t, ready, t.streams[ready.raw.streamId], paths, |paths|);
    QueuedStays(t, stored);
    StatesAreInconsequential(stored, u);
    GrowsTransitive(t, stored, u);
  }

  lemma QueuedStays(t: Catalog, u: Catalog)
    requires JsonQueued(t) && t.raws == u.raws && t.tasks == u.tasks
    ensures JsonQueued(u)
  {
  }

  lemma ProjectedOrigins(p: Platform, s: Settings, t: Catalog, u: Catalog, i: nat, ready: Ready, at: int)
    requires CollisionFree(p) && Inv(p, s, t) && ProjectsTask(p, s, t, u, i, ready, at) && Grows(t, u)
    ensures Origins(p, s, u)
  {
    hide Consistent, JsonQueued, Completed, IsPointRow, IsFieldRow, CollisionFree, PersistedAll, ValuesOf;
    var r, paths := t.tasks[i].payload.rawId, SortedSet(ready.values.Keys);
    OriginsStay(p, s, t, u);
    var rows := NewRows(p, s, t, u, i, ready, at);
    assert DoneField(u.tasks, i) && Projected(u.tasks, r);
    forall k | |t.outbox| <= k < |u.outbox| ensures FromProjection(p, s, u, u.outbox[k].payload) {
      var n := k - |t.outbox|;
      assert u.outbox[k] == rows[n];
      FieldRowStays(p, s, t, u, rows[n].payload, r, paths[n]);
    }
  }

  lemma ProjectedCompleted(p: Platform, s: Settings, t: Catalog, u: Catalog, i: nat, ready: Ready, at: int)
    requires CollisionFree(p) && Inv(p, s, t) && ProjectsTask(p, s, t, u, i, ready, at) && Grows(t, u)
    ensures Completed(p, s, u)
  {
    hide Consistent, JsonQueued, Origins, CollisionFree, PersistedAll, ValuesOf, FieldDelivery, AllThere;
    var r := t.tasks[i].payload.rawId;
    var rows := NewRows(p, s, t, u, i, ready, at);
    NewFieldsThere(p, s, t, u, r, ready.values, rows);
    forall j: nat | DoneField(u.tasks, j) ensures AllThere(p, s, u, u.tasks[j].payload.rawId) {
      if j != i {
        assert DoneField(t.tasks, j);
        AllThereStays(p, s, t, u, t.tasks[j].payload.rawId);
      }
    }
  }

  lemma NewFieldsThere(p: Platform, s: Settings, t: Catalog, u: Catalog, r: nat, values: map<string, Scalar>,
                       rows: seq<Row<Delivery>>)
    requires u.raws == t.raws && u.streams == t.streams && u.outbox == t.outbox + rows
    requires r < |t.raws| && t.raws[r].streamId < |t.streams| && ValuesOf(p, t.raws[r]) == Some(values)
    requires AreFieldRows(p, s, t, r, SortedSet(values.Keys), rows)
    ensures AllThere(p, s, u, r)
  {
    hide ValuesOf, FieldDelivery, HasPayload;
    var paths := SortedSet(values.Keys);
    forall q | q in values ensures FieldThere(p, s, u, r, q) {
      assert q in paths;
      var k :| 0 <= k < |paths| && paths[k] == q;
      assert IsFieldRow(p, s, t, rows[k].payload, r, paths[k]);
      AppendedPayload(t.outbox, rows, k);
    }
  }

  lemma AppendedPayload(outbox: seq<Row<Delivery>>, rows: seq<Row<Delivery>>, k: nat)
    requires k < |rows|
    ensures HasPayload(outbox + rows, rows[k].payload)
  {
    assert (outbox + rows)[|outbox| + k] == rows[k];
  }

  lemma ProjectTaskKeeps(p: Platform, s: Settings, t: Catalog, u: Catalog, i: nat, ready: Ready, at: int)
    requires CollisionFree(p) && Inv(p, s, t) && ProjectsTask(p, s, t, u, i, ready, at)
    ensures Inv(p, s, u)
  {
    hide Sound, KeysPlain, Named, Origins, Completed, CollisionFree, PersistedAll, ValuesOf, Grows;
    ProjectedConsistent(p, s, t, u, i, ready, at);
    ProjectedOrigins(p, s, t, u, i, ready, at);
    ProjectedCompleted(p, s, t, u, i, ready, at);
  }

  /** A projection either completes its task, or changes no more than the task's state. */
  lemma ProjectCases(p: Platform, s: Settings, t: Catalog, item: Item<Task>, takeover: Option<Takeover>, at: int)
    returns (ready: Option<Ready>)
    ensures var u := Project(p, s.futureSkewSeconds, t, item, takeover, at).catalog;
            if ready.Some? then ProjectsTask(p, s, t, u, item.id, ready.value, at) else OnlyStates(t, u)
  {
    hide PersistedAll, ExtractValues;
    ready := None;
    match Prepare(p, t, item)
    case Err(_) =>
    case Ok(checked) =>
      if Current(Reclaimed(t.tasks, item.id, takeover), item) {
        ready := Some(checked);
      }
  }

  // ---- runs ----

  /** Every step keeps the tables sound and every row's payload, whatever digests do. */
  lemma StepIsSound(p: Platform, s: Settings, t: Catalog, e: Event)
    requires Sound(t) && Enabled(s, t, e)
    ensures Sound(Next(p, s, t, e)) && Grows(t, Next(p, s, t, e))
  {
    hide Sound, Grows, Record, Project, ProjectsTask, DoneField;
    match e
    case Ingest(c) => IngestIsSound(p, s, t, c);
    case ProjectFields(item, takeover, at) =>
      var ready := ProjectCases(p, s, t, item, takeover, at);
      if ready.Some? {
        ProjectedConsistent(p, s, t, Next(p, s, t, e), item.id, ready.value, at);
      } else {
        StatesAreInconsequential(t, Next(p, s, t, e));
      }
    case _ =>
      OtherStepsChangeStates(p, s, t, e);
      StatesAreInconsequential(t, Next(p, s, t, e));
  }

  lemma StepKeeps(p: Platform, s: Settings, t: Catalog, e: Event)
    requires CollisionFree(p) && PlainTexts(p) && Inv(p, s, t) && Enabled(s, t, e)
    ensures Inv(p, s, Next(p, s, t, e))
  {
    hide Inv, CollisionFree, PlainTexts, Record, Project, ProjectsTask, OnlyStates;
    match e
    case Ingest(c) => IngestKeeps(p, s, t, c);
    case ProjectFields(item, takeover, at) =>
      var ready := ProjectCases(p, s, t, item, takeover, at);
      if ready.Some? {
        ProjectTaskKeeps(p, s, t, Next(p, s, t, e), item.id, ready.value, at);
      } else {
        OnlyStatesKeeps(p, s, t, Next(p, s, t, e));
      }
    case _ =>
      OtherStepsChangeStates(p, s, t, e);
      OnlyStatesKeeps(p, s, t, Next(p, s, t, e));
  }

  lemma {:induction false} SoundAlways(p: Platform, s: Settings, ts: seq<Catalog>, es: seq<Event>, n: nat)
    requires IsRun(p, s, ts, es) && n <= |es|
    ensures Sound(ts[n])
  {
    hide Next, Enabled;
    if n > 0 {
      SoundAlways(p, s, ts, es, n - 1);
      assert Enabled(s, ts[n - 1], es[n - 1]) && ts[n] == Next(p, s, ts[n - 1], es[n - 1]);
      StepIsSound(p, s, ts[n - 1], es[n - 1]);
    }
  }

  lemma {:induction false} InvAlways(p: Platform, s: Settings, ts: seq<Catalog>, es: seq<Event>, n: nat)
    requires CollisionFree(p) && PlainTexts(p) && IsRun(p, s, ts, es) && n <= |es|
    ensures Inv(p, s, ts[n])
  {
    hide CollisionFree, PlainTexts, Next, Enabled, IsPointRow, FromProjection, AllThere;
    if n > 0 {
      InvAlways(p, s, ts, es, n - 1);
      assert Enabled(s, ts[n - 1], es[n - 1]) && ts[n] == Next(p, s, ts[n - 1], es[n - 1]);
      StepKeeps(p, s, ts[n - 1], es[n - 1]);
    }
  }

  lemma {:induction false} GrowsAlong(p: Platform, s: Settings, ts: seq<Catalog>, es: seq<Event>, m: nat, n: nat)
    requires IsRun(p, s, ts, es) && m <= n <= |es|
    ensures Grows(ts[m], ts[n])
    decreases n
  {
    hide Next, Enabled, Sound;
    if m < n {
      GrowsAlong(p, s, ts, es, m, n - 1);
      SoundAlways(p, s, ts, es, n - 1);
      assert Enabled(s, ts[n - 1], es[n - 1]) && ts[n] == Next(p, s, ts[n - 1], es[n - 1]);
      StepIsSound(p, s, ts[n - 1], es[n - 1]);
      GrowsTransitive(ts[m], ts[n - 1], ts[n]);
    }
  }
}
