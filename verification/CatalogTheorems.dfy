/** Recording is conservative and idempotent. */
module CatalogTheorems {
  import opened Std
  import opened LeaseTable
  import opened Repositories
  import opened StreamIdentity
  import opened TopicFilter
  import opened ObservationTime
  import opened Storage
  import opened ObservationKeys
  import opened StreamCatalog

  // ---- what holds of the tables ----

  ghost predicate DistinctStreams(streams: seq<Stream>) {
    forall i, j :: 0 <= i < j < |streams| ==> streams[i].key != streams[j].key
  }

  ghost predicate DistinctRaws(raws: seq<Raw>) {
    forall i, j :: 0 <= i < j < |raws| ==> raws[i].observationKey != raws[j].observationKey
  }

  ghost predicate DistinctTasks(tasks: seq<Row<Task>>) {
    forall i, j :: 0 <= i < j < |tasks| ==> tasks[i].payload != tasks[j].payload
  }

  ghost predicate DistinctDeliveries(outbox: seq<Row<Delivery>>) {
    forall i, j :: 0 <= i < j < |outbox| ==> outbox[i].payload.key != outbox[j].payload.key
  }

  /** The evidence linked to a stream, in order of recording. */
  function Seen(evidence: seq<Evidence>, streamId: nat): seq<Evidence> {
    if evidence == [] then []
    else
      var n := |evidence| - 1;
      Seen(evidence[..n], streamId) + if evidence[n].streamId == Some(streamId) then [evidence[n]] else []
  }

  /** A stream sums up its linked evidence: it counts it, was first observed with the first
      of it, and was last observed, in the format it shows, with the last. */
  ghost predicate SumsUp(stream: Stream, seen: seq<Evidence>) {
    && seen != []
    && stream.observationCount == |seen|
    && stream.firstObservedAt == seen[0].receivedAt
    && stream.lastObservedAt == seen[|seen| - 1].receivedAt
    && stream.payloadFormat == seen[|seen| - 1].contentType
  }

  ghost predicate Counted(streams: seq<Stream>, evidence: seq<Evidence>) {
    forall i: nat :: i < |streams| ==> SumsUp(streams[i], Seen(evidence, i))
  }

  ghost predicate EvidenceLinked(streams: seq<Stream>, evidence: seq<Evidence>) {
    forall k :: 0 <= k < |evidence| && evidence[k].streamId.Some? ==> evidence[k].streamId.value < |streams|
  }

  /** The stream and evidence a row names exist and belong together, and the evidence was accepted. */
  ghost predicate Traceable(t: Catalog, streamId: nat, evidenceId: nat) {
    && streamId < |t.streams| && evidenceId < |t.evidence|
    && t.evidence[evidenceId].streamId == Some(streamId)
    && t.evidence[evidenceId].outcome == "accepted"
  }

  ghost predicate RowsTraceable(t: Catalog) {
    && (forall r :: 0 <= r < |t.raws| ==> Traceable(t, t.raws[r].streamId, t.raws[r].evidenceId))
    && (forall r :: 0 <= r < |t.tasks| ==> t.tasks[r].payload.rawId < |t.raws|)
    && (forall r :: 0 <= r < |t.outbox| ==> Traceable(t, t.outbox[r].payload.streamId, t.outbox[r].payload.evidenceId))
  }

  ghost predicate Consistent(t: Catalog) {
    && DistinctStreams(t.streams) && DistinctRaws(t.raws) && DistinctTasks(t.tasks) && DistinctDeliveries(t.outbox)
    && EvidenceLinked(t.streams, t.evidence) && Counted(t.streams, t.evidence)
    && RowsTraceable(t)
  }

  // ---- what every later state keeps of an earlier one ----

  ghost predicate StreamsGrow(a: seq<Stream>, b: seq<Stream>) {
    && |a| <= |b|
    && forall i :: 0 <= i < |a| ==>
         && b[i].key == a[i].key && b[i].sourceId == a[i].sourceId && b[i].topic == a[i].topic
         && b[i].tenant == a[i].tenant
         && b[i].firstObservedAt == a[i].firstObservedAt
  }

  ghost predicate PayloadsGrow<P>(a: seq<Row<P>>, b: seq<Row<P>>) {
    |a| <= |b| && forall i :: 0 <= i < |a| ==> b[i].payload == a[i].payload
  }

  ghost predicate Grows(t: Catalog, u: Catalog) {
    && StreamsGrow(t.streams, u.streams) && t.evidence <= u.evidence && t.raws <= u.raws
    && PayloadsGrow(t.tasks, u.tasks) && PayloadsGrow(t.outbox, u.outbox)
  }

  lemma GrowsTransitive(t: Catalog, u: Catalog, v: Catalog)
    requires Grows(t, u) && Grows(u, v)
    ensures Grows(t, v)
  {
  }

  // ---- one recording ----

  lemma {:induction false} NoLinks(evidence: seq<Evidence>, streamId: nat)
    requires forall k :: 0 <= k < |evidence| ==> evidence[k].streamId != Some(streamId)
    ensures Seen(evidence, streamId) == []
    decreases |evidence|
  {
    if evidence != [] {
      var n := |evidence| - 1;
      assert evidence[n].streamId != Some(streamId);
      NoLinks(evidence[..n], streamId);
    }
  }

  lemma StreamsStep(streams: seq<Stream>, target: Target, c: Command)
    requires DistinctStreams(streams)
    ensures var after, id := StreamsAfter(streams, target, c), StreamFor(streams, target);
            && DistinctStreams(after) && StreamsGrow(streams, after)
            && id < |after| && after[id].key == target.key
  {
  }

  lemma SeenStep(evidence: seq<Evidence>, e: Evidence, streamId: nat)
    ensures Seen(evidence + [e], streamId)
            == Seen(evidence, streamId) + (if e.streamId == Some(streamId) then [e] else [])
  {
  }

  lemma CountsStep(streams: seq<Stream>, evidence: seq<Evidence>, target: Target, c: Command, e: Evidence)
    requires Counted(streams, evidence) && EvidenceLinked(streams, evidence)
    requires e.streamId == Some(StreamFor(streams, target)) && e.receivedAt == c.receivedAt
             && e.contentType == c.contentType
    ensures Counted(StreamsAfter(streams, target, c), evidence + [e])
    ensures EvidenceLinked(StreamsAfter(streams, target, c), evidence + [e])
  {
    hide Seen;
    var after, id := StreamsAfter(streams, target, c), StreamFor(streams, target);
    forall i: nat | i < |after| ensures SumsUp(after[i], Seen(evidence + [e], i)) {
      SeenStep(evidence, e, i);
      if i == |streams| {
        NoLinks(evidence, i);
      } else {
        assert SumsUp(streams[i], Seen(evidence, i));
      }
    }
  }

  lemma RejectionCounts(t: Catalog, e: Evidence)
    requires Consistent(t) && e.streamId.None?
    ensures Consistent(t.(evidence := t.evidence + [e])) && Grows(t, t.(evidence := t.evidence + [e]))
  {
  }

  lemma NotedStep(p: Platform, s: Settings, t: Catalog, target: Target, c: Command, e: Evidence)
    requires Consistent(t) && e.streamId == Some(StreamFor(t.streams, target))
    requires e.receivedAt == c.receivedAt && e.contentType == c.contentType
    ensures var noted := t.(streams := StreamsAfter(t.streams, target, c), evidence := t.evidence + [e]);
            Consistent(noted) && Grows(t, noted)
    ensures StreamFor(t.streams, target) < |StreamsAfter(t.streams, target, c)|
  {
    StreamsStep(t.streams, target, c);
    CountsStep(t.streams, t.evidence, target, c, e);
  }

  lemma RawStep(raws: seq<Raw>, raw: Raw)
    requires DistinctRaws(raws)
    ensures var after, id := RawsAfter(raws, raw), RawFor(raws, raw);
            DistinctRaws(after) && raws <= after && id < |after| && after[id].observationKey == raw.observationKey
    ensures RawsAfter(raws, raw) == raws || RawsAfter(raws, raw) == raws + [raw]
  {
  }

  lemma TaskStep(tasks: seq<Row<Task>>, task: Task, at: int)
    requires DistinctTasks(tasks)
    ensures var after := TasksAfter(tasks, task, at);
            DistinctTasks(after) && PayloadsGrow(tasks, after) && HasTask(after, task)
    ensures forall i :: 0 <= i < |TasksAfter(tasks, task, at)| ==>
              (i < |tasks| && TasksAfter(tasks, task, at)[i] == tasks[i])
                  || TasksAfter(tasks, task, at)[i] == NewRow(task, at)
  {
    var after := TasksAfter(tasks, task, at);
    if !HasTask(tasks, task) {
      assert after[|tasks|].payload == task;
    }
  }

  lemma DeliveryStep(outbox: seq<Row<Delivery>>, d: Delivery, at: int)
    requires DistinctDeliveries(outbox)
    ensures var after := OutboxAfter(outbox, d, at);
            DistinctDeliveries(after) && PayloadsGrow(outbox, after) && HasDelivery(after, d.key)
    ensures forall i :: 0 <= i < |OutboxAfter(outbox, d, at)| ==>
              (i < |outbox| && OutboxAfter(outbox, d, at)[i] == outbox[i])
                  || OutboxAfter(outbox, d, at)[i] == NewRow(d, at)
  {
    var after := OutboxAfter(outbox, d, at);
    if !HasDelivery(outbox, d.key) {
      assert after[|outbox|].payload.key == d.key;
    }
  }

  lemma RawKeeps(t: Catalog, raw: Raw)
    requires Consistent(t) && Traceable(t, raw.streamId, raw.evidenceId)
    ensures var u := t.(raws := RawsAfter(t.raws, raw)); Consistent(u) && Grows(t, u)
  {
  }

  lemma TaskKeeps(t: Catalog, task: Task, at: int)
    requires Consistent(t) && task.rawId < |t.raws|
    ensures var u := t.(tasks := TasksAfter(t.tasks, task, at)); Consistent(u) && Grows(t, u)
  {
  }

  lemma DeliveryKeeps(t: Catalog, d: Delivery, at: int)
    requires Consistent(t) && Traceable(t, d.streamId, d.evidenceId)
    ensures var u := t.(outbox := OutboxAfter(t.outbox, d, at)); Consistent(u) && Grows(t, u)
  {
  }

  lemma AcceptedStep(p: Platform, s: Settings, t: Catalog, c: Command, streamId: nat, evidenceId: nat)
    requires Consistent(t) && Traceable(t, streamId, evidenceId)
    ensures Consistent(Accepted(p, s, t, c, streamId, evidenceId))
            && Grows(t, Accepted(p, s, t, c, streamId, evidenceId))
  {
    hide Consistent, Grows, RawsAfter, TasksAfter, OutboxAfter, RawFor, PointKey, NormalizedPoint, Envelope,
         MeasurementOf;
    var stream := t.streams[streamId];
    var raw := RawOf(p, s, c, stream.key, streamId, evidenceId);
    RawKeeps(t, raw);
    var rawId := RawFor(t.raws, raw);
    RawInRange(t.raws, raw);
    var t1 := t.(raws := RawsAfter(t.raws, raw));
    var t2, t3 := t1, t1;
    if c.contentType == JSON_CONTENT {
      t2 := t1.(tasks := TasksAfter(t1.tasks, SchemaTask(rawId), c.receivedAt));
      TaskKeeps(t1, SchemaTask(rawId), c.receivedAt);
      GrowsTransitive(t, t1, t2);
      t3 := t2.(tasks := TasksAfter(t2.tasks, FieldTask(rawId), c.receivedAt));
      TaskKeeps(t2, FieldTask(rawId), c.receivedAt);
      GrowsTransitive(t, t2, t3);
    }
    var point := PointDelivery(p, s, c, stream, streamId, evidenceId);
    if point.Some? {
      var t4 := t3.(outbox := OutboxAfter(t3.outbox, point.value, c.receivedAt));
      DeliveryKeeps(t3, point.value, c.receivedAt);
      GrowsTransitive(t, t3, t4);
      assert Accepted(p, s, t, c, streamId, evidenceId) == t4;
    } else {
      assert Accepted(p, s, t, c, streamId, evidenceId) == t3;
    }
  }

  lemma RawInRange(raws: seq<Raw>, raw: Raw)
    ensures RawFor(raws, raw) < |RawsAfter(raws, raw)|
    ensures RawsAfter(raws, raw)[RawFor(raws, raw)].observationKey == raw.observationKey
  {
  }

  /** Recording keeps the tables consistent: unique keys, every stream summing up its
      linked evidence, every derived row traceable to accepted evidence of its own stream. */
  lemma RecordKeepsConsistency(p: Platform, s: Settings, t: Catalog, c: Command)
    requires Consistent(t) && Record(p, s, t, c).Ok?
    ensures Consistent(Record(p, s, t, c).value.catalog) && Grows(t, Record(p, s, t, c).value.catalog)
  {
    hide Consistent, Grows, Resolve, Classify, StreamFor, StreamsAfter, Accepted;
    match Resolve(p, s, c)
    case Err(_) =>
    case Ok(None) => RejectionCounts(t, EvidenceOf(p, s, c, None, "rejected"));
    case Ok(Some(target)) =>
      var outcome := Classify(p, s, c.payload, c.contentType);
      var id := StreamFor(t.streams, target);
      var e := EvidenceOf(p, s, c, Some(id), outcome);
      NotedStep(p, s, t, target, c, e);
      var noted := t.(streams := StreamsAfter(t.streams, target, c), evidence := t.evidence + [e]);
      if outcome == "accepted" {
        AcceptedStep(p, s, noted, c, id, |t.evidence|);
        GrowsTransitive(t, noted, Accepted(p, s, noted, c, id, |t.evidence|));
      }
  }

  /** An observation is rejected exactly when its topic is not authorized or its source is
      blank. Otherwise recording raises exactly when its tenant is given and blank, and then
      writes nothing. */
  lemma WhenRecordingRejectsAndRaises(p: Platform, s: Settings, t: Catalog, c: Command)
    requires KeepsText(p.lower)
    ensures var admitted := Authorized(s.allowlist, c.topic).Ok? && Strip(c.sourceId) != "";
            && (Record(p, s, t, c).Ok? && Record(p, s, t, c).value.streamId.None? <==> !admitted)
            && (Record(p, s, t, c).Err?
                <==> admitted && c.tenant.Some? && c.tenant.value != "" && Strip(c.tenant.value) == "")
  {
    hide Authorized, Accepted, Classify, StreamFor, StreamsAfter, EvidenceOf, KeyMaterial, Strip, NormalizeTopic,
         Trimmed;
    StripTrims(c.sourceId);
    if c.tenant.Some? {
      StripTrims(c.tenant.value);
    }
    if Authorized(s.allowlist, c.topic).Ok? && Strip(c.sourceId) != "" {
      NormalizesAgain(s.allowlist, c.topic);
      StripTrims(p.lower(Strip(c.sourceId)));
      assert NormalizeIdentifier(p.lower, p.lower(Strip(c.sourceId))).Ok?;
    }
  }

  lemma NormalizesAgain(allowlist: seq<string>, topic: string)
    requires Authorized(allowlist, topic).Ok?
    ensures NormalizeTopic(Authorized(allowlist, topic).value).Ok?
  {
    hide AnyMatches, Levels, Join;
    TopicNormalizationIsIdempotent(topic);
  }

  // ---- redelivery ----

  /** The same observation, received at another time. */
  ghost predicate SameObservation(c1: Command, c2: Command) {
    c2 == c1.(receivedAt := c2.receivedAt)
  }

  lemma UniqueStream(streams: seq<Stream>, i: nat)
    requires DistinctStreams(streams) && i < |streams|
    ensures FindStream(streams, streams[i].key) == Some(i)
  {
  }

  lemma UniqueRaw(raws: seq<Raw>, i: nat)
    requires DistinctRaws(raws) && i < |raws|
    ensures FindRaw(raws, raws[i].observationKey) == Some(i)
  {
  }

  lemma TaskStays(a: seq<Row<Task>>, b: seq<Row<Task>>, task: Task)
    requires HasTask(a, task) && PayloadsGrow(a, b)
    ensures HasTask(b, task)
  {
  }

  /** Everything an accepted observation leaves behind is there already. */
  ghost predicate AlreadyHas(p: Platform, s: Settings, t: Catalog, c: Command, stream: Stream) {
    var found := FindRaw(t.raws, RawKey(p, stream.key, c.topic, Identity(p, s, c), Fingerprint(p, s, c.payload)));
    var point := PointDelivery(p, s, c, stream, 0, 0);
    && found.Some?
    && (c.contentType == JSON_CONTENT ==>
        HasTask(t.tasks, SchemaTask(found.value)) && HasTask(t.tasks, FieldTask(found.value)))
    && (point.Some? ==> HasDelivery(t.outbox, point.value.key))
  }

  lemma AcceptedHas(p: Platform, s: Settings, t: Catalog, c: Command, streamId: nat, evidenceId: nat)
    requires Consistent(t) && streamId < |t.streams|
    ensures AlreadyHas(p, s, Accepted(p, s, t, c, streamId, evidenceId), c, t.streams[streamId])
  {
    hide NormalizedPoint, MeasurementOf;
    var stream := t.streams[streamId];
    var raw := RawOf(p, s, c, stream.key, streamId, evidenceId);
    RawStep(t.raws, raw);
    var rawId := RawFor(t.raws, raw);
    UniqueRaw(RawsAfter(t.raws, raw), rawId);
    var tasks := TasksAfter(t.tasks, SchemaTask(rawId), c.receivedAt);
    TaskStep(t.tasks, SchemaTask(rawId), c.receivedAt);
    TaskStep(tasks, FieldTask(rawId), c.receivedAt);
    TaskStays(tasks, TasksAfter(tasks, FieldTask(rawId), c.receivedAt), SchemaTask(rawId));
    var point := PointDelivery(p, s, c, stream, streamId, evidenceId);
    if point.Some? {
      DeliveryStep(t.outbox, point.value, c.receivedAt);
    }
  }

  lemma HasStays(p: Platform, s: Settings, t: Catalog, u: Catalog, c1: Command, c2: Command, one: Stream, two: Stream)
    requires AlreadyHas(p, s, t, c1, one) && Grows(t, u) && DistinctRaws(u.raws)
    requires SameObservation(c1, c2) && Identity(p, s, c1) == Identity(p, s, c2) && one.key == two.key
    ensures AlreadyHas(p, s, u, c2, two)
  {
  }

  lemma NothingToAdd(p: Platform, s: Settings, t: Catalog, c: Command, streamId: nat, evidenceId: nat)
    requires streamId < |t.streams| && AlreadyHas(p, s, t, c, t.streams[streamId])
    ensures Accepted(p, s, t, c, streamId, evidenceId) == t
  {
  }

  /** The tables after an observation that adds evidence and a count, and nothing else. */
  ghost function OnlyNoted(p: Platform, s: Settings, t: Catalog, c: Command, streamId: nat): Catalog
    requires streamId < |t.streams|
  {
    t.(streams := t.streams[streamId := Observed(t.streams[streamId], c)],
       evidence := t.evidence + [EvidenceOf(p, s, c, Some(streamId), Classify(p, s, c.payload, c.contentType))])
  }

  /** Redelivery: once an observation has been recorded, recording it again at any later
      state with the same identifying time, however much has happened in between, adds one
      evidence row and one to its stream's count: no raw row, no task, no outbox row. */
  lemma RedeliveryAddsOnlyEvidence(p: Platform, s: Settings, t: Catalog, c1: Command, u: Catalog, c2: Command)
    requires Consistent(t) && Consistent(u)
    requires Record(p, s, t, c1).Ok? && Grows(Record(p, s, t, c1).value.catalog, u)
    requires SameObservation(c1, c2) && Identity(p, s, c1) == Identity(p, s, c2)
    ensures var first, second := Record(p, s, t, c1).value, Record(p, s, u, c2);
            && second.Ok? && second.value.streamId == first.streamId
            && (first.streamId.None? ==>
                  second.value.catalog == u.(evidence := u.evidence + [EvidenceOf(p, s, c2, None, "rejected")]))
            && (first.streamId.Some? ==>
                  && first.streamId.value < |u.streams|
                  && second.value.catalog == OnlyNoted(p, s, u, c2, first.streamId.value))
  {
    hide Resolve, Accepted, Classify, Identity, AlreadyHas;
    SameTarget(p, s, c1, c2);
    if Resolve(p, s, c1).value.Some? {
      var target := Resolve(p, s, c1).value.value;
      var id, first := StreamFor(t.streams, target), Record(p, s, t, c1).value.catalog;
      FirstDelivery(p, s, t, c1, target);
      assert u.streams[id].key == target.key;
      UniqueStream(u.streams, id);
      var again := OnlyNoted(p, s, u, c2, id);
      if Classify(p, s, c1.payload, c1.contentType) == "accepted" {
        HasStays(p, s, first, u, c1, c2, first.streams[id], u.streams[id]);
        SameHoldings(p, s, u, again, c2, u.streams[id], again.streams[id]);
        NothingToAdd(p, s, again, c2, id, |u.evidence|);
      }
    }
  }

  lemma SameTarget(p: Platform, s: Settings, c1: Command, c2: Command)
    requires SameObservation(c1, c2)
    ensures Resolve(p, s, c1) == Resolve(p, s, c2)
  {
  }

  /** What the first delivery leaves. */
  lemma FirstDelivery(p: Platform, s: Settings, t: Catalog, c: Command, target: Target)
    requires Consistent(t) && Resolve(p, s, c) == Ok(Some(target))
    ensures var first, id := Record(p, s, t, c).value.catalog, StreamFor(t.streams, target);
            && id < |first.streams| && first.streams[id].key == target.key
            && (Classify(p, s, c.payload, c.contentType) == "accepted" ==>
                AlreadyHas(p, s, first, c, first.streams[id]))
  {
    hide Resolve, Classify, Identity, AlreadyHas;
    var id := StreamFor(t.streams, target);
    var e := EvidenceOf(p, s, c, Some(id), Classify(p, s, c.payload, c.contentType));
    StreamsStep(t.streams, target, c);
    NotedStep(p, s, t, target, c, e);
    AcceptedHas(p, s, t.(streams := StreamsAfter(t.streams, target, c), evidence := t.evidence + [e]), c, id,
                |t.evidence|);
  }

  lemma SameHoldings(p: Platform, s: Settings, t: Catalog, u: Catalog, c: Command, one: Stream, two: Stream)
    requires AlreadyHas(p, s, t, c, one) && one.key == two.key
    requires t.raws == u.raws && t.tasks == u.tasks && t.outbox == u.outbox
    ensures AlreadyHas(p, s, u, c, two)
  {
  }

  /** When a redelivery, received no earlier, keeps the identifying time, over every command:
      the source's stamp has not come within the skew in between; and, unless it was in time
      at once, neither has the broker's; and, unless that was in time at once, both receipts
      lie in the same window of the same minute. */
  lemma RedeliveryIdentity(p: Platform, s: Settings, c1: Command, c2: Command)
    requires SameObservation(c1, c2) && c1.receivedAt <= c2.receivedAt
    ensures var own, broker := Stamp(p.fromIso, SourceTimestamp(p, c1)), Stamp(p.fromIso, BrokerValue(c1.metadata));
            var r1, r2, skew := c1.receivedAt, c2.receivedAt, s.futureSkewSeconds;
            Identity(p, s, c1) == Identity(p, s, c2) <==>
              && !Crosses(own, r1, r2, skew)
              && (InTime(own, r1, skew)
                  || (!Crosses(broker, r1, r2, skew)
                      && (InTime(broker, r1, skew) || SameWindow(r1, r2, s.fallbackWindowSeconds))))
  {
    hide Stamp, Bucket, Crosses, InTime, SameWindow, SelectTimestamp;
    assert SourceTimestamp(p, c1) == SourceTimestamp(p, c2);
    RedeliveryKeepsIdentity(p.fromIso, SourceTimestamp(p, c1), c1.metadata, c1.receivedAt, c2.receivedAt,
                            s.futureSkewSeconds, s.fallbackWindowSeconds);
  }
}
