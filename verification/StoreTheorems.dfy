/** What the store behind the pipeline holds, at every point of every run. */
module StoreTheorems {
  import opened Std
  import opened LeaseTable
  import opened Storage
  import opened ObservationKeys
  import opened FieldValueExtraction
  import opened StreamCatalog
  import opened CatalogTheorems
  import opened FieldProjection
  import opened ProjectionSteps
  import opened PointMapping
  import opened PipelineTheorems
  import opened EndToEnd
  import R = PipelineRuns
  import D = DeliveryRuns

  // ---- the store and the outbox ----

  lemma {:induction false} StoreGrows(p: Platform, s: Settings, ys: seq<System>, es: seq<Event>, i: nat, j: nat)
    requires IsRun(p, s, ys, es) && i <= j <= |es|
    ensures ys[i].sink <= ys[j].sink
    decreases j
  {
    hide Enabled;
    if i < j {
      StoreGrows(p, s, ys, es, i, j - 1);
      assert ys[j] == Next(p, s, ys[j - 1], es[j - 1]);
    }
  }

  /** A delivered row maps, and its point is in the store. */
  lemma DeliveredIsStored(p: Platform, s: Settings, ys: seq<System>, es: seq<Event>, n: nat, k: nat)
    requires IsRun(p, s, ys, es) && n <= |es|
    requires k < |ys[n].catalog.outbox| && ys[n].catalog.outbox[k].state.Done?
    ensures var mapped := Mapping(p, ys[n].catalog.outbox[k].payload); mapped.Ok? && mapped.value in ys[n].sink
  {
    hide Mapping, R.Next, R.Enabled;
    var d, des := ys[n].catalog.outbox[k].payload, DeliveryEvents(p, s, ys, es);
    IsDeliveryRun(p, s, ys, es);
    D.RunInv(s.outbox, Outboxes(ys), des, n);
    assert OutboxOf(ys[n]).rows[k].payload == d;
    assert D.WrittenBefore(des, n, k, d);
    var i :| 0 <= i < n && i < |des| && des[i].Write? && des[i].outcome.Written? && des[i].item.id == k
        && des[i].item.payload == d;
    assert des[i] == DeliveryEvent(p, s, ys[i], es[i]);
    assert Enabled(p, s, ys[i], es[i]) && ys[i + 1] == Next(p, s, ys[i], es[i]);
    StoreGrows(p, s, ys, es, i + 1, n);
  }

  ghost predicate FromRow(p: Platform, outbox: seq<Row<Delivery>>, m: MappedPoint) {
    exists k :: 0 <= k < |outbox| && Mapping(p, outbox[k].payload) == Ok(m)
  }

  lemma FromRowStays(p: Platform, a: seq<Row<Delivery>>, b: seq<Row<Delivery>>, m: MappedPoint)
    requires FromRow(p, a, m) && PayloadsGrow(a, b)
    ensures FromRow(p, b, m)
  {
    hide Mapping;
    var k :| 0 <= k < |a| && Mapping(p, a[k].payload) == Ok(m);
    assert Mapping(p, b[k].payload) == Ok(m);
  }

  /** Nothing is in the store but the points of outbox rows. */
  lemma {:induction false} StoredComesFromRows(p: Platform, s: Settings, ys: seq<System>, es: seq<Event>, n: nat)
    requires IsRun(p, s, ys, es) && n <= |es|
    ensures forall m :: m in ys[n].sink ==> FromRow(p, ys[n].catalog.outbox, m)
  {
    hide Mapping, R.Next, R.Enabled, FromRow, R.IsRun;
    if n > 0 {
      var y, e := ys[n - 1], es[n - 1];
      StoredComesFromRows(p, s, ys, es, n - 1);
      assert Enabled(p, s, y, e) && ys[n] == Next(p, s, y, e);
      IsPipelineRun(p, s, ys, es);
      R.GrowsAlong(p, s, Catalogs(ys), PipelineEvents(ys, es), n - 1, n);
      HeldInPolicy(p, s, ys, es, n - 1);
      forall m | m in ys[n].sink ensures FromRow(p, ys[n].catalog.outbox, m) {
        if m !in y.sink {
          assert e.Write? && Mapping(p, e.item.payload) == Ok(m);
          RowMaps(p, y.catalog.outbox, e.item.id, m);
        }
        FromRowStays(p, y.catalog.outbox, ys[n].catalog.outbox, m);
      }
    }
  }

  lemma RowMaps(p: Platform, outbox: seq<Row<Delivery>>, k: nat, m: MappedPoint)
    requires k < |outbox| && Mapping(p, outbox[k].payload) == Ok(m)
    ensures FromRow(p, outbox, m)
  {
  }

  // ---- the store and the observations ----

  /** The point of the scalar field on path q of a stored observation. */
  ghost predicate IsFieldPoint(p: Platform, s: Settings, raw: Raw, stream: Stream, q: string, v: Scalar,
                               m: MappedPoint) {
    && m.measurement == "telemetry_field"
    && TimedAsObserved(p, s.futureSkewSeconds, raw, m)
    && CarriesExactly(m.fields.values, v)
    && m.tags.fieldPath == Some(q)
    && m.tags.streamId == p.idText(raw.streamId) && m.tags.sourceId == stream.sourceId && m.tags.tenant == stream.tenant
    && m.fields.deliveryKey == FieldKey(p, raw.observationKey, q)
  }

  ghost predicate FieldStored(p: Platform, s: Settings, y: System, r: nat, q: string, v: Scalar)
    requires r < |y.catalog.raws| && y.catalog.raws[r].streamId < |y.catalog.streams|
  {
    exists m :: m in y.sink
        && IsFieldPoint(p, s, y.catalog.raws[r], y.catalog.streams[y.catalog.raws[r].streamId], q, v, m)
  }

  /** Every outbox row of the observation's fields has been delivered. */
  ghost predicate FieldsDelivered(p: Platform, t: Catalog, r: nat)
    requires r < |t.raws|
  {
    forall k, q :: 0 <= k < |t.outbox| && IsPath(q)
        && t.outbox[k].payload.key == FieldKey(p, t.raws[r].observationKey, q)
      ==> t.outbox[k].state.Done?
  }

  lemma PathsAreNotEmpty(q: string)
    requires IsPath(q)
    ensures q != ""
  {
  }

  lemma FieldDeliveryMaps(p: Platform, s: Settings, raw: Raw, stream: Stream, q: string, v: Scalar)
    requires ReadsItsOwnWriting(p) && stream.sourceId != "" && stream.topic != "" && IsPath(q)
    requires Mapping(p, FieldDelivery(p, s.futureSkewSeconds, raw, stream, q, v)).Ok?
    ensures IsFieldPoint(p, s, raw, stream, q, v,
                         Mapping(p, FieldDelivery(p, s.futureSkewSeconds, raw, stream, q, v)).value)
  {
    hide Mapping, RawTime, FieldKey, CarriesExactly, TimedAsObserved, ReadsItsOwnWriting, FieldPoint;
    PathsAreNotEmpty(q);
    FieldPointsAreValidIff(p, s.futureSkewSeconds, raw, stream, q, v);
  }

  /** End to end: once an observation's field task is completed and its rows are delivered,
      the store holds, for each scalar field of its payload, a point at the observation's
      time that carries exactly the extracted value. */
  lemma ProjectedFieldsReachTheStore(p: Platform, s: Settings, ys: seq<System>, es: seq<Event>, n: nat, i: nat)
    requires CollisionFree(p) && PlainTexts(p) && ReadsItsOwnWriting(p) && IsRun(p, s, ys, es) && n <= |es|
    requires R.DoneField(ys[n].catalog.tasks, i)
    requires ys[n].catalog.tasks[i].payload.rawId < |ys[n].catalog.raws|
             && FieldsDelivered(p, ys[n].catalog, ys[n].catalog.tasks[i].payload.rawId)
    ensures var t, r := ys[n].catalog, ys[n].catalog.tasks[i].payload.rawId;
            && t.raws[r].streamId < |t.streams| && ValuesOf(p, t.raws[r]).Some?
            && forall q :: q in ValuesOf(p, t.raws[r]).value ==>
              FieldStored(p, s, ys[n], r, q, ValuesOf(p, t.raws[r]).value[q])
  {
    hide CollisionFree, PlainTexts, ReadsItsOwnWriting, Enabled, Next, R.IsRun, R.Inv, Mapping, FieldDelivery,
         ValuesOf, IsPath, IsFieldPoint, OnlyRow, FieldsDelivered;
    var t, r := ys[n].catalog, ys[n].catalog.tasks[i].payload.rawId;
    var ts, pes := Catalogs(ys), PipelineEvents(ys, es);
    IsPipelineRun(p, s, ys, es);
    R.InvAlways(p, s, ts, pes, n);
    assert ts[n] == t;
    ProjectionIsAllOrNothing(p, s, ts, pes, n, i);
    forall q | q in ValuesOf(p, t.raws[r]).value
      ensures FieldStored(p, s, ys[n], r, q, ValuesOf(p, t.raws[r]).value[q])
    {
      RowReachesStore(p, s, ys, es, n, r, q);
    }
  }

  lemma RowReachesStore(p: Platform, s: Settings, ys: seq<System>, es: seq<Event>, n: nat, r: nat, q: string)
    requires ReadsItsOwnWriting(p) && IsRun(p, s, ys, es) && n <= |es| && R.Inv(p, s, ys[n].catalog)
    requires r < |ys[n].catalog.raws| && ys[n].catalog.raws[r].streamId < |ys[n].catalog.streams|
             && FieldsDelivered(p, ys[n].catalog, r)
    requires ValuesOf(p, ys[n].catalog.raws[r]).Some? && q in ValuesOf(p, ys[n].catalog.raws[r]).value
    requires var t := ys[n].catalog;
             OnlyRow(t.outbox, FieldDelivery(p, s.futureSkewSeconds, t.raws[r], t.streams[t.raws[r].streamId], q,
                                             ValuesOf(p, t.raws[r]).value[q]))
    ensures FieldStored(p, s, ys[n], r, q, ValuesOf(p, ys[n].catalog.raws[r]).value[q])
  {
    hide ReadsItsOwnWriting, Enabled, Next, Mapping, ValuesOf, IsPath, IsFieldPoint, FieldKey, FieldPoint, RawTime,
         R.Sound, R.Origins, R.Completed;
    var t := ys[n].catalog;
    var stream, v := t.streams[t.raws[r].streamId], ValuesOf(p, t.raws[r]).value[q];
    var d := FieldDelivery(p, s.futureSkewSeconds, t.raws[r], stream, q, v);
    var k: nat :| k < |t.outbox| && t.outbox[k].payload == d;
    ValuesAreOnPaths(p, t.raws[r], q);
    DeliveredIsStored(p, s, ys, es, n, k);
    FieldDeliveryMaps(p, s, t.raws[r], stream, q, v);
  }

  /** And nothing else: every field point in the store is that of a scalar field of a stored
      observation whose field task is completed. */
  lemma StoredFieldsAreProjected(p: Platform, s: Settings, ys: seq<System>, es: seq<Event>, n: nat, m: MappedPoint)
    returns (r: nat, q: string)
    requires CollisionFree(p) && PlainTexts(p) && ReadsItsOwnWriting(p) && IsRun(p, s, ys, es) && n <= |es|
    requires m in ys[n].sink && m.measurement == "telemetry_field"
    ensures var t := ys[n].catalog;
            && r < |t.raws| && t.raws[r].streamId < |t.streams| && R.Projected(t.tasks, r)
            && ValuesOf(p, t.raws[r]).Some? && q in ValuesOf(p, t.raws[r]).value
            && IsFieldPoint(p, s, t.raws[r], t.streams[t.raws[r].streamId], q, ValuesOf(p, t.raws[r]).value[q], m)
  {
    hide CollisionFree, PlainTexts, ReadsItsOwnWriting, Enabled, Next, R.IsRun, Mapping, FieldDelivery, ValuesOf,
         IsFieldPoint, IsPath, R.Sound, R.Completed, R.IsPointRow, R.Projected;
    var t := ys[n].catalog;
    var ts, pes := Catalogs(ys), PipelineEvents(ys, es);
    IsPipelineRun(p, s, ys, es);
    R.InvAlways(p, s, ts, pes, n);
    assert ts[n] == t;
    StoredComesFromRows(p, s, ys, es, n);
    var k :| 0 <= k < |t.outbox| && Mapping(p, t.outbox[k].payload) == Ok(m);
    var d := t.outbox[k].payload;
    if R.IsPointRow(p, s, d) {
      PointRowsMeasure(p, s, d);
      assert false;
    }
    assert R.FromProjection(p, s, t, d);
    r, q :| R.IsFieldRow(p, s, t, d, r, q) && R.Projected(t.tasks, r);
    ValuesAreOnPaths(p, t.raws[r], q);
    FieldDeliveryMaps(p, s, t.raws[r], t.streams[t.raws[r].streamId], q, ValuesOf(p, t.raws[r]).value[q]);
  }

  lemma PointRowsMeasure(p: Platform, s: Settings, d: Delivery)
    requires ReadsItsOwnWriting(p) && R.IsPointRow(p, s, d)
    ensures Mapping(p, d).Ok? && Mapping(p, d).value.measurement == "telemetry_observation"
  {
    hide Mapping, ReadsItsOwnWriting, PointDelivery, States, HoldsValue, TimedAsMeasured;
    var c, stream: Stream, streamId: nat, evidenceId: nat
        :| PointDelivery(p, s, c, stream, streamId, evidenceId) == Some(d);
    var members, m := DeliveredIsStated(p, s, c, stream, streamId, evidenceId);
    NormalizedPointsAreValid(p, s, c, stream, streamId, evidenceId, members, m.metric, m.unit, m.value);
  }
}
