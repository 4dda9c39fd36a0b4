/** What a saved query returns of the store behind the pipeline: the extracted values. */
module QueriedFields {
  import opened Std
  import opened JsonValues
  import ObservationTime
  import opened Storage
  import opened ObservationKeys
  import opened StreamCatalog
  import opened FieldValueExtraction
  import opened FieldProjection
  import opened ProjectionSteps
  import opened SavedQuery
  import opened SavedQueryTheorems
  import opened QueryStore
  import PointMapping
  import R = PipelineRuns
  import E = EndToEnd
  import StoreTheorems

  /** The bucket holds the records of the field points of the store, and nothing else. */
  ghost predicate HoldsExactly(bucket: seq<Record>, idOf: string -> nat, text: Json -> string,
                               sink: set<PointMapping.MappedPoint>) {
    forall r :: r in bucket
        <==> exists m :: m in sink && m.measurement == "telemetry_field" && r in RecordsOf(idOf, text, m)
  }

  /** Stream identifiers are read back as written. */
  ghost predicate ReadsIds(p: Platform, idOf: string -> nat) { forall n: nat :: idOf(p.idText(n)) == n }

  function AsValue(v: Scalar): Value {
    match v
    case IntegerValue(i) => Value.IntegerValue(i)
    case FloatValue(f) => Value.FloatValue(f)
    case BooleanValue(b) => Value.BooleanValue(b)
    case StringValue(s) => Value.StringValue(s)
  }

  /** The point is what was extracted of the projected observation r for the series. */
  ghost predicate IsExtracted(p: Platform, s: Settings, t: Catalog, key: SeriesKey, r: nat, pt: SavedQuery.Point) {
    && r < |t.raws| && t.raws[r].streamId == key.streamId && R.Projected(t.tasks, r)
    && ValuesOf(p, t.raws[r]).Some? && key.fieldPath in ValuesOf(p, t.raws[r]).value
    && (exists at :: ObservedAt(p, s.futureSkewSeconds, t.raws[r], at) && pt.time == at.at)
    && pt.value == AsValue(ValuesOf(p, t.raws[r]).value[key.fieldPath])
  }

  /** Some projected observation of the stream has the point, inside the window. */
  ghost predicate ExtractedWithin(p: Platform, s: Settings, t: Catalog, key: SeriesKey, start: int, stop: int,
                                  pt: SavedQuery.Point) {
    start <= pt.time < stop && exists r: nat :: IsExtracted(p, s, t, key, r, pt)
  }

  /** Every field row of the stream's projected observations has been delivered. */
  ghost predicate StreamDelivered(p: Platform, t: Catalog, streamId: nat) {
    forall r: nat :: r < |t.raws| && t.raws[r].streamId == streamId && R.Projected(t.tasks, r) ==>
      StoreTheorems.FieldsDelivered(p, t, r)
  }

  // ---- records and points ----

  lemma ExactStoresHoldPoints(bucket: seq<Record>, idOf: string -> nat, text: Json -> string,
                              sink: set<PointMapping.MappedPoint>)
    requires HoldsExactly(bucket, idOf, text, sink)
    ensures HoldsPoints(bucket, idOf, text, sink)
  {
    hide RecordsOf;
  }

  /** A point that carries a scalar has one value record, and it reads as that scalar. */
  lemma CarriedValue(key: SeriesKey, time: int, v: PointMapping.Values, scalar: Scalar, r: Record)
    requires PointMapping.CarriesExactly(v, scalar)
    ensures r in ValueRecords(key, time, v) ==> r.value == AsValue(scalar)
  {
  }

  lemma ValueIsThere(key: SeriesKey, time: int, v: PointMapping.Values, scalar: Scalar) returns (r: Record)
    requires PointMapping.CarriesExactly(v, scalar)
    ensures r in ValueRecords(key, time, v) && r.key == key && r.time == time
    ensures PointOf(r) == Some(SavedQuery.Point(time, AsValue(scalar))) && IsValueField(r.fieldName)
  {
    match scalar
    case IntegerValue(i) => r := Record(key, time, "value_integer", Value.IntegerValue(i));
    case FloatValue(f) => r := Record(key, time, "value_float", Value.FloatValue(f));
    case BooleanValue(b) => r := Record(key, time, "value_boolean", Value.BooleanValue(b));
    case StringValue(s) => r := Record(key, time, "value_string", Value.StringValue(s));
  }

  lemma {:induction false} StoredIff(bucket: seq<Record>, key: SeriesKey, start: int, stop: int, r: Record)
    ensures r in Stored(bucket, key, start, stop) <==>
              r in bucket && r.key == key && start <= r.time < stop && IsValueField(r.fieldName)
  {
    hide IsValueField;
    if bucket != [] {
      StoredIff(bucket[1..], key, start, stop, r);
      assert bucket == [bucket[0]] + bucket[1..];
    }
  }

  lemma {:induction false} PointIsFound(s: seq<Record>, key: SeriesKey, r: Record)
    requires r in s && r.key == key && PointOf(r).Some?
    ensures PointOf(r).value in PointsFor(s, key)
    decreases |s|
  {
    hide PointOf;
    var n := |s| - 1;
    if r != s[n] {
      assert s == s[..n] + [s[n]];
      PointIsFound(s[..n], key, r);
    }
  }

  // ---- stored points are extracted values, and conversely ----

  /** What the query finds for a series was extracted. */
  lemma FoundIsExtracted(p: Platform, s: Settings, ys: seq<E.System>, es: seq<E.Event>, n: nat, bucket: seq<Record>,
                         idOf: string -> nat, text: Json -> string, key: SeriesKey, start: int, stop: int,
                         pt: SavedQuery.Point)
    requires CollisionFree(p) && PlainTexts(p) && PointMapping.ReadsItsOwnWriting(p) && ReadsIds(p, idOf)
    requires E.IsRun(p, s, ys, es) && n <= |es| && HoldsExactly(bucket, idOf, text, ys[n].sink)
    requires pt in StoredPoints(bucket, key, start, stop)
    ensures ExtractedWithin(p, s, ys[n].catalog, key, start, stop, pt)
  {
    hide CollisionFree, PlainTexts, PointMapping.ReadsItsOwnWriting, E.IsRun, Stored, PointsFor, IsValueField,
         PointOf, ValueRecords, OtherRecords, PointMapping.CarriesExactly, ValuesOf, RawTime, R.Projected, AsValue;
    E.RunLength(p, s, ys, es);
    var found := PointsComeFromRecords(Stored(bucket, key, start, stop), key, pt);
    StoredIff(bucket, key, start, stop, found);
    var m :| m in ys[n].sink && m.measurement == "telemetry_field" && found in RecordsOf(idOf, text, m);
    if found in OtherRecords(KeyOf(idOf, m), m.time, text, m.fields) {
      OthersAreNoValues(KeyOf(idOf, m), m.time, text, m.fields, found);
      assert false;
    }
    ValuesParse(KeyOf(idOf, m), m.time, m.fields.values, found);
    var r, q := StoreTheorems.StoredFieldsAreProjected(p, s, ys, es, n, m);
    CarriedValue(KeyOf(idOf, m), m.time, m.fields.values, ValuesOf(p, ys[n].catalog.raws[r]).value[q], found);
    assert IsExtracted(p, s, ys[n].catalog, key, r, pt);
  }

  lemma ProjectedByTask(t: Catalog, r: nat) returns (i: nat)
    requires R.Projected(t.tasks, r)
    ensures R.DoneField(t.tasks, i) && t.tasks[i].payload.rawId == r
  {
    i :| R.DoneField(t.tasks, i) && t.tasks[i].payload.rawId == r;
  }

  /** The store's point of a field is at the one time the observation has. */
  lemma FieldPointIsTimed(p: Platform, s: Settings, raw: Raw, stream: Stream, q: string, v: Scalar,
                          m: PointMapping.MappedPoint, at: ObservationTime.Selected)
    requires StoreTheorems.IsFieldPoint(p, s, raw, stream, q, v, m) && ObservedAt(p, s.futureSkewSeconds, raw, at)
    ensures m.measurement == "telemetry_field" && m.time == at.at && PointMapping.CarriesExactly(m.fields.values, v)
    ensures m.tags.fieldPath == Some(q) && m.tags.streamId == p.idText(raw.streamId)
  {
    hide ObservedAt, PointMapping.CarriesExactly, FieldKey, RawTime;
    var mine :| ObservedAt(p, s.futureSkewSeconds, raw, mine) && PointMapping.TimedBy(m, mine);
    RawTimeIff(p, s.futureSkewSeconds, raw, mine);
    RawTimeIff(p, s.futureSkewSeconds, raw, at);
  }

  /** What was extracted and delivered, the query finds. */
  lemma ExtractedIsFound(p: Platform, s: Settings, ys: seq<E.System>, es: seq<E.Event>, n: nat, bucket: seq<Record>,
                         idOf: string -> nat, text: Json -> string, key: SeriesKey, start: int, stop: int,
                         pt: SavedQuery.Point)
    requires CollisionFree(p) && PlainTexts(p) && PointMapping.ReadsItsOwnWriting(p) && ReadsIds(p, idOf)
    requires E.IsRun(p, s, ys, es) && n <= |es| && HoldsExactly(bucket, idOf, text, ys[n].sink)
    requires StreamDelivered(p, ys[n].catalog, key.streamId)
    requires ExtractedWithin(p, s, ys[n].catalog, key, start, stop, pt)
    ensures pt in StoredPoints(bucket, key, start, stop)
  {
    hide CollisionFree, PlainTexts, PointMapping.ReadsItsOwnWriting, E.IsRun, Stored, PointsFor, IsValueField,
         PointOf, ValueRecords, OtherRecords, PointMapping.CarriesExactly, ValuesOf, ObservedAt, AsValue,
         StoreTheorems.FieldsDelivered, StoreTheorems.IsFieldPoint, R.Projected;
    E.RunLength(p, s, ys, es);
    var t := ys[n].catalog;
    var r: nat :| IsExtracted(p, s, t, key, r, pt);
    var at :| ObservedAt(p, s.futureSkewSeconds, t.raws[r], at) && pt.time == at.at;
    var i := ProjectedByTask(t, r);
    StoreTheorems.ProjectedFieldsReachTheStore(p, s, ys, es, n, i);
    var v := ValuesOf(p, t.raws[r]).value[key.fieldPath];
    assert StoreTheorems.FieldStored(p, s, ys[n], r, key.fieldPath, v);
    var m :| m in ys[n].sink
        && StoreTheorems.IsFieldPoint(p, s, t.raws[r], t.streams[t.raws[r].streamId], key.fieldPath, v, m);
    FieldPointIsTimed(p, s, t.raws[r], t.streams[t.raws[r].streamId], key.fieldPath, v, m, at);
    var found := ValueIsThere(KeyOf(idOf, m), m.time, m.fields.values, v);
    assert found in RecordsOf(idOf, text, m);
    StoredIff(bucket, key, start, stop, found);
    PointIsFound(Stored(bucket, key, start, stop), key, found);
  }

  /** From payload to answer: over the store of any run, once the projected observations of a
      requested stream are delivered and the truncation flag is unset, the points returned
      for a field are exactly the values extracted of that stream's projected observations,
      at the observations' times, inside the window. */
  lemma QueryReturnsTheExtracted(p: Platform, s: Settings, ys: seq<E.System>, es: seq<E.Event>, n: nat,
                                 bucket: seq<Record>, idOf: string -> nat, text: Json -> string, keys: seq<SeriesKey>,
                                 start: int, stop: int, groups: seq<seq<Record>>, records: seq<Record>,
                                 dumps: Value -> string, requested: seq<SeriesItem>, i: nat)
    requires CollisionFree(p) && PlainTexts(p) && PointMapping.ReadsItsOwnWriting(p) && ReadsIds(p, idOf)
    requires E.IsRun(p, s, ys, es) && n <= |es| && HoldsExactly(bucket, idOf, text, ys[n].sink)
    requires AreSeriesOf(keys, requested) && i < |requested|
             && StreamDelivered(p, ys[n].catalog, requested[i].key.streamId)
    requires IsAnswer(bucket, keys, start, stop, MAX_POINTS_PER_SERIES + 1, MAX_POINTS_PER_RESPONSE + 1, p.idText,
                      groups, records)
    requires !AnyShortened(dumps, requested, records, |requested|)
    ensures forall pt :: pt in ShareOf(dumps, requested, records, i).points <==>
                         ExtractedWithin(p, s, ys[n].catalog, requested[i].key, start, stop, pt)
  {
    hide CollisionFree, PlainTexts, PointMapping.ReadsItsOwnWriting, ReadsIds, E.IsRun, HoldsExactly, HoldsPoints,
         IsAnswer, AnyShortened, ShareOf, StoredPoints, ExtractedWithin, StreamDelivered, WindowParses;
    E.RunLength(p, s, ys, es);
    var key := requested[i].key;
    ExactStoresHoldPoints(bucket, idOf, text, ys[n].sink);
    WrittenStoresParse(bucket, idOf, text, ys[n].sink, requested, start, stop);
    UnsetMeansComplete(bucket, keys, start, stop, p.idText, groups, records, dumps, requested, i);
    forall pt
      ensures pt in ShareOf(dumps, requested, records, i).points
              <==> ExtractedWithin(p, s, ys[n].catalog, key, start, stop, pt)
    {
      assert pt in ShareOf(dumps, requested, records, i).points
             <==> pt in multiset(StoredPoints(bucket, key, start, stop));
      if pt in StoredPoints(bucket, key, start, stop) {
        FoundIsExtracted(p, s, ys, es, n, bucket, idOf, text, key, start, stop, pt);
      }
      if ExtractedWithin(p, s, ys[n].catalog, key, start, stop, pt) {
        ExtractedIsFound(p, s, ys, es, n, bucket, idOf, text, key, start, stop, pt);
      }
    }
  }
}
