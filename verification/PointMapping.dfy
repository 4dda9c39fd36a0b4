/** From an outbox row to the point written to the time series store. */
module PointMapping {
  import opened Std
  import opened JsonValues
  import opened ObservationTime
  import opened Storage
  import opened ObservationKeys
  import opened FieldValueExtraction
  import opened StreamCatalog
  import opened FieldProjection

  datatype Tags = Tags(
    streamId: string, sourceId: string, metric: Option<string>, fieldPath: Option<string>, timestampSource: string,
    qualityStatus: string, contentSchemaVersion: string, tenant: Option<string>, unit: Option<string>)

  /** The four typed value fields. */
  datatype Values = Values(boolean: Option<bool>, integer: Option<int>, float: Option<real>, text: Option<string>)

  datatype Fields = Fields(values: Values, topic: Json, receivedTimestamp: Json, provenanceReference: Json,
                           deliveryKey: string)

  datatype MappedPoint = MappedPoint(measurement: string, tags: Tags, fields: Fields, time: int)

  const INVALID := "invalid_point"
  const NO_VALUE := Values(None, None, None, None)

  /** point.get(key) is not None */
  predicate Given(v: Option<Json>) { v.Some? && !v.value.JNull? }

  function Shown(p: Platform, v: Json): string { if v.JString? then v.s else p.show(v) }

  predicate IsText(v: Option<Json>) { v.Some? && v.value.JString? && v.value.s != "" }

  /** The value field, by the declared type. */
  function TypedValue(valueType: Json, value: Json): Option<Values> {
    if valueType == JString("boolean") && value.JBool? then Some(NO_VALUE.(boolean := Some(value.b)))
    else if valueType == JString("integer") && value.JInt? then Some(NO_VALUE.(integer := Some(value.i)))
    else if valueType == JString("float") && value.JFloat? && value.f.Finite?
        then Some(NO_VALUE.(float := Some(value.f.r)))
    else if valueType == JString("string") && value.JString? then Some(NO_VALUE.(text := Some(value.s)))
    else None
  }

  /** The keys that both kinds of point require. */
  predicate HasCommonKeys(point: Point) {
    && point.streamId.Some? && point.sourceId.Some? && point.topic.Some?
    && point.observationTimestamp.Some? && point.receivedTimestamp.Some? && point.timestampSource.Some?
    && point.valueType.Some? && point.value.Some?
    && point.contentSchemaVersion.Some? && point.qualityStatus.Some? && point.provenanceReference.Some?
  }

  function NormalizedMapping(p: Platform, d: Delivery): Result<MappedPoint> {
    var point := d.point;
    if !HasCommonKeys(point) || !IsText(point.metric)
        || point.contentSchemaVersion != Written(NORMALIZED_POINT_SCHEMA_VERSION) then Err(INVALID)
    else
      var parsed := p.fromIso(Shown(p, point.observationTimestamp.value));
      var value := TypedValue(point.valueType.value, point.value.value);
      if parsed.NotATime? || value.None? then Err(INVALID)
      else
        Ok(MappedPoint(
             "telemetry_observation",
             Tags(Shown(p, point.streamId.value), Shown(p, point.sourceId.value), Some(Shown(p, point.metric.value)),
                  None, Shown(p, point.timestampSource.value), Shown(p, point.qualityStatus.value),
                  NORMALIZED_POINT_SCHEMA_VERSION,
                  if Given(point.tenant) then Some(Shown(p, point.tenant.value)) else None,
                  if Given(point.unit) then Some(Shown(p, point.unit.value)) else None),
             Fields(value.value, point.topic.value, point.receivedTimestamp.value, point.provenanceReference.value,
                    d.key),
             if parsed.Naive? then parsed.asLocal else parsed.utc))
  }

  predicate HasFieldTexts(point: Point) {
    && IsText(point.streamId) && IsText(point.sourceId) && IsText(point.topic)
    && IsText(point.observationTimestamp) && IsText(point.receivedTimestamp) && IsText(point.timestampSource)
    && IsText(point.fieldPath) && IsText(point.valueType) && IsText(point.qualityStatus)
    && IsText(point.provenanceReference)
  }

  function FieldMapping(p: Platform, d: Delivery): Result<MappedPoint> {
    var point := d.point;
    if !HasFieldTexts(point) || point.value.None? || point.contentSchemaVersion != Written(FIELD_POINT_SCHEMA_VERSION)
        then Err(INVALID)
    else
      var parsed := p.fromIso(point.observationTimestamp.value.s);
      var value := TypedValue(point.valueType.value, point.value.value);
      if !parsed.Aware? || value.None? then Err(INVALID)
      else if Given(point.tenant) && !IsText(point.tenant) then Err(INVALID)
      else
        Ok(MappedPoint(
             "telemetry_field",
             Tags(point.streamId.value.s, point.sourceId.value.s, None, Some(point.fieldPath.value.s),
                  point.timestampSource.value.s, point.qualityStatus.value.s, FIELD_POINT_SCHEMA_VERSION,
                  if Given(point.tenant) then Some(point.tenant.value.s) else None, None),
             Fields(value.value, point.topic.value, point.receivedTimestamp.value, point.provenanceReference.value,
                    d.key),
             parsed.utc))
  }

  function Mapping(p: Platform, d: Delivery): Result<MappedPoint> {
    if d.point.contentSchemaVersion == Written(NORMALIZED_POINT_SCHEMA_VERSION) then NormalizedMapping(p, d)
    else if d.point.contentSchemaVersion == Written(FIELD_POINT_SCHEMA_VERSION) then FieldMapping(p, d)
    else Err(INVALID)
  }

  // ---- what ingestion and projection write is mapped ----

  /** A written time is read back as the same instant, and no written text is empty. */
  ghost predicate ReadsItsOwnWriting(p: Platform) {
    && (forall t :: p.fromIso(p.iso(t)) == Aware(t) && p.iso(t) != "")
    && (forall n :: p.idText(n) != "")
    && (forall s :: s != "" ==> p.lower(s) != "")
  }

  /** The value field of the scalar's type holds the scalar, and the other three are absent. */
  ghost predicate CarriesExactly(v: Values, scalar: Scalar) {
    && v.boolean == (match scalar case BooleanValue(b) => Some(b) case _ => None)
    && v.integer == (match scalar case IntegerValue(i) => Some(i) case _ => None)
    && v.float == (match scalar case FloatValue(r) => Some(r) case _ => None)
    && v.text == (match scalar case StringValue(s) => Some(s) case _ => None)
  }

  lemma TypedValueCarries(value: Json, scalar: Scalar)
    requires ScalarOf(value) == Ok(scalar)
    ensures ValueType(value) == Some(ScalarType(scalar))
    ensures TypedValue(JString(ScalarType(scalar)), value).Some?
    ensures CarriesExactly(TypedValue(JString(ScalarType(scalar)), value).value, scalar)
  {
  }

  /** The point is timed by, and names, this reading of the clocks. */
  ghost predicate TimedBy(m: MappedPoint, at: Selected) {
    m.time == at.at && m.tags.timestampSource == ClockName(at.source)
  }

  ghost predicate TimedAsMeasured(p: Platform, s: Settings, c: Command, m: MappedPoint) {
    exists at :: MeasuredAt(p, s, c, at) && TimedBy(m, at)
  }

  ghost predicate TimedAsObserved(p: Platform, skewSeconds: nat, raw: Raw, m: MappedPoint) {
    exists at :: ObservedAt(p, skewSeconds, raw, at) && TimedBy(m, at)
  }

  /** The one value field of the value's own type holds the value. */
  ghost predicate HoldsValue(v: Values, value: Json) {
    && v.boolean == (match value case JBool(b) => Some(b) case _ => None)
    && v.integer == (match value case JInt(i) => Some(i) case _ => None)
    && v.float == (match value case JFloat(Finite(r)) => Some(r) case _ => None)
    && v.text == (match value case JString(s) => Some(s) case _ => None)
  }

  lemma StatedValuesAreTyped(p: Platform, members: seq<Member>, metric: string, unit: Option<string>, value: Json)
    requires States(p, members, metric, unit, value)
    ensures var typed := TypedValue(JString(TypeName(value)), value); typed.Some? && HoldsValue(typed.value, value)
  {
    hide Lookup, Keys;
  }

  lemma StatedMetricsAreTexts(p: Platform, members: seq<Member>, metric: string, unit: Option<string>, value: Json)
    requires States(p, members, metric, unit, value) && forall s :: s != "" ==> p.lower(s) != ""
    ensures metric != ""
  {
    hide Lookup, Keys;
  }

  /** The delivery an accepted document's measurement becomes. */
  lemma StatedIsDelivered(p: Platform, s: Settings, c: Command, stream: Stream, streamId: nat, evidenceId: nat,
                          members: seq<Member>, metric: string, unit: Option<string>, value: Json)
    requires Declared(p, c) == Some(JObject(members)) && States(p, members, metric, unit, value)
    ensures var key := PointKey(p, stream.key, Identity(p, s, c), Fingerprint(p, s, c.payload), metric);
            var m := Measurement(metric, unit, TypeName(value), value);
            PointDelivery(p, s, c, stream, streamId, evidenceId)
            == Some(Delivery(key, streamId, evidenceId,
                             NormalizedPoint(p, stream, streamId, evidenceId, m, SelectedTime(p, s, c), c.receivedAt)))
  {
    hide States, MeasurementOf, PointKey, Identity, Fingerprint, SelectedTime, NormalizedPoint;
    MeasurementIff(p, members, Measurement(metric, unit, TypeName(value), value));
  }

  /** Conversely, a measurement's delivery comes of a document that states it. */
  lemma DeliveredIsStated(p: Platform, s: Settings, c: Command, stream: Stream, streamId: nat, evidenceId: nat)
    returns (members: seq<Member>, m: Measurement)
    requires PointDelivery(p, s, c, stream, streamId, evidenceId).Some?
    ensures Declared(p, c) == Some(JObject(members)) && States(p, members, m.metric, m.unit, m.value)
  {
    hide States, MeasurementOf, PointKey, Identity, Fingerprint, SelectedTime, NormalizedPoint;
    members := Envelope(p, c).value;
    m := MeasurementOf(p, members).value;
    MeasurementIff(p, members, m);
  }

  /** The delivery of a measurement is never an invalid point: it is written at the time the
      document, the broker or the receipt says, tagged with its stream's identity and the
      metric and unit stated, and carries the value stated in exactly one value field. */
  lemma NormalizedPointsAreValid(p: Platform, s: Settings, c: Command, stream: Stream, streamId: nat, evidenceId: nat,
                                 members: seq<Member>, metric: string, unit: Option<string>, value: Json)
    requires ReadsItsOwnWriting(p)
    requires Declared(p, c) == Some(JObject(members)) && States(p, members, metric, unit, value)
    ensures var d := PointDelivery(p, s, c, stream, streamId, evidenceId);
            && d.Some? && Mapping(p, d.value).Ok?
            && var m := Mapping(p, d.value).value;
            && m.measurement == "telemetry_observation"
            && TimedAsMeasured(p, s, c, m) && HoldsValue(m.fields.values, value)
            && m.tags == Tags(p.idText(streamId), stream.sourceId, Some(metric), None, m.tags.timestampSource,
                              "unassessed", "r1.normalized-point.v1", stream.tenant, unit)
            && m.fields == Fields(m.fields.values, JString(stream.topic), JString(p.iso(c.receivedAt)),
                                  JString(p.idText(evidenceId)), d.value.key)
  {
    hide SelectedTime, MeasuredAt, PointDelivery, PointKey, Identity, Fingerprint, States, TypedValue, HoldsValue;
    var at := SelectedTime(p, s, c);
    StatedIsDelivered(p, s, c, stream, streamId, evidenceId, members, metric, unit, value);
    StatedValuesAreTyped(p, members, metric, unit, value);
    StatedMetricsAreTexts(p, members, metric, unit, value);
    SelectedTimeIff(p, s, c, at);
    assert p.fromIso(p.iso(at.at)) == Aware(at.at);
    var m := Mapping(p, PointDelivery(p, s, c, stream, streamId, evidenceId).value).value;
    assert TimedBy(m, at);
  }

  lemma ScalarIsTyped(value: Scalar)
    ensures ScalarType(value) != ""
    ensures var typed := TypedValue(JString(ScalarType(value)), ScalarJson(value));
            typed.Some? && CarriesExactly(typed.value, value)
  {
    TypedValueCarries(ScalarJson(value), value);
  }

  lemma SourcesHaveNames(source: TimestampSource)
    ensures SourceText(source) != ""
  {
  }

  /** The times and identifiers a field's delivery shows are texts that read back. */
  lemma ShownTexts(p: Platform, at: int, receivedAt: int, streamId: nat, evidenceId: nat)
    requires ReadsItsOwnWriting(p)
    ensures p.fromIso(p.iso(at)) == Aware(at) && p.iso(at) != "" && p.iso(receivedAt) != ""
    ensures p.idText(streamId) != "" && p.idText(evidenceId) != ""
  {
  }

  /** The delivery of a scalar field is a valid point unless its stream's tenant is the empty
      text; it is then written at the time the document, the broker or the receipt says,
      tagged with its stream's identity and its path, and carries the extracted value in
      exactly one value field. */
  lemma FieldPointsAreValidIff(p: Platform, skewSeconds: nat, raw: Raw, stream: Stream, path: string, value: Scalar)
    requires ReadsItsOwnWriting(p) && stream.sourceId != "" && stream.topic != "" && path != ""
    ensures var d := FieldDelivery(p, skewSeconds, raw, stream, path, value);
            && (Mapping(p, d).Ok? <==> stream.tenant != Some(""))
            && (Mapping(p, d).Err? ==> Mapping(p, d) == Err(INVALID))
            && (Mapping(p, d).Ok? ==>
                  var m := Mapping(p, d).value;
                  && m.measurement == "telemetry_field"
                  && TimedAsObserved(p, skewSeconds, raw, m) && CarriesExactly(m.fields.values, value)
                  && m.tags == Tags(p.idText(raw.streamId), stream.sourceId, None, Some(path), m.tags.timestampSource,
                                    "unassessed", "r2.field-point.v1", stream.tenant, None)
                  && m.fields == Fields(m.fields.values, JString(stream.topic), JString(p.iso(raw.receivedAt)),
                                        JString(p.idText(raw.evidenceId)), d.key))
  {
    hide RawTime, FieldKey, TypedValue, CarriesExactly, ReadsItsOwnWriting, ScalarType, ScalarJson, ObservedAt;
    var at := RawTime(p, skewSeconds, raw);
    ScalarIsTyped(value);
    ShownTexts(p, at.at, raw.receivedAt, raw.streamId, raw.evidenceId);
    SourcesHaveNames(at.source);
    RawTimeIff(p, skewSeconds, raw, at);
    var mapping := Mapping(p, FieldDelivery(p, skewSeconds, raw, stream, path, value));
    if mapping.Ok? {
      assert TimedBy(mapping.value, at);
    }
  }

  // ---- what any outbox row maps to ----

  /** A text that is not empty. */
  ghost predicate Filled(v: Option<Json>) { exists s :: s != "" && v == Some(JString(s)) }

  /** The point has a scalar value, not infinite nor NaN, and names its type. */
  ghost predicate WellTyped(point: Point) {
    && point.value.Some?
    && var v := point.value.value;
    && (v.JBool? || v.JInt? || (v.JFloat? && v.f.Finite?) || v.JString?)
    && point.valueType == Some(JString(TypeName(v)))
  }

  /** A field point with all its texts filled, a time with an offset, and no tenant or a
      filled one. */
  ghost predicate WholeField(p: Platform, point: Point) {
    && point.contentSchemaVersion == Some(JString("r2.field-point.v1")) && WellTyped(point)
    && Filled(point.streamId) && Filled(point.sourceId) && Filled(point.topic) && Filled(point.observationTimestamp)
    && Filled(point.receivedTimestamp) && Filled(point.timestampSource) && Filled(point.fieldPath)
    && Filled(point.qualityStatus) && Filled(point.provenanceReference)
    && p.fromIso(point.observationTimestamp.value.s).Aware?
    && (point.tenant.None? || point.tenant == Some(JNull) || Filled(point.tenant))
  }

  /** A measurement's point with all its keys, a filled metric, and a time that can be read. */
  ghost predicate WholeMeasurement(p: Platform, point: Point) {
    && point.contentSchemaVersion == Some(JString("r1.normalized-point.v1")) && WellTyped(point)
    && point.streamId.Some? && point.sourceId.Some? && point.topic.Some? && point.observationTimestamp.Some?
    && point.receivedTimestamp.Some? && point.timestampSource.Some? && Filled(point.metric)
    && point.qualityStatus.Some? && point.provenanceReference.Some?
    && !p.fromIso(Shown(p, point.observationTimestamp.value)).NotATime?
  }

  lemma TypedIff(valueType: Json, value: Json)
    ensures TypedValue(valueType, value).Some? <==>
              && (value.JBool? || value.JInt? || (value.JFloat? && value.f.Finite?) || value.JString?)
              && valueType == JString(TypeName(value))
    ensures TypedValue(valueType, value).Some? ==> HoldsValue(TypedValue(valueType, value).value, value)
    ensures TypeName(value) != ""
  {
  }

  lemma FilledIff(v: Option<Json>)
    ensures Filled(v) <==> IsText(v)
  {
  }

  lemma WholeKindsDiffer(p: Platform, point: Point)
    ensures !(WholeField(p, point) && WholeMeasurement(p, point))
    ensures WholeField(p, point) ==> point.contentSchemaVersion == Written(FIELD_POINT_SCHEMA_VERSION)
    ensures WholeMeasurement(p, point) ==> point.contentSchemaVersion == Written(NORMALIZED_POINT_SCHEMA_VERSION)
    ensures FIELD_POINT_SCHEMA_VERSION != NORMALIZED_POINT_SCHEMA_VERSION
    ensures WholeField(p, point) || WholeMeasurement(p, point) ==>
              point.value.Some? && point.observationTimestamp.Some?
  {
    hide TypeName;
    assert "r2.field-point.v1"[1] != "r1.normalized-point.v1"[1];
  }

  lemma FieldMapsIffWhole(p: Platform, d: Delivery)
    ensures FieldMapping(p, d).Ok? <==> WholeField(p, d.point)
    ensures FieldMapping(p, d).Err? ==> FieldMapping(p, d) == Err(INVALID)
    ensures FieldMapping(p, d).Ok? ==>
              var m, point := FieldMapping(p, d).value, d.point;
              && HoldsValue(m.fields.values, point.value.value) && m.measurement == "telemetry_field"
              && point.observationTimestamp.value.JString?
              && p.fromIso(point.observationTimestamp.value.s) == Aware(m.time) && m.fields.deliveryKey == d.key
  {
    hide TypedValue, Filled, HoldsValue, TypeName;
    var point := d.point;
    if point.valueType.Some? && point.value.Some? {
      TypedIff(point.valueType.value, point.value.value);
    }
    FilledIff(point.streamId); FilledIff(point.sourceId); FilledIff(point.topic);
    FilledIff(point.observationTimestamp); FilledIff(point.receivedTimestamp); FilledIff(point.timestampSource);
    FilledIff(point.fieldPath); FilledIff(point.qualityStatus); FilledIff(point.provenanceReference);
    FilledIff(point.tenant);
  }

  lemma MeasurementMapsIffWhole(p: Platform, d: Delivery)
    ensures NormalizedMapping(p, d).Ok? <==> WholeMeasurement(p, d.point)
    ensures NormalizedMapping(p, d).Err? ==> NormalizedMapping(p, d) == Err(INVALID)
    ensures NormalizedMapping(p, d).Ok? ==>
              var m, point := NormalizedMapping(p, d).value, d.point;
              && HoldsValue(m.fields.values, point.value.value) && m.measurement == "telemetry_observation"
              && (var read := p.fromIso(Shown(p, point.observationTimestamp.value));
                  read == Aware(m.time) || read == Naive(m.time))
              && m.fields.deliveryKey == d.key
  {
    hide TypedValue, Filled, HoldsValue, TypeName;
    var point := d.point;
    if point.valueType.Some? && point.value.Some? {
      TypedIff(point.valueType.value, point.value.value);
    }
    FilledIff(point.metric);
  }

  /** Whatever is in the outbox: a row maps exactly when it is a whole field point or a whole
      measurement's; and what it maps to holds the row's value, in the value field of its
      type and in no other, at the row's time. */
  lemma MapsIffWhole(p: Platform, d: Delivery)
    ensures Mapping(p, d).Ok? <==> WholeField(p, d.point) || WholeMeasurement(p, d.point)
    ensures Mapping(p, d).Err? ==> Mapping(p, d) == Err(INVALID)
    ensures Mapping(p, d).Ok? ==>
              var m := Mapping(p, d).value;
              && HoldsValue(m.fields.values, d.point.value.value)
              && (m.measurement == "telemetry_field" <==> WholeField(p, d.point))
              && (m.measurement == "telemetry_observation" <==> WholeMeasurement(p, d.point))
              && (var read := p.fromIso(Shown(p, d.point.observationTimestamp.value));
                  read == Aware(m.time) || read == Naive(m.time))
              && m.fields.deliveryKey == d.key
  {
    hide FieldMapping, NormalizedMapping, WholeField, WholeMeasurement, HoldsValue;
    FieldMapsIffWhole(p, d);
    MeasurementMapsIffWhole(p, d);
    WholeKindsDiffer(p, d.point);
  }
}
