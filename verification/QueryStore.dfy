/** The records a store holds for the points written to it, as the saved query reads them. */
module QueryStore {
  import opened Std
  import opened JsonValues
  import opened SavedQuery
  import opened SavedQueryTheorems
  import PointMapping

  /** The record of the typed value. */
  function ValueRecords(key: SeriesKey, time: int, v: PointMapping.Values): seq<Record> {
    (if v.boolean.Some? then [Record(key, time, "value_boolean", BooleanValue(v.boolean.value))] else [])
    + (if v.integer.Some? then [Record(key, time, "value_integer", IntegerValue(v.integer.value))] else [])
    + (if v.float.Some? then [Record(key, time, "value_float", FloatValue(v.float.value))] else [])
    + (if v.text.Some? then [Record(key, time, "value_string", StringValue(v.text.value))] else [])
  }

  /** The records of the fields written beside it; `text` shows a value as text. */
  function OtherRecords(key: SeriesKey, time: int, text: Json -> string, f: PointMapping.Fields): seq<Record> {
    [Record(key, time, "topic", StringValue(text(f.topic))),
     Record(key, time, "received_timestamp", StringValue(text(f.receivedTimestamp))),
     Record(key, time, "provenance_reference", StringValue(text(f.provenanceReference))),
     Record(key, time, "delivery_key", StringValue(f.deliveryKey))]
  }

  /** The series a point belongs to; `idOf` reads a stream identifier. */
  function KeyOf(idOf: string -> nat, m: PointMapping.MappedPoint): SeriesKey {
    SeriesKey(idOf(m.tags.streamId), if m.tags.fieldPath.Some? then m.tags.fieldPath.value else "")
  }

  /** All the records of one point. */
  function RecordsOf(idOf: string -> nat, text: Json -> string, m: PointMapping.MappedPoint): seq<Record> {
    ValueRecords(KeyOf(idOf, m), m.time, m.fields.values) + OtherRecords(KeyOf(idOf, m), m.time, text, m.fields)
  }

  /** Every record comes from some written point. */
  ghost predicate HoldsPoints(bucket: seq<Record>, idOf: string -> nat, text: Json -> string,
                              sink: set<PointMapping.MappedPoint>) {
    forall r :: r in bucket ==> exists m :: m in sink && r in RecordsOf(idOf, text, m)
  }

  lemma ValuesParse(key: SeriesKey, time: int, v: PointMapping.Values, r: Record)
    requires r in ValueRecords(key, time, v)
    ensures r.key == key && PointOf(r) == Some(Point(time, r.value))
  {
  }

  lemma OthersAreNoValues(key: SeriesKey, time: int, text: Json -> string, f: PointMapping.Fields, r: Record)
    requires r in OtherRecords(key, time, text, f)
    ensures !IsValueField(r.fieldName)
  {
    assert r.fieldName[0] != 'v';
  }

  lemma ValueFieldsParse(idOf: string -> nat, text: Json -> string, m: PointMapping.MappedPoint, r: Record)
    requires r in RecordsOf(idOf, text, m) && IsValueField(r.fieldName)
    ensures PointOf(r).Some?
  {
    hide PointOf, IsValueField, ValueRecords, OtherRecords;
    var key := KeyOf(idOf, m);
    if r in ValueRecords(key, m.time, m.fields.values) {
      ValuesParse(key, m.time, m.fields.values, r);
    } else {
      OthersAreNoValues(key, m.time, text, m.fields, r);
    }
  }

  lemma {:induction false} StoredAreValueFields(bucket: seq<Record>, key: SeriesKey, start: int, stop: int)
    ensures forall r :: r in Stored(bucket, key, start, stop) ==> IsValueField(r.fieldName)
  {
    if bucket != [] {
      StoredAreValueFields(bucket[1..], key, start, stop);
    }
  }

  /** What the query reads of a store that holds written points always parses. */
  lemma WrittenStoresParse(bucket: seq<Record>, idOf: string -> nat, text: Json -> string,
                           sink: set<PointMapping.MappedPoint>, requested: seq<SeriesItem>, start: int, stop: int)
    requires HoldsPoints(bucket, idOf, text, sink)
    ensures WindowParses(bucket, requested, start, stop)
  {
    hide RecordsOf, IsValueField, Stored;
    forall i | 0 <= i < |requested| ensures AllParse(Stored(bucket, requested[i].key, start, stop)) {
      StoredAreValueFields(bucket, requested[i].key, start, stop);
      forall r | r in Stored(bucket, requested[i].key, start, stop) ensures PointOf(r).Some? {
        var m :| m in sink && r in RecordsOf(idOf, text, m);
        ValueFieldsParse(idOf, text, m, r);
      }
    }
  }

  /** So on every store this system fills the truncation flag is right in both directions. */
  lemma FlagIsRightOnWrittenStores(bucket: seq<Record>, idOf: string -> nat, text: Json -> string,
                                   sink: set<PointMapping.MappedPoint>, keys: seq<SeriesKey>, start: int, stop: int,
                                   idText: nat -> string, groups: seq<seq<Record>>, records: seq<Record>,
                                   dumps: Value -> string, requested: seq<SeriesItem>)
    requires HoldsPoints(bucket, idOf, text, sink) && AreSeriesOf(keys, requested)
    requires IsAnswer(bucket, keys, start, stop, MAX_POINTS_PER_SERIES + 1, MAX_POINTS_PER_RESPONSE + 1, idText,
                      groups, records)
    ensures AnyShortened(dumps, requested, records, |requested|) <==>
              exists i: nat :: i < |requested| &&
                |ShareOf(dumps, requested, records, i).points| < |StoredPoints(bucket, requested[i].key, start, stop)|
    ensures !AnyShortened(dumps, requested, records, |requested|) ==>
              forall i: nat :: i < |requested| ==>
                multiset(ShareOf(dumps, requested, records, i).points)
                    == multiset(StoredPoints(bucket, requested[i].key, start, stop))
  {
    hide ShareOf, StoredPoints, AnyShortened, IsAnswer, AreSeriesOf, WindowParses, HoldsPoints;
    WrittenStoresParse(bucket, idOf, text, sink, requested, start, stop);
    TruncatedIffPointsDropped(bucket, keys, start, stop, idText, groups, records, dumps, requested);
  }
}
