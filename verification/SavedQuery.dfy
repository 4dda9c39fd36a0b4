/** Saved class queries: the limits of the Flux query, then those of the normalization. */
module SavedQuery {
  import opened Std
  import opened Ordering
  import opened Text

  const MAX_POINTS_PER_SERIES := 5_000
  const MAX_POINTS_PER_RESPONSE := 20_000

  datatype Value = BooleanValue(b: bool) | IntegerValue(i: int) | FloatValue(r: real) | StringValue(s: string)

  datatype SeriesKey = SeriesKey(streamId: nat, fieldPath: string)

  datatype Record = Record(key: SeriesKey, time: int, fieldName: string, value: Value)

  datatype Point = Point(time: int, value: Value)

  datatype SeriesItem = SeriesItem(key: SeriesKey, alias: Option<string>)

  datatype SeriesResult = SeriesResult(key: SeriesKey, alias: Option<string>, points: seq<Point>)

  predicate IsValueField(name: string) {
    name == "value_boolean" || name == "value_integer" || name == "value_float" || name == "value_string"
  }

  /** The point a record stands for, if its field name and its value's type agree. */
  function PointOf(r: Record): (p: Option<Point>)
    ensures p.Some? ==> p.value == Point(r.time, r.value) && IsValueField(r.fieldName)
  {
    match r.value
    case BooleanValue(_) => if r.fieldName == "value_boolean" then Some(Point(r.time, r.value)) else None
    case IntegerValue(_) => if r.fieldName == "value_integer" then Some(Point(r.time, r.value)) else None
    case FloatValue(_) => if r.fieldName == "value_float" then Some(Point(r.time, r.value)) else None
    case StringValue(_) => if r.fieldName == "value_string" then Some(Point(r.time, r.value)) else None
  }

  // ---- the Flux query ----

  /** range, then filter by series and by value field. */
  function Stored(bucket: seq<Record>, key: SeriesKey, start: int, stop: int): (s: seq<Record>)
    ensures forall r :: r in s ==> r in bucket && r.key == key && start <= r.time < stop
  {
    if bucket == [] then []
    else
      (if bucket[0].key == key && start <= bucket[0].time < stop && IsValueField(bucket[0].fieldName) then [bucket[0]]
       else [])
      + Stored(bucket[1..], key, start, stop)
  }

  /** sort(_time, _field) */
  function ByTimeAndField(): (Record, Record) -> bool {
    (a: Record, b: Record) => a.time < b.time || (a.time == b.time && Le(a.fieldName, b.fieldName))
  }

  /** sort(_time, stream_id, field_path, _field); `idText` is how a stream identifier is written. */
  function ByTimeAndSeries(idText: nat -> string): (Record, Record) -> bool {
    (a: Record, b: Record) =>
      a.time < b.time || (a.time == b.time
                          && LexLe([idText(a.key.streamId), a.key.fieldPath, a.fieldName],
                                   [idText(b.key.streamId), b.key.fieldPath, b.fieldName]))
  }

  predicate LexLe(a: seq<string>, b: seq<string>) {
    a == [] || (b != [] && (if a[0] == b[0] then LexLe(a[1..], b[1..]) else Le(a[0], b[0])))
  }

  function Concat<T>(groups: seq<seq<T>>): seq<T> {
    if groups == [] then [] else groups[0] + Concat(groups[1..])
  }

  ghost predicate DistinctSeries(keys: seq<SeriesKey>) {
    forall i, j :: 0 <= i < j < |keys| ==> keys[i] != keys[j]
  }

  /** `keys` are the requested series, each once. */
  ghost predicate AreSeriesOf(keys: seq<SeriesKey>, requested: seq<SeriesItem>) {
    && DistinctSeries(keys)
    && (forall k :: k in keys <==> exists i :: 0 <= i < |requested| && requested[i].key == k)
  }

  ghost predicate AreGroups(bucket: seq<Record>, keys: seq<SeriesKey>, start: int, stop: int, perSeries: nat,
                            groups: seq<seq<Record>>) {
    && |groups| == |keys|
    && forall i :: 0 <= i < |keys| ==>
      IsSmallest(ByTimeAndField(), Stored(bucket, keys[i], start, stop), perSeries, groups[i])
  }

  /** A possible answer of the query: per series sorted and limited, then merged, sorted and
      limited again. Ties may fall either way. */
  ghost predicate IsAnswer(bucket: seq<Record>, keys: seq<SeriesKey>, start: int, stop: int, perSeries: nat,
                           total: nat, idText: nat -> string, groups: seq<seq<Record>>, records: seq<Record>) {
    && AreGroups(bucket, keys, start, stop, perSeries, groups)
    && IsSmallest(ByTimeAndSeries(idText), Concat(groups), total, records)
  }

  lemma {:induction false} LexTotal(a: seq<string>, b: seq<string>)
    ensures LexLe(a, b) || LexLe(b, a)
  {
    if a != [] && b != [] {
      if a[0] == b[0] { LexTotal(a[1..], b[1..]); } else { LeTotal(a[0], b[0]); }
    }
  }

  lemma {:induction false} LexTransitive(a: seq<string>, b: seq<string>, c: seq<string>)
    requires LexLe(a, b) && LexLe(b, c)
    ensures LexLe(a, c)
  {
    if a != [] {
      if a[0] == b[0] == c[0] {
        LexTransitive(a[1..], b[1..], c[1..]);
      } else if a[0] != b[0] && b[0] != c[0] {
        LeTransitive(a[0], b[0], c[0]);
        if a[0] == c[0] { LeAntisymmetric(a[0], b[0]); }
      }
    }
  }

  lemma QueryOrdersAreTotal(idText: nat -> string)
    ensures TotalPreorder(ByTimeAndField())
    ensures TotalPreorder(ByTimeAndSeries(idText))
  {
    var le := ByTimeAndField();
    forall x, y ensures le(x, y) || le(y, x) { LeTotal(x.fieldName, y.fieldName); }
    forall x, y, z | le(x, y) && le(y, z) ensures le(x, z) {
      if x.time == y.time == z.time { LeTransitive(x.fieldName, y.fieldName, z.fieldName); }
    }
    var series := ByTimeAndSeries(idText);
    forall x, y ensures series(x, y) || series(y, x) {
      LexTotal([idText(x.key.streamId), x.key.fieldPath, x.fieldName],
               [idText(y.key.streamId), y.key.fieldPath, y.fieldName]);
    }
    forall x, y, z | series(x, y) && series(y, z) ensures series(x, z) {
      if x.time == y.time == z.time {
        LexTransitive([idText(x.key.streamId), x.key.fieldPath, x.fieldName],
                      [idText(y.key.streamId), y.key.fieldPath, y.fieldName],
                      [idText(z.key.streamId), z.key.fieldPath, z.fieldName]);
      }
    }
  }

  function Groups(bucket: seq<Record>, keys: seq<SeriesKey>, start: int, stop: int, perSeries: nat): seq<seq<Record>> {
    seq(|keys|, i requires 0 <= i < |keys| =>
        Take(Sort(ByTimeAndField(), Stored(bucket, keys[i], start, stop)), perSeries))
  }

  /** The query always has an answer. */
  lemma AnswerExists(bucket: seq<Record>, keys: seq<SeriesKey>, start: int, stop: int, perSeries: nat, total: nat,
                     idText: nat -> string)
    ensures var groups := Groups(bucket, keys, start, stop, perSeries);
            IsAnswer(bucket, keys, start, stop, perSeries, total, idText, groups,
                     Take(Sort(ByTimeAndSeries(idText), Concat(groups)), total))
  {
    QueryOrdersAreTotal(idText);
    var groups := Groups(bucket, keys, start, stop, perSeries);
    forall i | 0 <= i < |keys|
      ensures IsSmallest(ByTimeAndField(), Stored(bucket, keys[i], start, stop), perSeries, groups[i])
    {
      SortThenTake(ByTimeAndField(), Stored(bucket, keys[i], start, stop), perSeries);
    }
    SortThenTake(ByTimeAndSeries(idText), Concat(groups), total);
  }

  // ---- normalization ----

  /** The points of one series among the records, in record order. */
  function PointsFor(records: seq<Record>, key: SeriesKey): seq<Point> {
    if records == [] then []
    else
      var n := |records| - 1;
      PointsFor(records[..n], key) +
      if records[n].key == key && PointOf(records[n]).Some? then [PointOf(records[n]).value] else []
  }

  function TypeOrder(v: Value): nat {
    match v case BooleanValue(_) => 0 case IntegerValue(_) => 1 case FloatValue(_) => 2 case StringValue(_) => 3
  }

  /** _point_key; `dumps` is how a value is written as JSON. */
  function ByPointKey(dumps: Value -> string): (Point, Point) -> bool {
    (a: Point, b: Point) =>
      a.time < b.time || (a.time == b.time && (TypeOrder(a.value) < TypeOrder(b.value) ||
        (TypeOrder(a.value) == TypeOrder(b.value) && Le(dumps(a.value), dumps(b.value)))))
  }

  lemma PointKeysAreTotal(dumps: Value -> string)
    ensures TotalPreorder(ByPointKey(dumps))
  {
    var le := ByPointKey(dumps);
    forall x, y ensures le(x, y) || le(y, x) { LeTotal(dumps(x.value), dumps(y.value)); }
    forall x, y, z | le(x, y) && le(y, z) ensures le(x, z) {
      if Le(dumps(x.value), dumps(y.value)) && Le(dumps(y.value), dumps(z.value)) {
        LeTransitive(dumps(x.value), dumps(y.value), dumps(z.value));
      }
    }
  }

  function Sorted(dumps: Value -> string, records: seq<Record>, key: SeriesKey): seq<Point> {
    Sort(ByPointKey(dumps), PointsFor(records, key))
  }

  function Lengths(series: seq<SeriesResult>): nat {
    if series == [] then 0 else Lengths(series[..|series| - 1]) + |series[|series| - 1].points|
  }

  /** What one requested series is given when `used` points are already in the response. */
  function Share(dumps: Value -> string, records: seq<Record>, item: SeriesItem, used: nat): SeriesResult {
    var points := Take(Sorted(dumps, records, item.key), MAX_POINTS_PER_SERIES);
    SeriesResult(item.key, item.alias,
                 Take(points, if used < MAX_POINTS_PER_RESPONSE then MAX_POINTS_PER_RESPONSE - used else 0))
  }

  /** The first n requested series, each given its share of what the ones before it left. */
  function Shares(dumps: Value -> string, requested: seq<SeriesItem>, records: seq<Record>,
                  n: nat): (r: seq<SeriesResult>)
    requires n <= |requested|
    ensures |r| == n
    decreases n, 0
  {
    if n == 0 then [] else Shares(dumps, requested, records, n - 1) + [ShareOf(dumps, requested, records, n - 1)]
  }

  function ShareOf(dumps: Value -> string, requested: seq<SeriesItem>, records: seq<Record>, i: nat): SeriesResult
    requires i < |requested|
    decreases i, 1
  {
    Share(dumps, records, requested[i], Lengths(Shares(dumps, requested, records, i)))
  }

  /** The series was given fewer points than its records hold. */
  predicate Shortened(dumps: Value -> string, requested: seq<SeriesItem>, records: seq<Record>, i: nat)
    requires i < |requested|
  {
    |ShareOf(dumps, requested, records, i).points| < |PointsFor(records, requested[i].key)|
  }

  /** One of the first n series was shortened. */
  predicate AnyShortened(dumps: Value -> string, requested: seq<SeriesItem>, records: seq<Record>, n: nat)
    requires n <= |requested|
  {
    n > 0 && (AnyShortened(dumps, requested, records, n - 1) || Shortened(dumps, requested, records, n - 1))
  }

  function RequestedKeys(requested: seq<SeriesItem>): set<SeriesKey> {
    set item | item in requested :: item.key
  }

  method GroupPoints(requestedKeys: set<SeriesKey>, records: seq<Record>)
    returns (pointsByKey: map<SeriesKey, seq<Point>>)
    ensures forall k :: k in requestedKeys ==> PointsFor(records, k) == if k in pointsByKey then pointsByKey[k] else []
  {
    pointsByKey := map[];
    for n := 0 to |records|
      invariant forall k :: k in requestedKeys ==>
                  PointsFor(records[..n], k) == if k in pointsByKey then pointsByKey[k] else []
    {
      var record := records[n];
      assert records[..n + 1][..n] == records[..n];
      if record.key in requestedKeys {
        var point := PointOf(record);
        if point.Some? {
          pointsByKey := pointsByKey[record.key := (if record.key in pointsByKey then pointsByKey[record.key] else [])
                                     + [point.value]];
        }
      }
    }
    assert records[..|records|] == records;
  }

  method Cut(points: seq<Point>, total: nat) returns (kept: seq<Point>, shortened: bool)
    requires total <= MAX_POINTS_PER_RESPONSE
    ensures |kept| + total <= MAX_POINTS_PER_RESPONSE
    ensures kept == Take(Take(points, MAX_POINTS_PER_SERIES), if total < MAX_POINTS_PER_RESPONSE
                         then MAX_POINTS_PER_RESPONSE - total else 0)
    ensures shortened <==> |kept| < |points|
  {
    kept, shortened := points, false;
    if |kept| > MAX_POINTS_PER_SERIES {
      kept := kept[..MAX_POINTS_PER_SERIES];
      shortened := true;
    }
    var remaining := MAX_POINTS_PER_RESPONSE - total;
    if |kept| > remaining {
      kept := kept[..if remaining > 0 then remaining else 0];
      shortened := true;
    }
  }

  method Normalize(dumps: Value -> string, requested: seq<SeriesItem>, records: seq<Record>)
    returns (series: seq<SeriesResult>, truncated: bool)
    ensures series == Shares(dumps, requested, records, |requested|)
    ensures truncated <==> AnyShortened(dumps, requested, records, |requested|)
  {
    var pointsByKey := GroupPoints(RequestedKeys(requested), records);
    var total := 0;
    series, truncated := [], false;
    for i := 0 to |requested|
      invariant series == Shares(dumps, requested, records, i)
      invariant total == Lengths(series) <= MAX_POINTS_PER_RESPONSE
      invariant truncated <==> AnyShortened(dumps, requested, records, i)
    {
      var item := requested[i];
      var found := if item.key in pointsByKey then pointsByKey[item.key] else [];
      assert item.key in RequestedKeys(requested) && found == PointsFor(records, item.key);
      var kept, shortened := Cut(Sort(ByPointKey(dumps), found), total);
      NextShare(dumps, requested, records, i, total, kept, shortened);
      total := total + |kept|;
      LengthsOneMore(series, SeriesResult(item.key, item.alias, kept));
      series := series + [SeriesResult(item.key, item.alias, kept)];
      truncated := truncated || shortened;
    }
  }

  lemma NextShare(dumps: Value -> string, requested: seq<SeriesItem>, records: seq<Record>, i: nat, total: nat,
                  kept: seq<Point>, shortened: bool)
    requires i < |requested| && total == Lengths(Shares(dumps, requested, records, i))
    requires kept == Take(Take(Sort(ByPointKey(dumps), PointsFor(records, requested[i].key)), MAX_POINTS_PER_SERIES),
                          if total < MAX_POINTS_PER_RESPONSE then MAX_POINTS_PER_RESPONSE - total else 0)
    requires shortened <==> |kept| < |PointsFor(records, requested[i].key)|
    ensures ShareOf(dumps, requested, records, i) == SeriesResult(requested[i].key, requested[i].alias, kept)
    ensures AnyShortened(dumps, requested, records, i + 1) <==> AnyShortened(dumps, requested, records, i) || shortened
    ensures Shares(dumps, requested, records, i + 1)
            == Shares(dumps, requested, records, i) + [SeriesResult(requested[i].key, requested[i].alias, kept)]
  {
  }

  lemma LengthsOneMore(series: seq<SeriesResult>, last: SeriesResult)
    ensures Lengths(series + [last]) == Lengths(series) + |last.points|
  {
  }
}
