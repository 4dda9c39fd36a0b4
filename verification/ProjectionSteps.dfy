/** What one projection adds to the outbox. */
module ProjectionSteps {
  import opened Std
  import opened Text
  import opened JsonPath
  import opened LeaseTable
  import opened StreamIdentity
  import opened Storage
  import opened ObservationKeys
  import opened FieldValueExtraction
  import opened ExtractorAgreement
  import opened StreamCatalog
  import opened FieldProjection

  /** The scalar fields of a stored observation, if it can be projected. */
  function ValuesOf(p: Platform, raw: Raw): Option<map<string, Scalar>> {
    if raw.contentType != JSON_CONTENT then None
    else
      match ExtractValues(|raw.payload|, p.parse(raw.payload))
      case Err(_) => None
      case Ok(extraction) => Some(extraction.values)
  }

  ghost predicate IsPath(q: string) {
    exists segs :: q == Path(segs)
  }

  lemma ValuesAreOnPaths(p: Platform, raw: Raw, q: string)
    requires ValuesOf(p, raw).Some? && q in ValuesOf(p, raw).value
    ensures IsPath(q)
  {
    var v := p.parse(raw.payload).value;
    ScalarWalkSucceedsIffInBounds(v);
    StopPathsAreTheirOwn(v, []);
    assert q in StopPaths(Stops(v, []), Kept);
    var a :| a in Stops(v, []) && ClassOf(a.value) == Kept && a.path == q;
  }

  lemma PathKeysAgreeIff(p: Platform, k1: string, q1: string, k2: string, q2: string)
    requires CollisionFree(p) && Without(k1, UNIT_SEPARATOR) && Without(k2, UNIT_SEPARATOR) && IsPath(q1) && IsPath(q2)
    ensures FieldKey(p, k1, q1) == FieldKey(p, k2, q2) <==> k1 == k2 && q1 == q2
  {
    hide FieldKey;
    var s1 :| q1 == Path(s1);
    var s2 :| q2 == Path(s2);
    FieldKeysAgreeIff(p, k1, s1, k2, s2);
    if q1 == q2 { PathsAreInjective(s1, s2); }
  }

  ghost function DeliveryAt(p: Platform, skewSeconds: nat, ready: Ready, stream: Stream, q: string): Delivery
    requires q in ready.values
  {
    FieldDelivery(p, skewSeconds, ready.raw, stream, q, ready.values[q])
  }

  /** The rows for the first n paths. */
  ghost function FieldRows(p: Platform, skewSeconds: nat, ready: Ready, stream: Stream, paths: seq<string>,
                           n: nat): (rows: seq<Row<Delivery>>)
    requires n <= |paths| && forall q :: q in paths ==> q in ready.values
    ensures |rows| == n
    ensures forall k :: 0 <= k < n ==>
              rows[k] == NewRow(DeliveryAt(p, skewSeconds, ready, stream, paths[k]), ready.raw.receivedAt)
  {
    if n == 0 then []
    else FieldRows(p, skewSeconds, ready, stream, paths, n - 1)
         + [NewRow(DeliveryAt(p, skewSeconds, ready, stream, paths[n - 1]), ready.raw.receivedAt)]
  }

  ghost predicate DistinctKeys(p: Platform, observationKey: string, paths: seq<string>) {
    forall i, j :: 0 <= i < j < |paths| ==>
      FieldKey(p, observationKey, paths[i]) != FieldKey(p, observationKey, paths[j])
  }

  lemma NotAmong(outbox: seq<Row<Delivery>>, added: seq<Row<Delivery>>, key: string)
    requires !HasDelivery(outbox, key) && forall k :: 0 <= k < |added| ==> added[k].payload.key != key
    ensures !HasDelivery(outbox + added, key)
  {
  }

  /** When none of the keys is taken, every field gets its own new row, in path order. */
  lemma {:induction false} FreshFieldsAreAdded(p: Platform, skewSeconds: nat, outbox: seq<Row<Delivery>>,
                                               ready: Ready, stream: Stream, paths: seq<string>, n: nat)
    requires n <= |paths| && forall q :: q in paths ==> q in ready.values
    requires forall q :: q in paths ==> !HasDelivery(outbox, FieldKey(p, ready.raw.observationKey, q))
    requires DistinctKeys(p, ready.raw.observationKey, paths)
    ensures Persisted(p, skewSeconds, outbox, ready, stream, paths, n)
            == outbox + FieldRows(p, skewSeconds, ready, stream, paths, n)
  {
    hide FieldKey, FieldPoint, RawTime, HasDelivery;
    if n > 0 {
      FreshFieldsAreAdded(p, skewSeconds, outbox, ready, stream, paths, n - 1);
      var added := FieldRows(p, skewSeconds, ready, stream, paths, n - 1);
      var key := FieldKey(p, ready.raw.observationKey, paths[n - 1]);
      assert paths[n - 1] in paths && !HasDelivery(outbox, key);
      assert forall k :: 0 <= k < |added| ==> added[k].payload.key != key;
      NotAmong(outbox, added, key);
    }
  }

  /** When every key is taken, nothing is added: projecting again adds no row. */
  lemma {:induction false} TakenFieldsAddNothing(p: Platform, skewSeconds: nat, outbox: seq<Row<Delivery>>,
                                                 ready: Ready, stream: Stream, paths: seq<string>, n: nat)
    requires n <= |paths| && forall q :: q in paths ==> q in ready.values
    requires forall q :: q in paths ==> HasDelivery(outbox, FieldKey(p, ready.raw.observationKey, q))
    ensures Persisted(p, skewSeconds, outbox, ready, stream, paths, n) == outbox
  {
    hide FieldKey, FieldPoint, RawTime;
    if n > 0 {
      TakenFieldsAddNothing(p, skewSeconds, outbox, ready, stream, paths, n - 1);
      assert paths[n - 1] in paths;
    }
  }

  lemma {:induction false} PersistedHasAll(p: Platform, skewSeconds: nat, outbox: seq<Row<Delivery>>, ready: Ready,
                                           stream: Stream, paths: seq<string>, n: nat)
    requires n <= |paths| && forall q :: q in paths ==> q in ready.values
    ensures forall k :: 0 <= k < n ==>
              HasDelivery(Persisted(p, skewSeconds, outbox, ready, stream, paths, n),
                          FieldKey(p, ready.raw.observationKey, paths[k]))
  {
    hide FieldKey, FieldPoint, RawTime;
    if n > 0 {
      var before := Persisted(p, skewSeconds, outbox, ready, stream, paths, n - 1);
      var after := Persisted(p, skewSeconds, outbox, ready, stream, paths, n);
      PersistedHasAll(p, skewSeconds, outbox, ready, stream, paths, n - 1);
      assert paths[n - 1] in paths;
      forall k | 0 <= k < n ensures HasDelivery(after, FieldKey(p, ready.raw.observationKey, paths[k])) {
        var key := FieldKey(p, ready.raw.observationKey, paths[k]);
        if HasDelivery(before, key) {
          var j :| 0 <= j < |before| && before[j].payload.key == key;
          assert after[j].payload.key == key;
        } else {
          assert after[|before|].payload.key == key;
        }
      }
    }
  }

  /** Writing an observation's fields twice leaves the same outbox as writing them once,
      whatever was there before and whether or not digests collide. */
  lemma PersistingIsIdempotent(p: Platform, skewSeconds: nat, outbox: seq<Row<Delivery>>, ready: Ready, stream: Stream)
    ensures var once := PersistedAll(p, skewSeconds, outbox, ready, stream);
            PersistedAll(p, skewSeconds, once, ready, stream) == once
  {
    hide FieldKey, Persisted;
    var paths := SortedSet(ready.values.Keys);
    var once := PersistedAll(p, skewSeconds, outbox, ready, stream);
    PersistedHasAll(p, skewSeconds, outbox, ready, stream, paths, |paths|);
    forall q | q in paths ensures HasDelivery(once, FieldKey(p, ready.raw.observationKey, q)) {
      var k :| 0 <= k < |paths| && paths[k] == q;
    }
    TakenFieldsAddNothing(p, skewSeconds, once, ready, stream, paths, |paths|);
  }
}
