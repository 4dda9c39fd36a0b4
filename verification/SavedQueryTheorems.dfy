/** The truncation flag of a saved query is right, and truncation cuts off the end. */
module SavedQueryTheorems {
  import opened Std
  import opened Ordering
  import opened Text
  import opened SavedQuery

  // ---- points as images of records ----

  lemma {:induction false} PointsAppend(a: seq<Record>, b: seq<Record>, key: SeriesKey)
    ensures PointsFor(a + b, key) == PointsFor(a, key) + PointsFor(b, key)
    decreases |b|
  {
    if b == [] {
      assert a + b == a;
    } else {
      var n := |b| - 1;
      assert (a + b)[..|a + b| - 1] == a + b[..n];
      PointsAppend(a, b[..n], key);
    }
  }

  lemma PointsWithout(s: seq<Record>, i: nat, key: SeriesKey)
    requires i < |s|
    ensures multiset(PointsFor(s, key))
            == multiset(PointsFor(s[..i] + s[i + 1..], key)) + multiset(PointsFor([s[i]], key))
  {
    hide PointsFor;
    var front, x, back := s[..i], [s[i]], s[i + 1..];
    assert s == front + (x + back);
    PointsAppend(front, x + back, key);
    PointsAppend(x, back, key);
    PointsAppend(front, back, key);
  }

  lemma {:induction false} PointsPermute(a: seq<Record>, b: seq<Record>, key: SeriesKey)
    requires multiset(a) == multiset(b)
    ensures multiset(PointsFor(a, key)) == multiset(PointsFor(b, key))
    decreases |a|
  {
    if a == [] {
      assert |multiset(b)| == 0;
    } else {
      var n := |a| - 1;
      var x := a[n];
      assert x in multiset(b);
      var i :| 0 <= i < |b| && b[i] == x;
      var front, back := b[..i], b[i + 1..];
      WithoutOne(a, n);
      WithoutOne(b, i);
      assert a[..n] + a[n + 1..] == a[..n];
      PointsPermute(a[..n], front + back, key);
      PointsWithout(a, n, key);
      PointsWithout(b, i, key);
    }
  }

  lemma PointsSplit(s: seq<Record>, r: seq<Record>, rest: seq<Record>, key: SeriesKey)
    requires multiset(s) == multiset(r) + multiset(rest)
    ensures multiset(PointsFor(s, key)) == multiset(PointsFor(r, key)) + multiset(PointsFor(rest, key))
  {
    PointsPermute(s, r + rest, key);
    PointsAppend(r, rest, key);
  }

  lemma {:induction false} PointsComeFromRecords(s: seq<Record>, key: SeriesKey, p: Point) returns (r: Record)
    requires p in PointsFor(s, key)
    ensures r in s && r.key == key && PointOf(r) == Some(p) && r.time == p.time
    decreases |s|
  {
    var n := |s| - 1;
    if p in PointsFor(s[..n], key) {
      r := PointsComeFromRecords(s[..n], key, p);
    } else {
      r := s[n];
    }
  }

  ghost predicate AllParse(s: seq<Record>) { forall r :: r in s ==> PointOf(r).Some? }

  /** Every value stored in the window for a requested series has its field's type. What the
      query does not read (other series, other fields, other times) is not restricted. */
  ghost predicate WindowParses(bucket: seq<Record>, requested: seq<SeriesItem>, start: int, stop: int) {
    forall i :: 0 <= i < |requested| ==> AllParse(Stored(bucket, requested[i].key, start, stop))
  }

  lemma {:induction false} OnePointEach(s: seq<Record>, key: SeriesKey)
    requires AllParse(s) && forall r :: r in s ==> r.key == key
    ensures |PointsFor(s, key)| == |s|
    decreases |s|
  {
    if s != [] {
      var n := |s| - 1;
      assert s[n] in s && forall r :: r in s[..n] ==> r in s;
      OnePointEach(s[..n], key);
    }
  }

  lemma {:induction false} NoPoints(s: seq<Record>, key: SeriesKey)
    requires forall r :: r in s ==> r.key != key
    ensures PointsFor(s, key) == []
    decreases |s|
  {
    if s != [] {
      var n := |s| - 1;
      assert s[n] in s && forall r :: r in s[..n] ==> r in s;
      NoPoints(s[..n], key);
    }
  }

  // ---- what a limit leaves out ----

  lemma {:induction false} Listing<T>(m: multiset<T>) returns (s: seq<T>)
    ensures multiset(s) == m
    decreases |m|
  {
    if m == multiset{} {
      s := [];
    } else {
      var x :| x in m;
      s := Listing(m - multiset{x});
      s := s + [x];
    }
  }

  lemma LeftOut<T(!new)>(le: (T, T) -> bool, s: seq<T>, n: nat, r: seq<T>) returns (rest: seq<T>)
    requires IsSmallest(le, s, n, r)
    ensures multiset(s) == multiset(r) + multiset(rest)
    ensures forall x, y :: x in r && y in rest ==> le(x, y)
    ensures |rest| == |s| - |r|
  {
    rest := Listing(multiset(s) - multiset(r));
    assert |multiset(s)| == |multiset(r)| + |multiset(rest)|;
    forall x, y | x in r && y in rest ensures le(x, y) {
      assert y in multiset(rest);
    }
  }

  // ---- merging the groups ----

  ghost predicate GroupedBy(groups: seq<seq<Record>>, keys: seq<SeriesKey>) {
    |groups| == |keys| && forall i :: 0 <= i < |groups| ==> forall r :: r in groups[i] ==> r.key == keys[i]
  }

  lemma {:induction false} InConcat(groups: seq<seq<Record>>, keys: seq<SeriesKey>, r: Record) returns (g: nat)
    requires GroupedBy(groups, keys) && r in Concat(groups)
    ensures g < |groups| && r in groups[g] && r.key == keys[g]
  {
    if r in groups[0] {
      g := 0;
    } else {
      g := InConcat(groups[1..], keys[1..], r);
      g := g + 1;
    }
  }

  lemma {:induction false} PointsOfMerge(groups: seq<seq<Record>>, keys: seq<SeriesKey>, g: nat)
    requires GroupedBy(groups, keys) && DistinctSeries(keys) && g < |groups|
    ensures PointsFor(Concat(groups), keys[g]) == PointsFor(groups[g], keys[g])
  {
    var rest, others := groups[1..], keys[1..];
    assert GroupedBy(rest, others);
    assert DistinctSeries(others) by {
      forall i, j | 0 <= i < j < |others| ensures others[i] != others[j] { assert keys[i + 1] != keys[j + 1]; }
    }
    PointsAppend(groups[0], Concat(rest), keys[g]);
    if g == 0 {
      forall r: Record | r in Concat(rest) ensures r.key != keys[0] {
        var h := InConcat(rest, others, r);
        assert keys[h + 1] != keys[0];
      }
      NoPoints(Concat(rest), keys[0]);
    } else {
      PointsOfMerge(rest, others, g - 1);
      NoPoints(groups[0], keys[g]);
    }
  }

  lemma GroupsAreGrouped(bucket: seq<Record>, keys: seq<SeriesKey>, start: int, stop: int, perSeries: nat,
                         groups: seq<seq<Record>>)
    requires AreGroups(bucket, keys, start, stop, perSeries, groups)
    ensures GroupedBy(groups, keys)
    ensures forall i, r :: 0 <= i < |groups| && r in groups[i] ==> r in Stored(bucket, keys[i], start, stop)
  {
    forall i, r | 0 <= i < |groups| && r in groups[i]
      ensures r.key == keys[i] && r in Stored(bucket, keys[i], start, stop)
    {
      assert IsSmallest(ByTimeAndField(), Stored(bucket, keys[i], start, stop), perSeries, groups[i]);
      assert r in multiset(groups[i]);
    }
  }

  lemma SeriesIndex(keys: seq<SeriesKey>, requested: seq<SeriesItem>, i: nat) returns (g: nat)
    requires AreSeriesOf(keys, requested) && i < |requested|
    ensures g < |keys| && keys[g] == requested[i].key
  {
    assert requested[i].key in keys;
    g :| 0 <= g < |keys| && keys[g] == requested[i].key;
  }

  // ---- dropped points are never earlier ----

  /** Everything stored for a series is either among the points, or dropped and not earlier
      than any of them. */
  ghost predicate CutsTheEnd(stored: seq<Point>, points: seq<Point>, dropped: seq<Point>) {
    && multiset(stored) == multiset(points) + multiset(dropped)
    && forall p, q :: p in points && q in dropped ==> p.time <= q.time
  }

  lemma CutsCompose(a: seq<Point>, b: seq<Point>, c: seq<Point>, d1: seq<Point>, d2: seq<Point>)
    requires CutsTheEnd(a, b, d1) && CutsTheEnd(b, c, d2)
    ensures CutsTheEnd(a, c, d1 + d2)
  {
    forall p | p in c ensures p in b { assert p in multiset(b); }
  }

  lemma LimitCutsTheEnd(le: (Record, Record) -> bool, s: seq<Record>, n: nat, r: seq<Record>, key: SeriesKey)
    returns (dropped: seq<Point>)
    requires IsSmallest(le, s, n, r)
    requires forall x, y :: le(x, y) ==> x.time <= y.time
    ensures CutsTheEnd(PointsFor(s, key), PointsFor(r, key), dropped)
    ensures n >= |s| ==> dropped == []
  {
    var rest := LeftOut(le, s, n, r);
    PointsSplit(s, r, rest, key);
    dropped := PointsFor(rest, key);
    forall p, q | p in PointsFor(r, key) && q in dropped ensures p.time <= q.time {
      var x := PointsComeFromRecords(r, key, p);
      var y := PointsComeFromRecords(rest, key, q);
      assert le(x, y);
    }
  }

  lemma ShareCutsTheEnd(dumps: Value -> string, records: seq<Record>, item: SeriesItem, used: nat)
    returns (dropped: seq<Point>)
    ensures CutsTheEnd(PointsFor(records, item.key), Share(dumps, records, item, used).points, dropped)
  {
    hide PointsFor, Sort;
    var all, points := Sorted(dumps, records, item.key), Share(dumps, records, item, used).points;
    PointKeysAreTotal(dumps);
    SortSorted(ByPointKey(dumps), PointsFor(records, item.key));
    var n := |points|;
    assert points == all[..n];
    dropped := all[n..];
    assert all == points + dropped;
    PrefixPrecedes(ByPointKey(dumps), all, n);
    forall p, q | p in points && q in dropped ensures p.time <= q.time {
      assert ByPointKey(dumps)(p, q);
    }
  }

  /** Across all three limits: per series in the query, globally in the query, and again
      per series in request order, what a series loses is never earlier than what it keeps. */
  lemma DroppedPointsAreLater(bucket: seq<Record>, keys: seq<SeriesKey>, start: int, stop: int, perSeries: nat,
                              total: nat, idText: nat -> string, groups: seq<seq<Record>>, records: seq<Record>,
                              dumps: Value -> string, requested: seq<SeriesItem>, i: nat)
    returns (dropped: seq<Point>)
    requires IsAnswer(bucket, keys, start, stop, perSeries, total, idText, groups, records)
    requires AreSeriesOf(keys, requested) && i < |requested|
    ensures var key := requested[i].key;
            CutsTheEnd(PointsFor(Stored(bucket, key, start, stop), key), ShareOf(dumps, requested, records, i).points,
                       dropped)
  {
    var key := requested[i].key;
    var g := SeriesIndex(keys, requested, i);
    GroupsAreGrouped(bucket, keys, start, stop, perSeries, groups);
    PointsOfMerge(groups, keys, g);
    var d1 := LimitCutsTheEnd(ByTimeAndField(), Stored(bucket, key, start, stop), perSeries, groups[g], key);
    var d2 := LimitCutsTheEnd(ByTimeAndSeries(idText), Concat(groups), total, records, key);
    var d3 := ShareCutsTheEnd(dumps, records, requested[i], Lengths(Shares(dumps, requested, records, i)));
    CutsCompose(PointsFor(Stored(bucket, key, start, stop), key), PointsFor(groups[g], key), PointsFor(records, key),
                d1, d2);
    CutsCompose(PointsFor(Stored(bucket, key, start, stop), key), PointsFor(records, key),
                ShareOf(dumps, requested, records, i).points, d1 + d2, d3);
    dropped := d1 + d2 + d3;
  }

  // ---- the flag ----

  function Found(requested: seq<SeriesItem>, records: seq<Record>, n: nat): nat
    requires n <= |requested|
  {
    if n == 0 then 0 else Found(requested, records, n - 1) + |PointsFor(records, requested[n - 1].key)|
  }

  /** One of the first n requested series has this key. */
  predicate Asked(requested: seq<SeriesItem>, n: nat, key: SeriesKey)
    requires n <= |requested|
  {
    n > 0 && (requested[n - 1].key == key || Asked(requested, n - 1, key))
  }

  lemma {:induction false} AskedAt(requested: seq<SeriesItem>, n: nat, i: nat)
    requires i < n <= |requested|
    ensures Asked(requested, n, requested[i].key)
  {
    if i < n - 1 {
      AskedAt(requested, n - 1, i);
    }
  }

  lemma OneRecord(r: Record, key: SeriesKey)
    requires PointOf(r).Some?
    ensures |PointsFor([r], key)| == if r.key == key then 1 else 0
  {
    assert [r][..0] == [];
  }

  lemma {:induction false} OneMoreFound(requested: seq<SeriesItem>, records: seq<Record>, r: Record, n: nat)
    requires n <= |requested| && PointOf(r).Some?
    ensures Found(requested, records + [r], n) >=
              Found(requested, records, n) + if Asked(requested, n, r.key) then 1 else 0
  {
    hide PointsFor;
    if n > 0 {
      var key := requested[n - 1].key;
      OneMoreFound(requested, records, r, n - 1);
      PointsAppend(records, [r], key);
      OneRecord(r, key);
      assert Found(requested, records + [r], n)
             == Found(requested, records + [r], n - 1) + |PointsFor(records + [r], key)|;
    }
  }

  /** Each returned record is counted for at least one requested series. */
  lemma {:induction false} AllRecordsFound(requested: seq<SeriesItem>, records: seq<Record>)
    requires AllParse(records)
    requires forall r :: r in records ==> exists i :: 0 <= i < |requested| && requested[i].key == r.key
    ensures Found(requested, records, |requested|) >= |records|
    decreases |records|
  {
    if records != [] {
      var n := |records| - 1;
      assert records[n] in records && forall r :: r in records[..n] ==> r in records;
      AllRecordsFound(requested, records[..n]);
      var i: nat :| i < |requested| && requested[i].key == records[n].key;
      AskedAt(requested, |requested|, i);
      OneMoreFound(requested, records[..n], records[n], |requested|);
      assert records == records[..n] + [records[n]];
    }
  }

  lemma ShareOfIsBounded(dumps: Value -> string, requested: seq<SeriesItem>, records: seq<Record>, i: nat)
    requires i < |requested| && Lengths(Shares(dumps, requested, records, i)) <= MAX_POINTS_PER_RESPONSE
    ensures var share := ShareOf(dumps, requested, records, i);
            && share.key == requested[i].key && share.alias == requested[i].alias
            && |share.points| <= MAX_POINTS_PER_SERIES && |share.points| <= |PointsFor(records, requested[i].key)|
            && Lengths(Shares(dumps, requested, records, i)) + |share.points| <= MAX_POINTS_PER_RESPONSE
  {
  }

  lemma NoLengths()
    ensures Lengths([]) == 0
  {
  }

  /** The response respects both bounds, and its series stand in request order, each under the
      alias requested. */
  lemma {:induction false} ResponseIsBounded(dumps: Value -> string, requested: seq<SeriesItem>, records: seq<Record>,
                                             n: nat)
    requires n <= |requested|
    ensures Lengths(Shares(dumps, requested, records, n)) <= 20_000
    ensures forall i: nat :: i < n ==>
              && Shares(dumps, requested, records, n)[i] == ShareOf(dumps, requested, records, i)
              && |ShareOf(dumps, requested, records, i).points| <= 5_000
              && ShareOf(dumps, requested, records, i).key == requested[i].key
              && ShareOf(dumps, requested, records, i).alias == requested[i].alias
  {
    hide PointsFor, ShareOf, Lengths;
    assert Lengths([]) == 0 by { NoLengths(); }
    if n > 0 {
      var earlier, last := Shares(dumps, requested, records, n - 1), ShareOf(dumps, requested, records, n - 1);
      ResponseIsBounded(dumps, requested, records, n - 1);
      ShareOfIsBounded(dumps, requested, records, n - 1);
      LengthsOneMore(earlier, last);
    }
  }

  /** A series is given fewer points than were found for it only at a limit: it has 5000, or
      the response has 20000 with it. */
  lemma ShortOnlyAtALimit(dumps: Value -> string, requested: seq<SeriesItem>, records: seq<Record>, i: nat)
    requires i < |requested| && Shortened(dumps, requested, records, i)
    ensures var points := ShareOf(dumps, requested, records, i).points;
            |points| == 5_000 || Lengths(Shares(dumps, requested, records, i + 1)) == 20_000
  {
    hide PointsFor, Lengths, Sort, ByPointKey;
    ResponseIsBounded(dumps, requested, records, i);
    LengthsOneMore(Shares(dumps, requested, records, i), ShareOf(dumps, requested, records, i));
  }

  lemma {:induction false} NothingShortened(dumps: Value -> string, requested: seq<SeriesItem>, records: seq<Record>,
                                            n: nat)
    requires n <= |requested| && !AnyShortened(dumps, requested, records, n)
    ensures Lengths(Shares(dumps, requested, records, n)) == Found(requested, records, n)
    ensures forall i: nat :: i < n ==>
              |ShareOf(dumps, requested, records, i).points| == |PointsFor(records, requested[i].key)|
  {
    hide PointsFor, ShareOf;
    if n > 0 {
      var earlier, last := Shares(dumps, requested, records, n - 1), ShareOf(dumps, requested, records, n - 1);
      NothingShortened(dumps, requested, records, n - 1);
      ResponseIsBounded(dumps, requested, records, n - 1);
      ShareOfIsBounded(dumps, requested, records, n - 1);
      LengthsOneMore(earlier, last);
    }
  }

  lemma {:induction false} ShortenedSomewhere(dumps: Value -> string, requested: seq<SeriesItem>,
                                              records: seq<Record>, n: nat) returns (i: nat)
    requires n <= |requested| && AnyShortened(dumps, requested, records, n)
    ensures i < n && Shortened(dumps, requested, records, i)
  {
    if Shortened(dumps, requested, records, n - 1) {
      i := n - 1;
    } else {
      i := ShortenedSomewhere(dumps, requested, records, n - 1);
    }
  }

  lemma RecordsAreRequested(bucket: seq<Record>, keys: seq<SeriesKey>, start: int, stop: int, perSeries: nat,
                            total: nat, idText: nat -> string, groups: seq<seq<Record>>, records: seq<Record>,
                            requested: seq<SeriesItem>)
    requires IsAnswer(bucket, keys, start, stop, perSeries, total, idText, groups, records)
    requires AreSeriesOf(keys, requested)
    ensures forall r :: r in records ==> exists i :: 0 <= i < |requested| && requested[i].key == r.key
    ensures WindowParses(bucket, requested, start, stop) ==> AllParse(records)
  {
    hide AllParse, Stored;
    GroupsAreGrouped(bucket, keys, start, stop, perSeries, groups);
    forall r | r in records
      ensures exists i :: 0 <= i < |requested| && requested[i].key == r.key
      ensures WindowParses(bucket, requested, start, stop) ==> PointOf(r).Some?
    {
      assert r in multiset(records);
      assert r in Concat(groups);
      var g := InConcat(groups, keys, r);
      assert keys[g] in keys;
      var i :| 0 <= i < |requested| && requested[i].key == keys[g];
      if WindowParses(bucket, requested, start, stop) {
        ParsesIn(Stored(bucket, keys[g], start, stop), r);
      }
    }
    EachParses(records);
  }

  lemma ParsesIn(s: seq<Record>, r: Record)
    requires AllParse(s) && r in s
    ensures PointOf(r).Some?
  {
  }

  lemma EachParses(s: seq<Record>)
    ensures (forall r :: r in s ==> PointOf(r).Some?) ==> AllParse(s)
  {
  }

  /** Nothing was shortened, so no limit was reached anywhere. */
  lemma NoLimitReached(bucket: seq<Record>, keys: seq<SeriesKey>, start: int, stop: int, idText: nat -> string,
                       groups: seq<seq<Record>>, records: seq<Record>, dumps: Value -> string,
                       requested: seq<SeriesItem>, i: nat)
    requires IsAnswer(bucket, keys, start, stop, MAX_POINTS_PER_SERIES + 1, MAX_POINTS_PER_RESPONSE + 1, idText,
                      groups, records)
    requires AreSeriesOf(keys, requested) && WindowParses(bucket, requested, start, stop) && i < |requested|
    requires !AnyShortened(dumps, requested, records, |requested|)
    ensures var key := requested[i].key;
            |ShareOf(dumps, requested, records, i).points| == |PointsFor(Stored(bucket, key, start, stop), key)|
  {
    var key := requested[i].key;
    var g := SeriesIndex(keys, requested, i);
    RecordsAreRequested(bucket, keys, start, stop, MAX_POINTS_PER_SERIES + 1, MAX_POINTS_PER_RESPONSE + 1, idText,
                        groups, records, requested);
    NothingShortened(dumps, requested, records, |requested|);
    ResponseIsBounded(dumps, requested, records, |requested|);
    AllRecordsFound(requested, records);
    var d2 := LimitCutsTheEnd(ByTimeAndSeries(idText), Concat(groups), MAX_POINTS_PER_RESPONSE + 1, records, key);
    assert |records| == |Concat(groups)|;
    GroupsAreGrouped(bucket, keys, start, stop, MAX_POINTS_PER_SERIES + 1, groups);
    PointsOfMerge(groups, keys, g);
    var stored := Stored(bucket, key, start, stop);
    assert AllParse(stored) && AllParse(groups[g]);
    OnePointEach(groups[g], key);
    assert |multiset(PointsFor(Concat(groups), key))| == |multiset(PointsFor(records, key))|;
    assert IsSmallest(ByTimeAndField(), Stored(bucket, keys[g], start, stop), MAX_POINTS_PER_SERIES + 1, groups[g]);
    assert |groups[g]| == |stored|;
    OnePointEach(stored, key);
  }

  lemma CutIsShorter(stored: seq<Point>, points: seq<Point>, dropped: seq<Point>)
    requires CutsTheEnd(stored, points, dropped)
    ensures |stored| == |points| + |dropped|
    ensures dropped == [] ==> multiset(stored) == multiset(points)
  {
    assert |multiset(stored)| == |multiset(points)| + |multiset(dropped)|;
  }

  ghost function StoredPoints(bucket: seq<Record>, key: SeriesKey, start: int, stop: int): seq<Point> {
    PointsFor(Stored(bucket, key, start, stop), key)
  }

  lemma ShortenedMeansDropped(bucket: seq<Record>, keys: seq<SeriesKey>, start: int, stop: int, perSeries: nat,
                              total: nat, idText: nat -> string, groups: seq<seq<Record>>, records: seq<Record>,
                              dumps: Value -> string, requested: seq<SeriesItem>) returns (i: nat)
    requires IsAnswer(bucket, keys, start, stop, perSeries, total, idText, groups, records)
    requires AreSeriesOf(keys, requested) && AnyShortened(dumps, requested, records, |requested|)
    ensures i < |requested|
            && |ShareOf(dumps, requested, records, i).points| < |StoredPoints(bucket, requested[i].key, start, stop)|
  {
    i := ShortenedSomewhere(dumps, requested, records, |requested|);
    var key := requested[i].key;
    var g := SeriesIndex(keys, requested, i);
    GroupsAreGrouped(bucket, keys, start, stop, perSeries, groups);
    PointsOfMerge(groups, keys, g);
    var d1 := LimitCutsTheEnd(ByTimeAndField(), Stored(bucket, key, start, stop), perSeries, groups[g], key);
    var d2 := LimitCutsTheEnd(ByTimeAndSeries(idText), Concat(groups), total, records, key);
    CutIsShorter(PointsFor(Stored(bucket, key, start, stop), key), PointsFor(groups[g], key), d1);
    CutIsShorter(PointsFor(groups[g], key), PointsFor(records, key), d2);
  }

  lemma UnsetMeansComplete(bucket: seq<Record>, keys: seq<SeriesKey>, start: int, stop: int, idText: nat -> string,
                           groups: seq<seq<Record>>, records: seq<Record>, dumps: Value -> string,
                           requested: seq<SeriesItem>, i: nat)
    requires IsAnswer(bucket, keys, start, stop, MAX_POINTS_PER_SERIES + 1, MAX_POINTS_PER_RESPONSE + 1, idText,
                      groups, records)
    requires AreSeriesOf(keys, requested) && WindowParses(bucket, requested, start, stop) && i < |requested|
    requires !AnyShortened(dumps, requested, records, |requested|)
    ensures multiset(ShareOf(dumps, requested, records, i).points)
            == multiset(StoredPoints(bucket, requested[i].key, start, stop))
  {
    NoLimitReached(bucket, keys, start, stop, idText, groups, records, dumps, requested, i);
    var dropped := DroppedPointsAreLater(bucket, keys, start, stop, MAX_POINTS_PER_SERIES + 1,
                                         MAX_POINTS_PER_RESPONSE + 1, idText, groups, records, dumps, requested, i);
    CutIsShorter(PointsFor(Stored(bucket, requested[i].key, start, stop), requested[i].key),
                 ShareOf(dumps, requested, records, i).points, dropped);
  }

  /** The flag is right in both directions: it is set exactly when some requested series is
      returned fewer points than are stored for it in the window; and unset, every stored
      point of every series is returned. */
  lemma TruncatedIffPointsDropped(bucket: seq<Record>, keys: seq<SeriesKey>, start: int, stop: int,
                                  idText: nat -> string, groups: seq<seq<Record>>, records: seq<Record>,
                                  dumps: Value -> string, requested: seq<SeriesItem>)
    requires IsAnswer(bucket, keys, start, stop, MAX_POINTS_PER_SERIES + 1, MAX_POINTS_PER_RESPONSE + 1, idText,
                      groups, records)
    requires AreSeriesOf(keys, requested) && WindowParses(bucket, requested, start, stop)
    ensures AnyShortened(dumps, requested, records, |requested|) <==>
              exists i: nat :: i < |requested| &&
                |ShareOf(dumps, requested, records, i).points| < |StoredPoints(bucket, requested[i].key, start, stop)|
    ensures !AnyShortened(dumps, requested, records, |requested|) ==>
              forall i: nat :: i < |requested| ==>
                multiset(ShareOf(dumps, requested, records, i).points)
                    == multiset(StoredPoints(bucket, requested[i].key, start, stop))
  {
    hide ShareOf, StoredPoints, AnyShortened, IsAnswer, AreSeriesOf, WindowParses;
    if AnyShortened(dumps, requested, records, |requested|) {
      var i := ShortenedMeansDropped(bucket, keys, start, stop, MAX_POINTS_PER_SERIES + 1,
                                     MAX_POINTS_PER_RESPONSE + 1, idText, groups, records, dumps, requested);
    } else {
      forall i: nat | i < |requested|
        ensures multiset(ShareOf(dumps, requested, records, i).points)
                == multiset(StoredPoints(bucket, requested[i].key, start, stop))
        ensures |ShareOf(dumps, requested, records, i).points| == |StoredPoints(bucket, requested[i].key, start, stop)|
      {
        UnsetMeansComplete(bucket, keys, start, stop, idText, groups, records, dumps, requested, i);
        assert |multiset(ShareOf(dumps, requested, records, i).points)|
               == |multiset(StoredPoints(bucket, requested[i].key, start, stop))|;
      }
    }
  }

  // ---- the order of points ----

  /** Point a may stand before point b: it is earlier; or, at one time, a boolean before a
      number before a text, an integer before a float; or, of one type, its text is no
      greater. */
  ghost predicate MayPrecede(dumps: Value -> string, a: Point, b: Point) {
    || a.time < b.time
    || (a.time == b.time
        && match (a.value, b.value)
           case (BooleanValue(_), BooleanValue(_)) => Le(dumps(a.value), dumps(b.value))
           case (IntegerValue(_), IntegerValue(_)) => Le(dumps(a.value), dumps(b.value))
           case (FloatValue(_), FloatValue(_)) => Le(dumps(a.value), dumps(b.value))
           case (StringValue(_), StringValue(_)) => Le(dumps(a.value), dumps(b.value))
           case (BooleanValue(_), _) => true
           case (IntegerValue(_), FloatValue(_)) => true
           case (_, StringValue(_)) => true
           case (_, _) => false)
  }

  lemma KeyedMayPrecede(dumps: Value -> string, a: Point, b: Point)
    requires ByPointKey(dumps)(a, b)
    ensures MayPrecede(dumps, a, b)
  {
    assert a.time < b.time || (a.time == b.time && TypeOrder(a.value) <= TypeOrder(b.value));
  }

  /** The points of every returned series stand in order of time, type and text. */
  lemma PointsStandInOrder(dumps: Value -> string, requested: seq<SeriesItem>, records: seq<Record>, i: nat)
    requires i < |requested|
    ensures var points := ShareOf(dumps, requested, records, i).points;
            forall a, b :: 0 <= a < b < |points| ==> MayPrecede(dumps, points[a], points[b])
  {
    hide PointsFor, Lengths, Sort;
    PointKeysAreTotal(dumps);
    SortSorted(ByPointKey(dumps), PointsFor(records, requested[i].key));
    var all, points := Sorted(dumps, records, requested[i].key), ShareOf(dumps, requested, records, i).points;
    forall a, b | 0 <= a < b < |points| ensures MayPrecede(dumps, points[a], points[b]) {
      assert points[a] == all[a] && points[b] == all[b];
      KeyedMayPrecede(dumps, all[a], all[b]);
    }
  }
}
