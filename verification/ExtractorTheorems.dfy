/** Agreement of the schema extractor and the scalar extractor on every object document. */
module ExtractorTheorems {
  import opened Std
  import opened Text
  import opened JsonValues
  import opened JsonPath
  import opened SchemaExtraction
  import opened SchemaLimits
  import opened FieldValueExtraction
  import opened ExtractorAgreement

  /** Every action carries the path of its own segments. */
  ghost predicate OwnPaths(t: seq<Action>) {
    forall a :: a in t ==> a.path == Path(a.segs)
  }

  lemma {:induction false} TraceOwnsPaths(v: Json, segs: seq<Seg>)
    ensures OwnPaths(Trace(v, segs))
    decreases Size(v), 1
  {
    if v.JObject? {
      MembersOwnPaths(v.members, SortedSet(Keys(v.members)), segs);
    } else if v.JArray? {
      ItemsOwnPaths(v.items, segs + [Elem]);
    }
  }

  lemma {:induction false} MembersOwnPaths(members: seq<Member>, keys: seq<string>, segs: seq<Seg>)
    requires forall k :: k in keys ==> k in Keys(members)
    ensures OwnPaths(MembersTrace(members, keys, segs))
    decreases SizeOfMembers(members), 2, |keys|
  {
    if keys != [] {
      var n := |keys| - 1;
      MembersOwnPaths(members, keys[..n], segs);
      TraceOwnsPaths(Lookup(members, keys[n]), segs + [Key(keys[n])]);
    }
  }

  lemma {:induction false} ItemsOwnPaths(items: seq<Json>, segs: seq<Seg>)
    ensures OwnPaths(ItemsTrace(items, segs))
    decreases SizeOfItems(items), 2, |items|
  {
    if items != [] {
      var n := |items| - 1;
      ItemsOwnPaths(items[..n], segs);
      ItemIsSmaller(items, n);
      TraceOwnsPaths(items[n], segs);
    }
  }

  /** What is recorded for an array-free location comes from the array-free part alone. */
  lemma {:induction false} RecordedInPart(t: seq<Action>, path: string)
    requires forall a :: a in t && a.path == path ==> ArrayFree(a.segs)
    ensures FirstVisit(t, path) == FirstVisit(ArrayFreePart(t), path)
    ensures LastMark(t, path) == LastMark(ArrayFreePart(t), path)
    decreases |t|
  {
    hide FirstVisit, LastMark;
    if t != [] {
      var before, last := t[..|t| - 1], t[|t| - 1];
      assert t == before + [last];
      assert last in t && forall a :: a in before ==> a in t;
      RecordedInPart(before, path);
      AppendedOne(before, last, path);
      AppendedOne(ArrayFreePart(before), last, path);
      assert ArrayFreePart(before) + [] == ArrayFreePart(before);
    }
  }

  lemma ArrayFreeOnly(t: seq<Action>, segs: seq<Seg>)
    requires OwnPaths(t) && ArrayFree(segs)
    ensures forall a :: a in t && a.path == Path(segs) ==> ArrayFree(a.segs)
  {
    forall a | a in t && a.path == Path(segs) ensures ArrayFree(a.segs) {
      PathsAreInjective(a.segs, segs);
    }
  }

  lemma {:induction false} PartIsSmaller(t: seq<Action>)
    requires forall a :: a in ArrayFreePart(t) ==> a.Visit?
    ensures |ArrayFreePart(t)| <= Nodes(t)
    decreases |t|
  {
    if t != [] {
      var before, last := t[..|t| - 1], t[|t| - 1];
      assert forall a :: a in ArrayFreePart(before) ==> a in ArrayFreePart(t);
      PartIsSmaller(before);
      assert ArrayFree(last.segs) ==> last in ArrayFreePart(t);
    }
  }

  lemma {:induction false} PartMembers(t: seq<Action>, a: Action)
    ensures a in ArrayFreePart(t) <==> a in t && ArrayFree(a.segs)
    decreases |t|
  {
    if t != [] {
      var before, last := t[..|t| - 1], t[|t| - 1];
      assert t == before + [last];
      PartMembers(before, a);
    }
  }

  /** The field definition a stop's visit leaves. */
  function StopField(a: Stop): FieldDef {
    FieldDef(KindOf(a.value), |a.segs|, a.value.JNull?)
  }

  lemma VisitsOfOneMore(t: seq<Stop>, last: Stop)
    ensures VisitsOf(t + [last]) == VisitsOf(t) + [Visit(last.segs, last.path, KindOf(last.value))]
  {
  }

  /** A path that no stop has is not visited, and no visit is a mark. */
  lemma {:induction false} NotVisited(t: seq<Stop>, path: string)
    ensures LastMark(VisitsOf(t), path) == None
    ensures (forall i :: 0 <= i < |t| ==> t[i].path != path) ==> FirstVisit(VisitsOf(t), path) == None
    decreases |t|
  {
    if t != [] {
      hide FirstVisit, LastMark, VisitsOf;
      var before, last := t[..|t| - 1], t[|t| - 1];
      assert t == before + [last];
      NotVisited(before, path);
      VisitsOfOneMore(before, last);
      AppendedOne(VisitsOf(before), Visit(last.segs, last.path, KindOf(last.value)), path);
    }
  }

  lemma {:induction false} VisitsRecord(t: seq<Stop>, i: nat)
    requires DistinctPaths(t) && i < |t|
    ensures FirstVisit(VisitsOf(t), t[i].path) == Some(StopField(t[i])) && LastMark(VisitsOf(t), t[i].path) == None
    decreases |t|
  {
    hide FirstVisit, LastMark, VisitsOf, DistinctPaths;
    var before, last := t[..|t| - 1], t[|t| - 1];
    assert t == before + [last];
    LastPathIsNew(before, last);
    NotVisited(t, t[i].path);
    NotVisited(before, last.path);
    VisitsOfOneMore(before, last);
    AppendedOne(VisitsOf(before), Visit(last.segs, last.path, KindOf(last.value)), t[i].path);
    if i < |before| {
      VisitsRecord(before, i);
    }
  }

  /** Each place the scalar walk stops at is a schema field, typed by the value found there. */
  lemma StopIsField(v: Json, a: Stop)
    requires a in Stops(v, []) && Run(Trace(v, []), START).Ok?
    ensures var fields := Run(Trace(v, []), START).value.fields;
            a.path in fields && fields[a.path] == StopField(a) && ArrayFreePath(a.path)
  {
    hide Trace, Run, Stops, DistinctPaths, FirstVisit, LastMark;
    var t, stops, p := Trace(v, []), Stops(v, []), Run(Trace(v, []), START).value;
    WalkSucceedsIffInBounds(v);
    StopPathsAreDistinct(v);
    StopsAreArrayFreeVisits(v, []);
    StopPathsAreTheirOwn(v, []);
    var i :| 0 <= i < |stops| && stops[i] == a;
    var visit := VisitsOf(stops)[i];
    assert visit in ArrayFreePart(t);
    PartMembers(t, visit);
    TraceOwnsPaths(v, []);
    ArrayFreeOnly(t, a.segs);
    RecordedInPart(t, a.path);
    VisitsRecord(stops, i);
    assert RecordedAt(t, p, a.path);
    assert a.path in VisitedPaths(t);
    PathsRoundTrip(a.segs);
  }

  /** Each schema field on a path of object members only is one of the stops. */
  lemma FieldIsStop(v: Json, path: string) returns (a: Stop)
    requires Run(Trace(v, []), START).Ok?
    requires path in Run(Trace(v, []), START).value.fields && ArrayFreePath(path)
    ensures a in Stops(v, []) && a.path == path
  {
    var t, stops, p := Trace(v, []), Stops(v, []), Run(Trace(v, []), START).value;
    WalkSucceedsIffInBounds(v);
    assert RecordedAt(t, p, path);
    TraceOwnsPaths(v, []);
    var visit :| visit in t && visit.Visit? && visit.path == path;
    PathsRoundTrip(visit.segs);
    PartMembers(t, visit);
    StopsAreArrayFreeVisits(v, []);
    var i :| 0 <= i < |stops| && VisitsOf(stops)[i] == visit;
    a := stops[i];
  }

  // ---- root type and depths are determined by the field paths and types ----

  lemma {:induction false} RecordedDepth(t: seq<Action>, path: string)
    requires OwnPaths(t)
    ensures FirstVisit(t, path).Some? ==> Decode(path).Some? && FirstVisit(t, path).value.depth == |Decode(path).value|
    ensures LastMark(t, path).Some? ==> Decode(path).Some? && LastMark(t, path).value.depth == |Decode(path).value|
    decreases |t|
  {
    if t != [] {
      var before, last := t[..|t| - 1], t[|t| - 1];
      assert t == before + [last];
      assert last in t && forall a :: a in before ==> a in t;
      RecordedDepth(before, path);
      AppendedOne(before, last, path);
      PathsRoundTrip(last.segs);
    }
  }

  /** The root type is the type at `$`, and each depth is the number of the path's segments. */
  ghost predicate SelfDescribing(rootType: Kind, fields: map<string, FieldDef>) {
    && "$" in fields && fields["$"].kind == rootType
    && forall path :: path in fields ==> Decode(path).Some? && fields[path].depth == |Decode(path).value|
  }

  lemma ObservationsDescribeThemselves(codec: Codec, v: Json)
    requires Extract(codec, Some(v)).Ok?
    ensures var o := Extract(codec, Some(v)).value; SelfDescribing(o.rootType, o.fields)
  {
    var t, p := Trace(v, []), Run(Trace(v, []), START).value;
    StopIsField(v, StopAt([], v));
    assert Path([]) == "$";
    WalkSucceedsIffInBounds(v);
    TraceOwnsPaths(v, []);
    forall path | path in p.fields ensures Decode(path).Some? && p.fields[path].depth == |Decode(path).value| {
      assert RecordedAt(t, p, path);
      RecordedDepth(t, path);
    }
  }

  // ---- agreement ----

  function KindOfScalar(s: Scalar): Kind {
    match s
    case IntegerValue(_) => IntegerKind
    case FloatValue(_) => NumberKind
    case BooleanValue(_) => BooleanKind
    case StringValue(_) => StringKind
  }

  predicate IsScalarKind(k: Kind) { k.StringKind? || k.IntegerKind? || k.NumberKind? || k.BooleanKind? }

  /** The kinds of the values that the scalar walk keeps, or skips as null or container. */
  predicate KindInClass(k: Kind, c: Class) {
    match c
    case Kept => IsScalarKind(k)
    case SkippedNull => k == NullKind
    case SkippedContainer => k == ObjectKind || k == ArrayKind
  }

  /** Schema fields on paths of object members only, with a kind of the class. */
  function FieldPaths(fields: map<string, FieldDef>, c: Class): set<string> {
    set path | path in fields && ArrayFreePath(path) && KindInClass(fields[path].kind, c)
  }

  lemma FieldPathsAreStopPaths(v: Json, c: Class)
    requires v.JObject? && Run(Trace(v, []), START).Ok?
    ensures FieldPaths(Run(Trace(v, []), START).value.fields, c) == StopPaths(Stops(v, []), c)
  {
    hide Run, Trace, Stops, ArrayFreePath, DistinctPaths;
    var fields, stops := Run(Trace(v, []), START).value.fields, Stops(v, []);
    forall path | path in FieldPaths(fields, c) ensures path in StopPaths(stops, c) {
      var a := FieldIsStop(v, path);
      StopIsField(v, a);
    }
    forall path | path in StopPaths(stops, c) ensures path in FieldPaths(fields, c) {
      var a :| a in stops && ClassOf(a.value) == c && a.path == path;
      StopIsField(v, a);
    }
  }

  lemma KeptValue(t: seq<Stop>, p: Tally, path: string) returns (a: Stop)
    requires Tallied(t, p) && path in p.values
    ensures a in t && a.path == path && KindOf(a.value) == KindOfScalar(p.values[path])
  {
    assert path in StopPaths(t, Kept);
    a :| a in t && ClassOf(a.value).Kept? && a.path == path;
    assert Ok(p.values[path]) == ScalarOf(a.value);
  }

  lemma KeptTypesAgree(v: Json, path: string)
    requires v.JObject? && Run(Trace(v, []), START).Ok? && TakeStops(Stops(v, []), EMPTY_TALLY).Ok?
    requires path in TakeStops(Stops(v, []), EMPTY_TALLY).value.values
    ensures var fields := Run(Trace(v, []), START).value.fields;
            path in fields && fields[path].kind == KindOfScalar(TakeStops(Stops(v, []), EMPTY_TALLY).value.values[path])
  {
    ScalarWalkSucceedsIffInBounds(v);
    var a := KeptValue(Stops(v, []), TakeStops(Stops(v, []), EMPTY_TALLY).value, path);
    StopIsField(v, a);
  }

  /** On every object document that both extractors accept, the scalar values are exactly
      the schema's scalar fields outside arrays, with the same types; the skip counts are
      the schema's null and container fields there; and every visited place is accounted for. */
  lemma ExtractorsAgree(codec: Codec, size: nat, v: Json)
    requires v.JObject?
    requires Extract(codec, Some(v)).Ok? && ExtractValues(size, Some(v)).Ok?
    ensures var fields, scalars := Extract(codec, Some(v)).value.fields, ExtractValues(size, Some(v)).value;
            && scalars.values.Keys == FieldPaths(fields, Kept)
            && (forall path :: path in scalars.values ==>
                path in fields && fields[path].kind == KindOfScalar(scalars.values[path]))
            && scalars.skippedNull == |FieldPaths(fields, SkippedNull)|
            && scalars.skippedContainer == |FieldPaths(fields, SkippedContainer)|
            && |scalars.values| + scalars.skippedNull + scalars.skippedContainer == |Stops(v, [])|
  {
    ScalarWalkSucceedsIffInBounds(v);
    var p := TakeStops(Stops(v, []), EMPTY_TALLY).value;
    FieldPathsAreStopPaths(v, Kept);
    FieldPathsAreStopPaths(v, SkippedNull);
    FieldPathsAreStopPaths(v, SkippedContainer);
    forall path | path in p.values
      ensures path in Run(Trace(v, []), START).value.fields
      ensures Run(Trace(v, []), START).value.fields[path].kind == KindOfScalar(p.values[path])
    {
      KeptTypesAgree(v, path);
    }
    StopsAreAccountedFor(Stops(v, []));
    assert |p.values| == |p.values.Keys|;
  }

  lemma {:induction false} StopsAreAccountedFor(t: seq<Stop>)
    requires DistinctPaths(t)
    ensures |StopPaths(t, Kept)| + |StopPaths(t, SkippedNull)| + |StopPaths(t, SkippedContainer)| == |t|
    decreases |t|
  {
    if t != [] {
      var before, last := t[..|t| - 1], t[|t| - 1];
      assert t == before + [last];
      LastPathIsNew(before, last);
      StopsAreAccountedFor(before);
      OneMoreStop(before, last, Kept);
      OneMoreStop(before, last, SkippedNull);
      OneMoreStop(before, last, SkippedContainer);
    }
  }

  // ---- what the schema extractor accepts, the scalar extractor accepts ----

  /** No NaN or infinity is reachable through object members alone. */
  ghost predicate FiniteOutsideArrays(v: Json)
    decreases Size(v)
  {
    match v
    case JFloat(f) => f.Finite?
    case JObject(members) => forall k | k in Keys(members) :: FiniteOutsideArrays(Lookup(members, k))
    case _ => true
  }

  ghost predicate StopsFinite(t: seq<Stop>) {
    forall a :: a in t && ClassOf(a.value).Kept? ==> ScalarOf(a.value).Ok?
  }

  lemma StopsFiniteAppend(a: seq<Stop>, b: seq<Stop>)
    ensures StopsFinite(a + b) <==> StopsFinite(a) && StopsFinite(b)
  {
  }

  lemma {:induction false} FiniteIffStopsFinite(v: Json, segs: seq<Seg>)
    ensures FiniteOutsideArrays(v) <==> StopsFinite(Stops(v, segs))
    decreases Size(v), 1
  {
    var here := [StopAt(segs, v)];
    StopsFiniteAppend(here, StopsBelow(v, segs));
    assert StopAt(segs, v) in here;
    if v.JObject? {
      MembersFiniteIff(v.members, SortedSet(Keys(v.members)), segs);
    }
  }

  ghost predicate FiniteAt(members: seq<Member>, keys: seq<string>)
    requires forall k :: k in keys ==> k in Keys(members)
  {
    forall k | k in keys :: FiniteOutsideArrays(Lookup(members, k))
  }

  lemma FiniteAtLast(members: seq<Member>, keys: seq<string>, last: string)
    requires last in Keys(members) && forall k :: k in keys ==> k in Keys(members)
    ensures FiniteAt(members, keys + [last]) <==> FiniteAt(members, keys) && FiniteOutsideArrays(Lookup(members, last))
  {
  }

  lemma FiniteStep(members: seq<Member>, keys: seq<string>, segs: seq<Seg>)
    requires keys != [] && forall k :: k in keys ==> k in Keys(members)
    requires var n := |keys| - 1;
             && (FiniteAt(members, keys[..n]) <==> StopsFinite(MemberStops(members, keys[..n], segs)))
             && (FiniteOutsideArrays(Lookup(members, keys[n]))
                 <==> StopsFinite(Stops(Lookup(members, keys[n]), segs + [Key(keys[n])])))
    ensures FiniteAt(members, keys) <==> StopsFinite(MemberStops(members, keys, segs))
  {
    hide FiniteAt, StopsFinite, Stops, FiniteOutsideArrays, Lookup;
    var n := |keys| - 1;
    StopsFiniteAppend(MemberStops(members, keys[..n], segs), Stops(Lookup(members, keys[n]), segs + [Key(keys[n])]));
    FiniteAtLast(members, keys[..n], keys[n]);
    assert keys == keys[..n] + [keys[n]];
  }

  lemma {:induction false} MembersFiniteIff(members: seq<Member>, keys: seq<string>, segs: seq<Seg>)
    requires forall k :: k in keys ==> k in Keys(members)
    ensures FiniteAt(members, keys) <==> StopsFinite(MemberStops(members, keys, segs))
    decreases SizeOfMembers(members), 2, |keys|
  {
    if keys != [] {
      var n := |keys| - 1;
      MembersFiniteIff(members, keys[..n], segs);
      FiniteIffStopsFinite(Lookup(members, keys[n]), segs + [Key(keys[n])]);
      FiniteStep(members, keys, segs);
    }
  }

  lemma StopsDominated(v: Json)
    requires v.JObject? && InBounds(Trace(v, []))
    ensures StopsInBounds(Stops(v, [])) <==> StopsFinite(Stops(v, []))
  {
    var t, stops := Trace(v, []), Stops(v, []);
    StopsAreArrayFreeVisits(v, []);
    PartIsSmaller(t);
    forall a | a in stops
      ensures |a.segs| <= MAX_DEPTH && |a.path| <= MAX_PATH_LENGTH && a.path in VisitedPaths(t)
    {
      var i :| 0 <= i < |stops| && stops[i] == a;
      var visit := VisitsOf(stops)[i];
      assert visit in ArrayFreePart(t);
      PartMembers(t, visit);
      assert VisitInBounds(visit);
    }
    Subset(StopPaths(stops, Kept), VisitedPaths(t));
  }

  /** An object document within the byte limit that the schema extractor accepts is accepted
      by the scalar extractor exactly when no number outside arrays is NaN or infinite: the
      scalar walk's nodes, depths, paths and fields are among the schema walk's. */
  lemma SchemaAcceptanceCarriesOver(codec: Codec, size: nat, v: Json)
    requires v.JObject? && size <= MAX_DOCUMENT_BYTES && Extract(codec, Some(v)).Ok?
    ensures ExtractValues(size, Some(v)).Ok? <==> FiniteOutsideArrays(v)
  {
    WalkSucceedsIffInBounds(v);
    ScalarWalkSucceedsIffInBounds(v);
    StopsDominated(v);
    FiniteIffStopsFinite(v, []);
  }

  /** A schema's document names the root's type and lists every field once, in path order. */
  lemma DocumentsListTheFields(rootType: Kind, fields: map<string, FieldDef>)
    ensures var d := DocumentOf(rootType, fields);
            && d.rootType == rootType
            && (forall i, j :: 0 <= i < j < |d.entries| ==>
                Le(d.entries[i].path, d.entries[j].path) && d.entries[i].path != d.entries[j].path)
            && (forall e :: e in d.entries <==> e.path in fields && e.field == fields[e.path])
  {
    var d, paths := DocumentOf(rootType, fields), SortedSet(fields.Keys);
    forall e: Entry ensures e in d.entries <==> e.path in fields && e.field == fields[e.path] {
      if e.path in fields && e.field == fields[e.path] {
        var i :| 0 <= i < |paths| && paths[i] == e.path;
        assert d.entries[i] == e;
      }
      if e in d.entries {
        var i :| 0 <= i < |paths| && d.entries[i] == e;
        assert paths[i] in paths;
      }
    }
  }
}
