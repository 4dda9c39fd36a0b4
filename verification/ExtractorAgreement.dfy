/** The two walks over one document, compared. */
module ExtractorAgreement {
  import opened Std
  import opened Text
  import opened JsonValues
  import opened JsonPath
  import opened SchemaExtraction
  import opened FieldValueExtraction

  predicate ArrayFree(segs: seq<Seg>) { forall s :: s in segs ==> s.Key? }

  /** The path is one of object members only. */
  predicate ArrayFreePath(path: string) {
    Decode(path).Some? && ArrayFree(Decode(path).value)
  }

  // ---- the scalar walk stops exactly where the schema walk visits array-free locations ----

  function VisitsOf(t: seq<Stop>): (r: seq<Action>)
    ensures |r| == |t| && forall i :: 0 <= i < |t| ==> r[i] == Visit(t[i].segs, t[i].path, KindOf(t[i].value))
  {
    seq(|t|, i requires 0 <= i < |t| => Visit(t[i].segs, t[i].path, KindOf(t[i].value)))
  }

  lemma VisitsAppend(a: seq<Stop>, b: seq<Stop>)
    ensures VisitsOf(a + b) == VisitsOf(a) + VisitsOf(b)
  {
  }

  lemma VisitsOfOne(a: Stop)
    ensures VisitsOf([a]) == [Visit(a.segs, a.path, KindOf(a.value))]
  {
  }

  function ArrayFreePart(t: seq<Action>): seq<Action> {
    if t == [] then []
    else
      var last := t[|t| - 1];
      ArrayFreePart(t[..|t| - 1]) + if ArrayFree(last.segs) then [last] else []
  }

  lemma {:induction false} PartAppend(a: seq<Action>, b: seq<Action>)
    ensures ArrayFreePart(a + b) == ArrayFreePart(a) + ArrayFreePart(b)
    decreases |b|
  {
    if b == [] {
      assert a + b == a;
    } else {
      var n := |b| - 1;
      assert (a + b)[..|a + b| - 1] == a + b[..n];
      PartAppend(a, b[..n]);
    }
  }

  lemma PartOne(a: Action)
    ensures ArrayFreePart([a]) == if ArrayFree(a.segs) then [a] else []
  {
  }

  lemma ArrayFreeStep(segs: seq<Seg>, s: Seg)
    ensures ArrayFree(segs + [s]) <==> ArrayFree(segs) && s.Key?
  {
  }

  lemma TraceSplits(v: Json, segs: seq<Seg>)
    ensures ArrayFreePart(Trace(v, segs)) == ArrayFreePart([VisitAt(segs, KindOf(v))]) + ArrayFreePart(Below(v, segs))
    ensures v.JArray? ==>
              ArrayFreePart(Below(v, segs))
                  == ArrayFreePart(ItemsTrace(v.items, segs + [Elem])) + ArrayFreePart(Marks(v.items, segs + [Elem]))
  {
    PartAppend([VisitAt(segs, KindOf(v))], Below(v, segs));
    if v.JArray? {
      PartAppend(ItemsTrace(v.items, segs + [Elem]), Marks(v.items, segs + [Elem]));
    }
  }

  lemma {:induction false} BelowArrays(v: Json, segs: seq<Seg>)
    requires !ArrayFree(segs)
    ensures ArrayFreePart(Trace(v, segs)) == []
    decreases Size(v), 1
  {
    TraceSplits(v, segs);
    PartOne(VisitAt(segs, KindOf(v)));
    match v
    case JObject(members) => MembersBelowArrays(members, SortedSet(Keys(members)), segs);
    case JArray(items) => NothingInArrays(items, segs);
    case _ =>
  }

  lemma {:induction false} MembersBelowArrays(members: seq<Member>, keys: seq<string>, segs: seq<Seg>)
    requires !ArrayFree(segs) && forall k :: k in keys ==> k in Keys(members)
    ensures ArrayFreePart(MembersTrace(members, keys, segs)) == []
    decreases SizeOfMembers(members), 2, |keys|
  {
    if keys != [] {
      var n := |keys| - 1;
      var below := segs + [Key(keys[n])];
      ArrayFreeStep(segs, Key(keys[n]));
      MembersBelowArrays(members, keys[..n], segs);
      BelowArrays(Lookup(members, keys[n]), below);
      PartAppend(MembersTrace(members, keys[..n], segs), Trace(Lookup(members, keys[n]), below));
    }
  }

  lemma {:induction false} ItemsBelowArrays(items: seq<Json>, segs: seq<Seg>)
    requires !ArrayFree(segs)
    ensures ArrayFreePart(ItemsTrace(items, segs)) == []
    decreases SizeOfItems(items), 2, |items|
  {
    if items != [] {
      var n := |items| - 1;
      ItemsBelowArrays(items[..n], segs);
      ItemIsSmaller(items, n);
      BelowArrays(items[n], segs);
      PartAppend(ItemsTrace(items[..n], segs), Trace(items[n], segs));
    }
  }

  lemma {:induction false} NothingInArrays(items: seq<Json>, segs: seq<Seg>)
    ensures ArrayFreePart(ItemsTrace(items, segs + [Elem])) == []
    ensures ArrayFreePart(Marks(items, segs + [Elem])) == []
    decreases SizeOfItems(items), 3
  {
    ArrayFreeStep(segs, Elem);
    ItemsBelowArrays(items, segs + [Elem]);
    if |KindsOf(items)| > 1 {
      PartOne(MarkAt(segs + [Elem], NullKind in KindsOf(items)));
    }
  }

  /** Of the schema walk, what concerns array-free locations is exactly the scalar walk. */
  lemma {:induction false} StopsAreArrayFreeVisits(v: Json, segs: seq<Seg>)
    requires ArrayFree(segs)
    ensures ArrayFreePart(Trace(v, segs)) == VisitsOf(Stops(v, segs))
    decreases Size(v), 1
  {
    TraceSplits(v, segs);
    PartOne(VisitAt(segs, KindOf(v)));
    VisitsOfOne(StopAt(segs, v));
    VisitsAppend([StopAt(segs, v)], StopsBelow(v, segs));
    if v.JObject? {
      MemberStopsAreVisits(v.members, SortedSet(Keys(v.members)), segs);
    } else if v.JArray? {
      NothingInArrays(v.items, segs);
    }
  }

  lemma {:induction false} MemberStopsAreVisits(members: seq<Member>, keys: seq<string>, segs: seq<Seg>)
    requires ArrayFree(segs) && forall k :: k in keys ==> k in Keys(members)
    ensures ArrayFreePart(MembersTrace(members, keys, segs)) == VisitsOf(MemberStops(members, keys, segs))
    decreases SizeOfMembers(members), 2, |keys|
  {
    if keys != [] {
      var n := |keys| - 1;
      var below := segs + [Key(keys[n])];
      ArrayFreeStep(segs, Key(keys[n]));
      MemberStopsAreVisits(members, keys[..n], segs);
      StopsAreArrayFreeVisits(Lookup(members, keys[n]), below);
      PartAppend(MembersTrace(members, keys[..n], segs), Trace(Lookup(members, keys[n]), below));
      VisitsAppend(MemberStops(members, keys[..n], segs), Stops(Lookup(members, keys[n]), below));
    }
  }

  // ---- no two stops share a location ----

  ghost predicate DistinctStops(t: seq<Stop>) {
    forall i, j :: 0 <= i < j < |t| ==> t[i].segs != t[j].segs
  }

  lemma {:induction false} StopsAreDistinct(v: Json, segs: seq<Seg>)
    ensures DistinctStops(Stops(v, segs))
    ensures forall a :: a in Stops(v, segs) ==> segs <= a.segs && (a.segs == segs ==> a.value == v)
    decreases Size(v), 1
  {
    if v.JObject? {
      MemberStopsAreDistinct(v.members, SortedSet(Keys(v.members)), segs);
    }
  }

  lemma {:induction false} MemberStopsAreDistinct(members: seq<Member>, keys: seq<string>, segs: seq<Seg>)
    requires StrictlySorted(keys) && forall k :: k in keys ==> k in Keys(members)
    ensures DistinctStops(MemberStops(members, keys, segs))
    ensures forall a :: a in MemberStops(members, keys, segs) ==>
              |segs| < |a.segs| && segs <= a.segs && a.segs[|segs|].Key? && a.segs[|segs|].name in keys
    decreases SizeOfMembers(members), 2, |keys|
  {
    if keys != [] {
      var n := |keys| - 1;
      var below := segs + [Key(keys[n])];
      MemberStopsAreDistinct(members, keys[..n], segs);
      StopsAreDistinct(Lookup(members, keys[n]), below);
      var a, b := MemberStops(members, keys[..n], segs), Stops(Lookup(members, keys[n]), below);
      assert keys[n] !in keys[..n];
      forall x | x in b ensures |segs| < |x.segs| && segs <= x.segs && x.segs[|segs|] == Key(keys[n]) {
        assert below <= x.segs;
        assert x.segs[|segs|] == below[|segs|];
        assert x.segs[..|segs|] == below[..|segs|] == segs;
      }
      forall i, j | 0 <= i < |a| && 0 <= j < |b| ensures a[i].segs != b[j].segs {
        assert a[i] in a && b[j] in b;
      }
    }
  }

  ghost predicate DistinctPaths(t: seq<Stop>) {
    forall i, j :: 0 <= i < j < |t| ==> t[i].path != t[j].path
  }

  // ---- when the scalar walk succeeds, and with what ----

  /** What the scalar walk does with a value: keep it, or count it as skipped. */
  datatype Class = Kept | SkippedNull | SkippedContainer

  function ClassOf(v: Json): Class {
    if v.JNull? then SkippedNull else if IsContainer(v) then SkippedContainer else Kept
  }

  function StopPaths(t: seq<Stop>, c: Class): set<string> {
    set a | a in t && ClassOf(a.value) == c :: a.path
  }

  ghost predicate StopInBounds(a: Stop) {
    && |a.segs| <= MAX_DEPTH
    && |a.path| <= MAX_PATH_LENGTH
    && (ClassOf(a.value).Kept? ==> ScalarOf(a.value).Ok?)
  }

  ghost predicate StopsInBounds(t: seq<Stop>) {
    && |t| <= MAX_NODES
    && |StopPaths(t, Kept)| <= MAX_FIELDS
    && forall a :: a in t ==> StopInBounds(a)
  }

  ghost predicate Tallied(t: seq<Stop>, p: Tally) {
    && p.nodes == |t|
    && p.values.Keys == StopPaths(t, Kept)
    && p.nulls == |StopPaths(t, SkippedNull)|
    && p.containers == |StopPaths(t, SkippedContainer)|
    && HoldsValues(t, p.values)
  }

  ghost predicate HoldsValues(t: seq<Stop>, values: map<string, Scalar>) {
    forall a :: a in t && ClassOf(a.value).Kept? ==> a.path in values && Ok(values[a.path]) == ScalarOf(a.value)
  }

  ghost predicate NewPath(before: seq<Stop>, last: Stop) {
    forall a :: a in before ==> a.path != last.path
  }

  lemma LastPathIsNew(before: seq<Stop>, last: Stop)
    requires DistinctPaths(before + [last])
    ensures NewPath(before, last) && DistinctPaths(before)
  {
    var t := before + [last];
    forall i | 0 <= i < |before| ensures before[i].path != last.path {
      assert t[i].path != t[|before|].path;
    }
    forall i, j | 0 <= i < j < |before| ensures before[i].path != before[j].path {
      assert t[i].path != t[j].path;
    }
  }

  lemma OneMoreStop(before: seq<Stop>, last: Stop, c: Class)
    requires NewPath(before, last)
    ensures last.path !in StopPaths(before, c)
    ensures StopPaths(before + [last], c) == if ClassOf(last.value) == c then StopPaths(before, c) + {last.path}
            else StopPaths(before, c)
    ensures |StopPaths(before + [last], c)| == |StopPaths(before, c)| + if ClassOf(last.value) == c then 1 else 0
  {
    assert forall a :: a in before + [last] <==> a in before || a == last;
  }

  /** Taking one more stop, in terms of totals. */
  lemma TakeStopCases(a: Stop, q: Tally)
    requires a.segs == [] ==> a.value.JObject?
    ensures TakeStop(a, q).Ok? <==>
              q.nodes < MAX_NODES && StopInBounds(a) && (ClassOf(a.value).Kept? ==> |q.values.Keys| < MAX_FIELDS)
    ensures TakeStop(a, q).Ok? ==>
              var p := TakeStop(a, q).value;
              && p.nodes == q.nodes + 1
              && p.nulls == q.nulls + (if ClassOf(a.value).SkippedNull? then 1 else 0)
              && p.containers == q.containers + (if ClassOf(a.value).SkippedContainer? then 1 else 0)
              && if ClassOf(a.value).Kept?
                 then ScalarOf(a.value).Ok? && p.values == q.values[a.path := ScalarOf(a.value).value]
                 else p.values == q.values
  {
  }

  lemma ValuesStep(before: seq<Stop>, last: Stop, values: map<string, Scalar>, s: Scalar)
    requires last.path !in StopPaths(before, Kept) && HoldsValues(before, values)
    ensures !ClassOf(last.value).Kept? ==> HoldsValues(before + [last], values)
    ensures ScalarOf(last.value) == Ok(s) ==> HoldsValues(before + [last], values[last.path := s])
  {
  }

  lemma TallyStep(before: seq<Stop>, last: Stop, q: Tally)
    requires NewPath(before, last) && Tallied(before, q)
    requires last.segs == [] ==> last.value.JObject?
    requires TakeStop(last, q).Ok?
    ensures Tallied(before + [last], TakeStop(last, q).value)
  {
    hide StopPaths, HoldsValues, NewPath, TakeStop, StopInBounds;
    OneMoreStop(before, last, Kept);
    OneMoreStop(before, last, SkippedNull);
    OneMoreStop(before, last, SkippedContainer);
    TakeStopCases(last, q);
    if ClassOf(last.value).Kept? {
      ValuesStep(before, last, q.values, ScalarOf(last.value).value);
    } else {
      ValuesStep(before, last, q.values, IntegerValue(0));
    }
  }

  lemma TakeSucceedsIff(before: seq<Stop>, last: Stop, q: Tally)
    requires NewPath(before, last) && Tallied(before, q)
    requires last.segs == [] ==> last.value.JObject?
    ensures StopsInBounds(before + [last]) <==> StopsInBounds(before) && TakeStop(last, q).Ok?
  {
    OneMoreStop(before, last, Kept);
    TakeStopCases(last, q);
    assert forall a :: a in before + [last] <==> a in before || a == last;
  }

  /** The scalar walk accepts its stops exactly when their totals are in bounds. */
  lemma {:induction false} TakeIffInBounds(t: seq<Stop>)
    requires DistinctPaths(t) && forall a :: a in t && a.segs == [] ==> a.value.JObject?
    ensures TakeStops(t, EMPTY_TALLY).Ok? <==> StopsInBounds(t)
    ensures TakeStops(t, EMPTY_TALLY).Ok? ==> Tallied(t, TakeStops(t, EMPTY_TALLY).value)
    decreases |t|
  {
    if t != [] {
      var before, last := t[..|t| - 1], t[|t| - 1];
      assert t == before + [last];
      LastPathIsNew(before, last);
      TakeIffInBounds(before);
      match TakeStops(before, EMPTY_TALLY)
      case Err(_) =>
        OneMoreStop(before, last, Kept);
        assert forall a :: a in before ==> a in t;
      case Ok(q) =>
        TakeSucceedsIff(before, last, q);
        if TakeStop(last, q).Ok? {
          TallyStep(before, last, q);
        }
    }
  }

  lemma StopPathsAreDistinct(v: Json)
    ensures DistinctPaths(Stops(v, []))
    ensures forall a :: a in Stops(v, []) && a.segs == [] ==> a.value == v
  {
    StopsAreDistinct(v, []);
    StopPathsAreTheirOwn(v, []);
    var t := Stops(v, []);
    forall i, j | 0 <= i < j < |t| ensures t[i].path != t[j].path {
      assert t[i] in t && t[j] in t;
      if t[i].path == t[j].path {
        PathsAreInjective(t[i].segs, t[j].segs);
      }
    }
  }

  /** A document's own stops: the scalar walk succeeds on them exactly when at most 1024
      places are visited, none deeper than 16 or with a path longer than 1024, every kept
      number is finite and at most 256 scalars are kept. */
  lemma ScalarWalkSucceedsIffInBounds(v: Json)
    requires v.JObject?
    ensures TakeStops(Stops(v, []), EMPTY_TALLY).Ok? <==> StopsInBounds(Stops(v, []))
    ensures TakeStops(Stops(v, []), EMPTY_TALLY).Ok? ==>
              Tallied(Stops(v, []), TakeStops(Stops(v, []), EMPTY_TALLY).value)
    ensures DistinctPaths(Stops(v, []))
  {
    StopPathsAreDistinct(v);
    TakeIffInBounds(Stops(v, []));
  }

  lemma {:induction false} StopPathsAreTheirOwn(v: Json, segs: seq<Seg>)
    ensures forall a :: a in Stops(v, segs) ==> a.path == Path(a.segs)
    decreases Size(v), 1
  {
    if v.JObject? {
      MemberStopPathsAreTheirOwn(v.members, SortedSet(Keys(v.members)), segs);
    }
  }

  lemma {:induction false} MemberStopPathsAreTheirOwn(members: seq<Member>, keys: seq<string>, segs: seq<Seg>)
    requires forall k :: k in keys ==> k in Keys(members)
    ensures forall a :: a in MemberStops(members, keys, segs) ==> a.path == Path(a.segs)
    decreases SizeOfMembers(members), 2, |keys|
  {
    if keys != [] {
      var n := |keys| - 1;
      MemberStopPathsAreTheirOwn(members, keys[..n], segs);
      StopPathsAreTheirOwn(Lookup(members, keys[n]), segs + [Key(keys[n])]);
    }
  }
}
