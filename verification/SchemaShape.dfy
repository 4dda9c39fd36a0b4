/** What a schema document depends on. */
module SchemaShape {
  import opened Std
  import opened Text
  import opened JsonValues
  import opened JsonPath
  import opened SchemaExtraction
  import opened SchemaLimits
  import ExtractorTheorems

  // ---- scalar values and member order do not matter ----

  /** Same structure: equal kinds, arrays element by element, objects key by key. */
  ghost predicate Similar(v: Json, w: Json)
    decreases Size(v)
  {
    && KindOf(v) == KindOf(w)
    && (v.JArray? ==>
          && |v.items| == |w.items|
          && forall i :: 0 <= i < |v.items| ==> (ItemIsSmaller(v.items, i); Similar(v.items[i], w.items[i])))
    && (v.JObject? ==>
          && Keys(v.members) == Keys(w.members)
          && forall k :: k in Keys(v.members) ==> Similar(Lookup(v.members, k), Lookup(w.members, k)))
  }

  lemma SimilarKind(v: Json, w: Json)
    requires Similar(v, w)
    ensures KindOf(v) == KindOf(w)
  {
  }

  lemma SimilarKinds(xs: seq<Json>, ys: seq<Json>)
    requires |xs| == |ys| && forall i :: 0 <= i < |xs| ==> KindOf(xs[i]) == KindOf(ys[i])
    ensures KindsOf(xs) == KindsOf(ys)
  {
    forall x | x in xs ensures KindOf(x) in KindsOf(ys) {
      var i :| 0 <= i < |xs| && xs[i] == x;
      assert ys[i] in ys;
    }
    forall y | y in ys ensures KindOf(y) in KindsOf(xs) {
      var i :| 0 <= i < |ys| && ys[i] == y;
      assert xs[i] in xs;
    }
  }

  lemma {:induction false} SimilarTraces(v: Json, w: Json, segs: seq<Seg>)
    requires Similar(v, w)
    ensures Trace(v, segs) == Trace(w, segs)
    decreases Size(v), 1
  {
    if v.JObject? {
      SimilarMembers(v.members, w.members, SortedSet(Keys(v.members)), segs);
    } else if v.JArray? {
      SimilarElements(v.items, w.items, segs);
    }
  }

  lemma SimilarElements(xs: seq<Json>, ys: seq<Json>, segs: seq<Seg>)
    requires |xs| == |ys| && forall i :: 0 <= i < |xs| ==> Similar(xs[i], ys[i])
    ensures Trace(JArray(xs), segs) == Trace(JArray(ys), segs)
    decreases SizeOfItems(xs), 3
  {
    hide Similar, KindsOf;
    forall i | 0 <= i < |xs| ensures KindOf(xs[i]) == KindOf(ys[i]) {
      SimilarKind(xs[i], ys[i]);
    }
    SimilarKinds(xs, ys);
    SimilarItems(xs, ys, |xs|, segs + [Elem]);
    assert xs[..|xs|] == xs && ys[..|ys|] == ys;
  }

  lemma {:induction false} SimilarMembers(ms: seq<Member>, ns: seq<Member>, keys: seq<string>, segs: seq<Seg>)
    requires forall k :: k in keys ==> k in Keys(ms) && k in Keys(ns) && Similar(Lookup(ms, k), Lookup(ns, k))
    ensures MembersTrace(ms, keys, segs) == MembersTrace(ns, keys, segs)
    decreases SizeOfMembers(ms), 2, |keys|
  {
    if keys != [] {
      var n := |keys| - 1;
      SimilarMembers(ms, ns, keys[..n], segs);
      assert keys[n] in keys;
      SimilarTraces(Lookup(ms, keys[n]), Lookup(ns, keys[n]), segs + [Key(keys[n])]);
    }
  }

  lemma {:induction false} SimilarItems(xs: seq<Json>, ys: seq<Json>, n: nat, segs: seq<Seg>)
    requires n <= |xs| == |ys|
    requires forall i :: 0 <= i < |xs| ==> Similar(xs[i], ys[i])
    ensures ItemsTrace(xs[..n], segs) == ItemsTrace(ys[..n], segs)
    decreases SizeOfItems(xs), 2, n
  {
    hide Similar, Trace;
    if n > 0 {
      SimilarItems(xs, ys, n - 1, segs);
      ItemIsSmaller(xs, n - 1);
      SimilarTraces(xs[n - 1], ys[n - 1], segs);
      assert xs[..n][..n - 1] == xs[..n - 1] && ys[..n][..n - 1] == ys[..n - 1];
    }
  }

  /** Documents of the same structure get the same answer, whatever it is: the same schema
      and fingerprint, or the same failure. */
  lemma StructureDecides(codec: Codec, v: Json, w: Json)
    requires Similar(v, w)
    ensures Extract(codec, Some(v)) == Extract(codec, Some(w))
  {
    SimilarTraces(v, w, []);
  }

  lemma {:induction false} SimilarToItself(v: Json)
    ensures Similar(v, v)
    decreases Size(v)
  {
    if v.JArray? {
      forall i | 0 <= i < |v.items| ensures Similar(v.items[i], v.items[i]) {
        ItemIsSmaller(v.items, i);
        SimilarToItself(v.items[i]);
      }
    } else if v.JObject? {
      forall k | k in Keys(v.members) ensures Similar(Lookup(v.members, k), Lookup(v.members, k)) {
        SimilarToItself(Lookup(v.members, k));
      }
    }
  }

  ghost predicate DistinctKeys(ms: seq<Member>) {
    forall m, n :: m in ms && n in ms && m.key == n.key ==> m == n
  }

  /** Reordering an object's members changes nothing. */
  lemma MemberOrderIsIrrelevant(codec: Codec, ms: seq<Member>, ns: seq<Member>)
    requires multiset(ms) == multiset(ns) && DistinctKeys(ms)
    ensures Similar(JObject(ms), JObject(ns))
    ensures Extract(codec, Some(JObject(ms))) == Extract(codec, Some(JObject(ns)))
  {
    assert forall m :: m in ms <==> m in multiset(ms);
    assert forall m :: m in ns <==> m in multiset(ns);
    assert Keys(ms) == Keys(ns);
    forall k | k in Keys(ms) ensures Similar(Lookup(ms, k), Lookup(ns, k)) {
      SimilarToItself(Lookup(ms, k));
    }
    StructureDecides(codec, JObject(ms), JObject(ns));
  }

  // ---- arrays ----

  /** The two traces record the same, wherever they occur in a walk. */
  ghost predicate SameEffectAt(s: seq<Action>, t: seq<Action>, path: string) {
    && LastMark(s, path) == LastMark(t, path)
    && (LastMark(s, path).None? ==> FirstVisit(s, path) == FirstVisit(t, path))
    && (FirstVisit(s, path).Some? <==> FirstVisit(t, path).Some?)
  }

  ghost predicate SameEffect(s: seq<Action>, t: seq<Action>) {
    forall path :: SameEffectAt(s, t, path)
  }

  /** The two documents leave the same record at any location of any document. */
  ghost predicate SameRecord(v: Json, w: Json) {
    KindOf(v) == KindOf(w) && forall segs :: SameEffect(Trace(v, segs), Trace(w, segs))
  }

  lemma EffectAppend(s1: seq<Action>, t1: seq<Action>, s2: seq<Action>, t2: seq<Action>)
    requires SameEffect(s1, t1) && SameEffect(s2, t2)
    ensures SameEffect(s1 + s2, t1 + t2)
  {
    forall path ensures SameEffectAt(s1 + s2, t1 + t2, path) {
      assert SameEffectAt(s1, t1, path) && SameEffectAt(s2, t2, path);
      Appended(s1, s2, path);
      Appended(t1, t2, path);
    }
  }

  lemma EffectTwice(s1: seq<Action>, s2: seq<Action>, t: seq<Action>)
    requires SameEffect(s1, t) && SameEffect(s2, t)
    ensures SameEffect(s1 + s2, t)
  {
    forall path ensures SameEffectAt(s1 + s2, t, path) {
      assert SameEffectAt(s1, t, path) && SameEffectAt(s2, t, path);
      Appended(s1, s2, path);
    }
  }

  lemma EffectOfItself(t: seq<Action>)
    ensures SameEffect(t, t)
  {
  }

  lemma {:induction false} MembersEffect(ms: seq<Member>, ns: seq<Member>, keys: seq<string>, segs: seq<Seg>)
    requires forall k :: k in keys ==> k in Keys(ms) && k in Keys(ns) && SameRecord(Lookup(ms, k), Lookup(ns, k))
    ensures SameEffect(MembersTrace(ms, keys, segs), MembersTrace(ns, keys, segs))
    decreases |keys|
  {
    if keys == [] {
      EffectOfItself([]);
    } else {
      var n := |keys| - 1;
      MembersEffect(ms, ns, keys[..n], segs);
      assert keys[n] in keys;
      assert SameEffect(Trace(Lookup(ms, keys[n]), segs + [Key(keys[n])]),
                        Trace(Lookup(ns, keys[n]), segs + [Key(keys[n])]));
      EffectAppend(MembersTrace(ms, keys[..n], segs), MembersTrace(ns, keys[..n], segs),
                   Trace(Lookup(ms, keys[n]), segs + [Key(keys[n])]), Trace(Lookup(ns, keys[n]),
                       segs + [Key(keys[n])]));
    }
  }

  lemma ObjectTrace(ms: seq<Member>, segs: seq<Seg>)
    ensures Trace(JObject(ms), segs) == [VisitAt(segs, ObjectKind)] + MembersTrace(ms, SortedSet(Keys(ms)), segs)
  {
    hide MembersTrace, VisitAt;
  }

  lemma ObjectsAt(ms: seq<Member>, ns: seq<Member>, segs: seq<Seg>)
    requires Keys(ms) == Keys(ns) && forall k :: k in Keys(ms) ==> SameRecord(Lookup(ms, k), Lookup(ns, k))
    ensures SameEffect(Trace(JObject(ms), segs), Trace(JObject(ns), segs))
  {
    hide SameRecord, SameEffect, VisitAt, MembersTrace, Lookup, Trace;
    var keys, visit := SortedSet(Keys(ms)), [VisitAt(segs, ObjectKind)];
    MembersEffect(ms, ns, keys, segs);
    EffectOfItself(visit);
    EffectAppend(visit, visit, MembersTrace(ms, keys, segs), MembersTrace(ns, keys, segs));
    ObjectTrace(ms, segs);
    ObjectTrace(ns, segs);
  }

  lemma ObjectCongruence(ms: seq<Member>, ns: seq<Member>)
    requires Keys(ms) == Keys(ns) && forall k :: k in Keys(ms) ==> SameRecord(Lookup(ms, k), Lookup(ns, k))
    ensures SameRecord(JObject(ms), JObject(ns))
  {
    hide SameEffect, Trace;
    forall segs ensures SameEffect(Trace(JObject(ms), segs), Trace(JObject(ns), segs)) {
      ObjectsAt(ms, ns, segs);
    }
  }

  lemma {:induction false} ItemsEffect(xs: seq<Json>, ys: seq<Json>, n: nat, segs: seq<Seg>)
    requires n <= |xs| == |ys| && forall i :: 0 <= i < |xs| ==> SameRecord(xs[i], ys[i])
    ensures SameEffect(ItemsTrace(xs[..n], segs), ItemsTrace(ys[..n], segs))
    decreases n
  {
    if n == 0 {
      EffectOfItself([]);
    } else {
      ItemsEffect(xs, ys, n - 1, segs);
      assert SameRecord(xs[n - 1], ys[n - 1]);
      assert SameEffect(Trace(xs[n - 1], segs), Trace(ys[n - 1], segs));
      EffectAppend(ItemsTrace(xs[..n - 1], segs), ItemsTrace(ys[..n - 1], segs), Trace(xs[n - 1], segs),
                   Trace(ys[n - 1], segs));
      assert xs[..n][..n - 1] == xs[..n - 1] && ys[..n][..n - 1] == ys[..n - 1];
    }
  }

  /** Arrays leave the same record when their elements do and their kinds are the same. */
  lemma ArrayFromItems(xs: seq<Json>, ys: seq<Json>)
    requires KindsOf(xs) == KindsOf(ys)
    requires forall segs :: SameEffect(ItemsTrace(xs, segs) + Marks(xs, segs), ItemsTrace(ys, segs) + Marks(ys, segs))
    ensures SameRecord(JArray(xs), JArray(ys))
  {
    hide SameEffect, VisitAt, ItemsTrace, Marks;
    forall segs ensures SameEffect(Trace(JArray(xs), segs), Trace(JArray(ys), segs)) {
      var below := segs + [Elem];
      EffectOfItself([VisitAt(segs, ArrayKind)]);
      EffectAppend([VisitAt(segs, ArrayKind)], [VisitAt(segs, ArrayKind)],
                   ItemsTrace(xs, below) + Marks(xs, below), ItemsTrace(ys, below) + Marks(ys, below));
    }
  }

  lemma ArrayCongruence(xs: seq<Json>, ys: seq<Json>)
    requires |xs| == |ys| && forall i :: 0 <= i < |xs| ==> SameRecord(xs[i], ys[i])
    ensures SameRecord(JArray(xs), JArray(ys))
  {
    KindsPointwise(xs, ys);
    KindsPointwise(ys, xs);
    assert KindsOf(xs) == KindsOf(ys);
    forall segs ensures SameEffect(ItemsTrace(xs, segs) + Marks(xs, segs), ItemsTrace(ys, segs) + Marks(ys, segs)) {
      ItemsEffect(xs, ys, |xs|, segs);
      assert xs[..|xs|] == xs && ys[..|ys|] == ys;
      EffectOfItself(Marks(xs, segs));
      EffectAppend(ItemsTrace(xs, segs), ItemsTrace(ys, segs), Marks(xs, segs), Marks(ys, segs));
    }
    ArrayFromItems(xs, ys);
  }

  lemma KindsPointwise(xs: seq<Json>, ys: seq<Json>)
    requires |xs| == |ys| && forall i :: 0 <= i < |xs| ==> KindOf(xs[i]) == KindOf(ys[i])
    ensures KindsOf(xs) <= KindsOf(ys)
  {
  }

  ghost predicate AllScalar(xs: seq<Json>) { forall x :: x in xs ==> !IsContainer(x) }

  lemma {:induction false} ScalarItems(xs: seq<Json>, segs: seq<Seg>, path: string)
    requires AllScalar(xs)
    ensures LastMark(ItemsTrace(xs, segs), path) == None
    ensures FirstVisit(ItemsTrace(xs, segs), path) ==
              if xs != [] && path == Path(segs) then Some(FieldDef(KindOf(xs[0]), |segs|, KindOf(xs[0]).NullKind?))
                  else None
    decreases |xs|
  {
    if xs != [] {
      var n := |xs| - 1;
      var visit := VisitAt(segs, KindOf(xs[n]));
      assert xs[n] in xs;
      ScalarItems(xs[..n], segs, path);
      assert Trace(xs[n], segs) == [visit];
      AppendedOne(ItemsTrace(xs[..n], segs), visit, path);
    }
  }

  /** Scalar elements count only by the set of their kinds: permute them, repeat them or
      drop repetitions, and the array leaves the same record. */
  lemma ScalarArraysByKinds(xs: seq<Json>, ys: seq<Json>)
    requires AllScalar(xs) && AllScalar(ys) && KindsOf(xs) == KindsOf(ys)
    ensures SameRecord(JArray(xs), JArray(ys))
  {
    forall segs ensures SameEffect(ItemsTrace(xs, segs) + Marks(xs, segs), ItemsTrace(ys, segs) + Marks(ys, segs)) {
      forall path
        ensures SameEffectAt(ItemsTrace(xs, segs) + Marks(xs, segs), ItemsTrace(ys, segs) + Marks(ys, segs), path)
      {
        ScalarItems(xs, segs, path);
        ScalarItems(ys, segs, path);
        FirstKinds(xs, ys);
        MarksEffect(xs, segs, path);
        Appended(ItemsTrace(xs, segs), Marks(xs, segs), path);
        Appended(ItemsTrace(ys, segs), Marks(ys, segs), path);
      }
    }
    ArrayFromItems(xs, ys);
  }

  lemma MarksEffect(xs: seq<Json>, segs: seq<Seg>, path: string)
    ensures FirstVisit(Marks(xs, segs), path) == None
    ensures LastMark(Marks(xs, segs), path).Some? <==> |KindsOf(xs)| > 1 && path == Path(segs)
  {
  }

  lemma NoKinds(xs: seq<Json>)
    ensures KindsOf(xs) == {} <==> xs == []
  {
    if xs != [] {
      assert KindOf(xs[0]) in KindsOf(xs);
    }
  }

  lemma FirstKinds(xs: seq<Json>, ys: seq<Json>)
    requires KindsOf(xs) == KindsOf(ys)
    ensures xs == [] <==> ys == []
    ensures xs != [] && |KindsOf(xs)| <= 1 ==> KindOf(xs[0]) == KindOf(ys[0])
  {
    NoKinds(xs);
    NoKinds(ys);
    if xs != [] && KindOf(xs[0]) != KindOf(ys[0]) {
      assert KindOf(xs[0]) in KindsOf(xs) && KindOf(ys[0]) in KindsOf(ys);
      Subset({KindOf(xs[0]), KindOf(ys[0])}, KindsOf(xs));
    }
  }

  lemma {:induction false} RepeatedItems(xs: seq<Json>, x: Json, segs: seq<Seg>)
    requires xs != [] && forall y :: y in xs ==> SameRecord(y, x)
    ensures SameEffect(ItemsTrace(xs, segs), Trace(x, segs))
    decreases |xs|
  {
    var n := |xs| - 1;
    assert xs[n] in xs;
    assert SameEffect(Trace(xs[n], segs), Trace(x, segs));
    if n == 0 {
      assert ItemsTrace(xs[..0], segs) + Trace(xs[0], segs) == Trace(xs[0], segs);
    } else {
      RepeatedItems(xs[..n], x, segs);
      EffectTwice(ItemsTrace(xs[..n], segs), Trace(xs[n], segs), Trace(x, segs));
    }
  }

  /** The length of an array of alike elements does not matter, as long as it is not empty. */
  lemma AlikeElementsCountOnce(xs: seq<Json>, ys: seq<Json>, x: Json)
    requires xs != [] && ys != []
    requires forall y :: y in xs || y in ys ==> SameRecord(y, x)
    ensures SameRecord(JArray(xs), JArray(ys))
  {
    assert xs[0] in xs && ys[0] in ys;
    assert KindsOf(xs) == {KindOf(x)} && KindsOf(ys) == {KindOf(x)};
    forall segs ensures SameEffect(ItemsTrace(xs, segs) + Marks(xs, segs), ItemsTrace(ys, segs) + Marks(ys, segs)) {
      RepeatedItems(xs, x, segs);
      RepeatedItems(ys, x, segs);
      assert ItemsTrace(xs, segs) + [] == ItemsTrace(xs, segs) && ItemsTrace(ys, segs) + [] == ItemsTrace(ys, segs);
      forall path ensures SameEffectAt(ItemsTrace(xs, segs), ItemsTrace(ys, segs), path) {
        assert SameEffectAt(ItemsTrace(xs, segs), Trace(x, segs), path);
        assert SameEffectAt(ItemsTrace(ys, segs), Trace(x, segs), path);
      }
    }
    ArrayFromItems(xs, ys);
  }

  /** Documents of the same structure leave the same record. */
  lemma SimilarLeavesSameRecord(v: Json, w: Json)
    requires Similar(v, w)
    ensures SameRecord(v, w)
  {
    hide Trace;
    forall segs ensures SameEffect(Trace(v, segs), Trace(w, segs)) {
      SimilarTraces(v, w, segs);
      EffectOfItself(Trace(w, segs));
    }
  }

  // ---- anywhere in a document ----

  /** A document with one hole. */
  datatype Context =
    | Hole
    | InObject(before: seq<Member>, key: string, inner: Context, after: seq<Member>)
    | InArray(earlier: seq<Json>, element: Context, later: seq<Json>)

  function Plug(c: Context, v: Json): Json {
    match c
    case Hole => v
    case InObject(before, key, inner, after) => JObject(before + [Member(key, Plug(inner, v))] + after)
    case InArray(earlier, element, later) => JArray(earlier + [Plug(element, v)] + later)
  }

  lemma LookupLast(ms: seq<Member>, m: Member, k: string)
    ensures k in Keys(ms + [m]) <==> k in Keys(ms) || k == m.key
    ensures k in Keys(ms + [m]) ==> Lookup(ms + [m], k) == if m.key == k then m.value else Lookup(ms, k)
  {
  }

  lemma {:induction false} LookupPlugged(before: seq<Member>, a: Member, b: Member, after: seq<Member>, k: string)
    requires a.key == b.key
    ensures k in Keys(before + [a] + after) <==> k in Keys(before + [b] + after)
    ensures k in Keys(before + [a] + after) ==>
              var x, y := Lookup(before + [a] + after, k), Lookup(before + [b] + after, k);
              x == y || (x == a.value && y == b.value)
    decreases |after|
  {
    if after == [] {
      assert before + [a] + after == before + [a] && before + [b] + after == before + [b];
      LookupLast(before, a, k);
      LookupLast(before, b, k);
    } else {
      var n := |after| - 1;
      assert before + [a] + after == (before + [a] + after[..n]) + [after[n]];
      assert before + [b] + after == (before + [b] + after[..n]) + [after[n]];
      LookupLast(before + [a] + after[..n], after[n], k);
      LookupLast(before + [b] + after[..n], after[n], k);
      LookupPlugged(before, a, b, after[..n], k);
    }
  }

  lemma SameRecordAsItself(v: Json)
    ensures SameRecord(v, v)
  {
  }

  lemma {:induction false} SameRecordInContext(c: Context, v: Json, w: Json)
    requires SameRecord(v, w)
    ensures SameRecord(Plug(c, v), Plug(c, w))
    decreases c
  {
    match c
    case Hole =>
    case InObject(before, key, inner, after) =>
      SameRecordInContext(inner, v, w);
      var a, b := Member(key, Plug(inner, v)), Member(key, Plug(inner, w));
      var ms, ns := before + [a] + after, before + [b] + after;
      forall k
        ensures k in Keys(ms) <==> k in Keys(ns)
        ensures k in Keys(ms) ==> SameRecord(Lookup(ms, k), Lookup(ns, k))
      {
        LookupPlugged(before, a, b, after, k);
        if k in Keys(ms) { SameRecordAsItself(Lookup(ms, k)); }
      }
      ObjectCongruence(ms, ns);
    case InArray(earlier, element, later) =>
      SameRecordInContext(element, v, w);
      var xs, ys := earlier + [Plug(element, v)] + later, earlier + [Plug(element, w)] + later;
      forall i | 0 <= i < |xs| ensures SameRecord(xs[i], ys[i]) {
        if i != |earlier| { SameRecordAsItself(xs[i]); }
      }
      ArrayCongruence(xs, ys);
  }

  /** Replacing, anywhere in a document, a part by one that leaves the same record gives the
      same schema document and fingerprint; the only thing that can go wrong is the number
      of nodes. */
  lemma ReplacingAlikeParts(codec: Codec, c: Context, v: Json, w: Json)
    requires SameRecord(v, w) && Extract(codec, Some(Plug(c, v))).Ok?
    ensures Extract(codec, Some(Plug(c, w))).Ok? <==> Nodes(Trace(Plug(c, w), [])) <= MAX_NODES
    ensures Extract(codec, Some(Plug(c, w))).Ok? ==>
              Extract(codec, Some(Plug(c, w))) == Extract(codec, Some(Plug(c, v)))
  {
    SameRecordInContext(c, v, w);
    SameRecordsSameSchema(codec, Plug(c, v), Plug(c, w));
  }

  /** An array of one shape, anywhere in an accepted document, may be shortened or lengthened,
      from one element up, and its elements' scalars changed: the schema and fingerprint stay,
      unless the node limit is passed. */
  lemma OneShapeArraysAnywhere(codec: Codec, c: Context, xs: seq<Json>, ys: seq<Json>, shape: Json)
    requires xs != [] && ys != [] && forall y :: y in xs || y in ys ==> Similar(y, shape)
    requires Extract(codec, Some(Plug(c, JArray(xs)))).Ok?
    ensures Extract(codec, Some(Plug(c, JArray(ys)))).Ok? <==> Nodes(Trace(Plug(c, JArray(ys)), [])) <= MAX_NODES
    ensures Extract(codec, Some(Plug(c, JArray(ys)))).Ok? ==>
              Extract(codec, Some(Plug(c, JArray(ys)))) == Extract(codec, Some(Plug(c, JArray(xs))))
  {
    hide Similar, SameRecord, Extract;
    forall y | y in xs || y in ys ensures SameRecord(y, shape) {
      SimilarLeavesSameRecord(y, shape);
    }
    AlikeElementsCountOnce(xs, ys, shape);
    ReplacingAlikeParts(codec, c, JArray(xs), JArray(ys));
  }

  lemma SameEffectSameFields(s: seq<Action>, t: seq<Action>, p: Progress, q: Progress)
    requires SameEffect(s, t) && Recorded(s, p) && Recorded(t, q)
    requires Covered(s) && Covered(t)
    ensures p.fields == q.fields
  {
    forall path
      ensures path in p.fields <==> path in q.fields
      ensures path in p.fields ==> p.fields[path] == q.fields[path]
    {
      assert SameEffectAt(s, t, path) && RecordedAt(s, p, path) && RecordedAt(t, q, path);
      UnvisitedHasNoField(s, path);
      UnvisitedHasNoField(t, path);
    }
    assert p.fields.Keys == q.fields.Keys;
  }

  lemma SameRecordsSameSchema(codec: Codec, v: Json, w: Json)
    requires SameRecord(v, w) && Extract(codec, Some(v)).Ok?
    ensures Extract(codec, Some(w)).Ok? <==> Nodes(Trace(w, [])) <= MAX_NODES
    ensures Extract(codec, Some(w)).Ok? ==> Extract(codec, Some(w)) == Extract(codec, Some(v))
  {
    var s, t := Trace(v, []), Trace(w, []);
    assert SameEffect(s, t);
    WalkSucceedsIffInBounds(v);
    WalkSucceedsIffInBounds(w);
    TraceIsCovered(v, []);
    TraceIsCovered(w, []);
    SameBounds(v, w);
    if Run(t, START).Ok? {
      SameEffectSameFields(s, t, Run(s, START).value, Run(t, START).value);
    }
  }

  lemma SameBounds(v: Json, w: Json)
    requires SameRecord(v, w) && InBounds(Trace(v, []))
    ensures InBounds(Trace(w, [])) <==> Nodes(Trace(w, [])) <= MAX_NODES
  {
    var s, t := Trace(v, []), Trace(w, []);
    TraceIsCovered(v, []);
    TraceIsCovered(w, []);
    ExtractorTheorems.TraceOwnsPaths(v, []);
    ExtractorTheorems.TraceOwnsPaths(w, []);
    forall path ensures path in VisitedPaths(s) <==> path in VisitedPaths(t) {
      assert SameEffect(s, t);
      assert SameEffectAt(s, t, path);
      UnvisitedHasNoField(s, path);
      UnvisitedHasNoField(t, path);
    }
    assert VisitedPaths(s) == VisitedPaths(t);
    forall a | a in t ensures VisitInBounds(a) {
      if a.Visit? {
        assert a.path in VisitedPaths(s);
        var b :| b in s && b.Visit? && b.path == a.path;
        PathsAreInjective(a.segs, b.segs);
        assert VisitInBounds(b);
      }
    }
  }
}
