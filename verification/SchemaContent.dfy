/** What a schema says of a document, place by place, without mention of the walk. */
module SchemaContent {
  import opened Std
  import opened Text
  import opened JsonValues
  import opened JsonPath
  import opened SchemaExtraction
  import opened SchemaLimits
  import opened ExtractorTheorems

  // ---- the values at a place ----

  /** The values of a document at the place `segs`, in document order: an object member is
      one value, a step into an array takes every element. */
  function ValuesAt(v: Json, segs: seq<Seg>): seq<Json>
    decreases |segs|, 0
  {
    if segs == [] then [v]
    else
      match segs[0]
      case Key(name) => if v.JObject? && name in Keys(v.members) then ValuesAt(Lookup(v.members, name), segs[1..])
          else []
      case Elem => if v.JArray? then ValuesOfEach(v.items, segs[1..]) else []
  }

  function ValuesOfEach(items: seq<Json>, segs: seq<Seg>): seq<Json>
    decreases |segs|, 1, |items|
  {
    if items == [] then []
    else ValuesOfEach(items[..|items| - 1], segs) + ValuesAt(items[|items| - 1], segs)
  }

  /** An array with elements of different kinds. */
  predicate IsMixed(v: Json) {
    v.JArray? && exists i, j :: 0 <= i < j < |v.items| && KindOf(v.items[i]) != KindOf(v.items[j])
  }

  predicate HoldsNull(v: Json)
    requires v.JArray?
  {
    exists i :: 0 <= i < |v.items| && v.items[i].JNull?
  }

  /** The last mixed array among the values. */
  function LastMixed(values: seq<Json>): (r: Option<Json>)
    ensures r.Some? ==> r.value in values && IsMixed(r.value)
    ensures r.None? ==> forall v :: v in values ==> !IsMixed(v)
  {
    if values == [] then None
    else if IsMixed(values[|values| - 1]) then Some(values[|values| - 1])
    else LastMixed(values[..|values| - 1])
  }

  /** The last mixed array whose elements are at the place. */
  function MixedAbove(v: Json, segs: seq<Seg>): (r: Option<Json>)
    ensures r.Some? ==> r.value.JArray?
  {
    if segs == [] || segs[|segs| - 1] != Elem then None else LastMixed(ValuesAt(v, segs[..|segs| - 1]))
  }

  // ---- the trace, by place ----

  /** What the override leaves for the elements of the array, at a depth. */
  function MarkOf(mixed: Option<Json>, depth: nat): Option<FieldDef>
    requires mixed.Some? ==> mixed.value.JArray?
  {
    if mixed.None? then None else Some(FieldDef(MixedKind, depth, HoldsNull(mixed.value)))
  }

  function FirstOf(values: seq<Json>, depth: nat): Option<FieldDef> {
    if values == [] then None else Some(FieldDef(KindOf(values[0]), depth, values[0].JNull?))
  }

  /** The trace has nothing at the place. */
  ghost predicate Silent(t: seq<Action>, segs: seq<Seg>) {
    forall a :: a in t ==> a.segs != segs
  }

  lemma {:induction false} SilentTrace(t: seq<Action>, segs: seq<Seg>)
    requires OwnPaths(t) && Silent(t, segs)
    ensures FirstVisit(t, Path(segs)) == None && LastMark(t, Path(segs)) == None
    decreases |t|
  {
    if t != [] {
      hide Path;
      var before, last := t[..|t| - 1], t[|t| - 1];
      assert t == before + [last];
      assert last in t && forall a :: a in before ==> a in t;
      SilentTrace(before, segs);
      AppendedOne(before, last, Path(segs));
      if last.path == Path(segs) {
        PathsAreInjective(last.segs, segs);
      }
    }
  }

  /** Everything at and below a place. */
  ghost predicate AllBelow(t: seq<Action>, segs: seq<Seg>) {
    forall a :: a in t ==> segs <= a.segs
  }

  lemma {:induction false} TraceIsBelow(v: Json, segs: seq<Seg>)
    ensures AllBelow(Trace(v, segs), segs)
    decreases Size(v), 1
  {
    if v.JObject? {
      MembersAreBelow(v.members, SortedSet(Keys(v.members)), segs);
    } else if v.JArray? {
      ItemsAreBelow(v.items, segs + [Elem]);
      assert segs <= segs + [Elem];
    }
  }

  /** Each member's part of the trace lies below the member. */
  ghost predicate BelowMembers(t: seq<Action>, keys: seq<string>, segs: seq<Seg>) {
    forall a :: a in t ==> exists k :: k in keys && segs + [Key(k)] <= a.segs
  }

  lemma {:induction false} MembersAreBelow(members: seq<Member>, keys: seq<string>, segs: seq<Seg>)
    requires forall k :: k in keys ==> k in Keys(members)
    ensures BelowMembers(MembersTrace(members, keys, segs), keys, segs)
    ensures AllBelow(MembersTrace(members, keys, segs), segs)
    decreases SizeOfMembers(members), 2, |keys|
  {
    if keys != [] {
      var n := |keys| - 1;
      assert keys[n] in keys && forall k :: k in keys[..n] ==> k in keys;
      MembersAreBelow(members, keys[..n], segs);
      TraceIsBelow(Lookup(members, keys[n]), segs + [Key(keys[n])]);
      assert segs <= segs + [Key(keys[n])];
    }
  }

  lemma {:induction false} ItemsAreBelow(items: seq<Json>, segs: seq<Seg>)
    ensures AllBelow(ItemsTrace(items, segs), segs)
    decreases SizeOfItems(items), 2, |items|
  {
    if items != [] {
      var n := |items| - 1;
      ItemsAreBelow(items[..n], segs);
      ItemIsSmaller(items, n);
      TraceIsBelow(items[n], segs);
    }
  }

  /** The trace of v from `base` says of the place `base + segs` what the values there say. */
  ghost predicate TellsPlace(t: seq<Action>, v: Json, base: seq<Seg>, segs: seq<Seg>) {
    && FirstVisit(t, Path(base + segs)) == FirstOf(ValuesAt(v, segs), |base| + |segs|)
    && LastMark(t, Path(base + segs)) == MarkOf(MixedAbove(v, segs), |base| + |segs|)
  }

  lemma SilentAdds(a: seq<Action>, b: seq<Action>, segs: seq<Seg>)
    requires OwnPaths(b) && Silent(b, segs)
    ensures FirstVisit(a + b, Path(segs)) == FirstVisit(a, Path(segs))
    ensures LastMark(a + b, Path(segs)) == LastMark(a, Path(segs))
  {
    hide Path, FirstVisit, LastMark;
    SilentTrace(b, segs);
    Appended(a, b, Path(segs));
  }

  lemma SilentBefore(a: seq<Action>, b: seq<Action>, segs: seq<Seg>)
    requires OwnPaths(a) && Silent(a, segs)
    ensures FirstVisit(a + b, Path(segs)) == FirstVisit(b, Path(segs))
    ensures LastMark(a + b, Path(segs)) == LastMark(b, Path(segs))
  {
    hide Path, FirstVisit, LastMark;
    SilentTrace(a, segs);
    Appended(a, b, Path(segs));
  }

  // ---- at the place itself ----

  lemma OneVisit(v: Json, base: seq<Seg>)
    ensures FirstVisit([VisitAt(base, KindOf(v))], Path(base)) == FirstOf([v], |base|)
    ensures LastMark([VisitAt(base, KindOf(v))], Path(base)) == None
    ensures OwnPaths([VisitAt(base, KindOf(v))]) && forall segs :: segs != base ==>
              Silent([VisitAt(base, KindOf(v))], segs)
  {
    hide Path;
    assert [VisitAt(base, KindOf(v))][..0] == [];
  }

  lemma MarksOwnPaths(items: seq<Json>, segs: seq<Seg>)
    ensures OwnPaths(Marks(items, segs)) && forall other :: other != segs ==> Silent(Marks(items, segs), other)
  {
    hide Path;
  }

  /** Everything below a value lies strictly below its place. */
  lemma NothingElseHere(v: Json, base: seq<Seg>)
    ensures OwnPaths(Below(v, base)) && Silent(Below(v, base), base)
  {
    hide Path, MembersTrace, ItemsTrace, Marks;
    match v
    case JObject(members) =>
      MembersAreBelow(members, SortedSet(Keys(members)), base);
      MembersOwnPaths(members, SortedSet(Keys(members)), base);
    case JArray(items) =>
      ItemsAreBelow(items, base + [Elem]);
      ItemsOwnPaths(items, base + [Elem]);
      MarksOwnPaths(items, base + [Elem]);
      assert base != base + [Elem] && Silent(Marks(items, base + [Elem]), base);
    case _ =>
  }

  lemma ToldHere(v: Json, base: seq<Seg>)
    ensures TellsPlace(Trace(v, base), v, base, [])
  {
    hide Path, FirstVisit, LastMark, Below;
    assert base + [] == base;
    OneVisit(v, base);
    NothingElseHere(v, base);
    SilentAdds([VisitAt(base, KindOf(v))], Below(v, base), base);
  }

  // ---- below an object ----

  lemma KeyStep(members: seq<Member>, name: string, rest: seq<Seg>)
    requires name in Keys(members)
    ensures var v, segs := JObject(members), [Key(name)] + rest;
            && ValuesAt(v, segs) == ValuesAt(Lookup(members, name), rest)
            && MixedAbove(v, segs) == MixedAbove(Lookup(members, name), rest)
  {
    var segs := [Key(name)] + rest;
    assert segs[1..] == rest;
    if rest != [] {
      var prefix := segs[..|segs| - 1];
      assert prefix == [Key(name)] + rest[..|rest| - 1] && prefix[1..] == rest[..|rest| - 1];
    }
  }

  /** A step that the value does not allow leads nowhere. */
  lemma NoStep(v: Json, first: Seg, rest: seq<Seg>)
    requires match first case Key(name) => !v.JObject? || name !in Keys(v.members) case Elem => !v.JArray?
    ensures ValuesAt(v, [first] + rest) == [] && MixedAbove(v, [first] + rest) == None
  {
    var segs := [first] + rest;
    if rest != [] {
      var prefix := segs[..|segs| - 1];
      assert prefix[0] == first;
    } else if first == Elem {
      assert segs[..|segs| - 1] == [] && ValuesAt(v, []) == [v];
      assert [v][..0] == [];
    }
  }

  /** The member's own part of the trace is what tells the places below it. */
  lemma {:induction false} ThisMember(before: seq<Action>, v: Json, base: seq<Seg>, name: string, rest: seq<Seg>)
    requires FirstVisit(before, Path(base + ([Key(name)] + rest))) == None
    requires LastMark(before, Path(base + ([Key(name)] + rest))) == None
    ensures var t, path := before + Trace(v, base + [Key(name)]), Path(base + ([Key(name)] + rest));
            && FirstVisit(t, path) == FirstOf(ValuesAt(v, rest), |base| + |rest| + 1)
            && LastMark(t, path) == MarkOf(MixedAbove(v, rest), |base| + |rest| + 1)
    decreases Size(v), 2
  {
    hide Path, FirstVisit, LastMark, ValuesAt, MixedAbove, MarkOf, FirstOf, Trace;
    PlaceTold(v, base + [Key(name)], rest);
    assert base + [Key(name)] + rest == base + ([Key(name)] + rest);
    Appended(before, Trace(v, base + [Key(name)]), Path(base + ([Key(name)] + rest)));
  }

  /** The others' parts say nothing of them. */
  lemma OthersSayNothing(before: seq<Action>, v: Json, base: seq<Seg>, other: string, name: string, rest: seq<Seg>)
    requires other != name
    ensures var t, path := before + Trace(v, base + [Key(other)]), Path(base + ([Key(name)] + rest));
            FirstVisit(t, path) == FirstVisit(before, path) && LastMark(t, path) == LastMark(before, path)
  {
    hide Path, FirstVisit, LastMark, Trace;
    TraceOwnsPaths(v, base + [Key(other)]);
    TraceIsBelow(v, base + [Key(other)]);
    OtherMember(base, other, name, rest);
    SilentAdds(before, Trace(v, base + [Key(other)]), base + ([Key(name)] + rest));
  }

  lemma {:induction false} MembersTold(members: seq<Member>, keys: seq<string>, base: seq<Seg>, name: string,
                                       rest: seq<Seg>)
    requires StrictlySorted(keys) && forall k :: k in keys ==> k in Keys(members)
    ensures var t, path, depth := MembersTrace(members, keys, base), Path(base + ([Key(name)] + rest)),
            |base| + |rest| + 1;
            && FirstVisit(t, path)
               == (if name in keys then FirstOf(ValuesAt(Lookup(members, name), rest), depth) else None)
            && LastMark(t, path)
               == (if name in keys then MarkOf(MixedAbove(Lookup(members, name), rest), depth) else None)
    decreases SizeOfMembers(members), 3, |keys|
  {
    hide Path, FirstVisit, LastMark, ValuesAt, MixedAbove, MarkOf, FirstOf, Trace;
    if keys == [] {
      SilentTrace([], base + ([Key(name)] + rest));
    } else {
      var n := |keys| - 1;
      var last, before := keys[n], MembersTrace(members, keys[..n], base);
      assert keys == keys[..n] + [last];
      MembersTold(members, keys[..n], base, name, rest);
      if name == last {
        assert name !in keys[..n];
        ThisMember(before, Lookup(members, last), base, last, rest);
      } else {
        OthersSayNothing(before, Lookup(members, last), base, last, name, rest);
      }
    }
  }

  lemma OtherMember(base: seq<Seg>, last: string, name: string, rest: seq<Seg>)
    requires last != name
    ensures !(base + [Key(last)] <= base + ([Key(name)] + rest))
  {
    assert (base + ([Key(name)] + rest))[|base|] == Key(name);
    assert (base + [Key(last)])[|base|] == Key(last);
  }

  // ---- below an array ----

  /** The last mixed array above the place, among the elements' own. */
  function MixedOfEach(items: seq<Json>, segs: seq<Seg>): (r: Option<Json>)
    ensures r.Some? ==> r.value.JArray?
  {
    if segs == [] || segs[|segs| - 1] != Elem then None else LastMixed(ValuesOfEach(items, segs[..|segs| - 1]))
  }

  lemma {:induction false} LastMixedAppend(a: seq<Json>, b: seq<Json>)
    ensures LastMixed(a + b) == if LastMixed(b).Some? then LastMixed(b) else LastMixed(a)
    decreases |b|
  {
    hide IsMixed;
    if b == [] {
      assert a + b == a;
    } else {
      assert (a + b)[..|a + b| - 1] == a + b[..|b| - 1];
      LastMixedAppend(a, b[..|b| - 1]);
    }
  }

  lemma FirstOfAppend(a: seq<Json>, b: seq<Json>, depth: nat)
    ensures FirstOf(a + b, depth) == if FirstOf(a, depth).Some? then FirstOf(a, depth) else FirstOf(b, depth)
  {
  }

  lemma MixedStep(items: seq<Json>, segs: seq<Seg>)
    requires items != []
    ensures var n := |items| - 1;
            MixedOfEach(items, segs) == if MixedAbove(items[n], segs).Some? then MixedAbove(items[n], segs)
                                        else MixedOfEach(items[..n], segs)
  {
    hide LastMixed, ValuesAt;
    if segs != [] && segs[|segs| - 1] == Elem {
      var n, prefix := |items| - 1, segs[..|segs| - 1];
      LastMixedAppend(ValuesOfEach(items[..n], prefix), ValuesAt(items[n], prefix));
    }
  }

  lemma {:induction false} ItemsTold(items: seq<Json>, base: seq<Seg>, segs: seq<Seg>)
    ensures var t, path, depth := ItemsTrace(items, base), Path(base + segs), |base| + |segs|;
            && FirstVisit(t, path) == FirstOf(ValuesOfEach(items, segs), depth)
            && LastMark(t, path) == MarkOf(MixedOfEach(items, segs), depth)
    decreases SizeOfItems(items), 2, |items|
  {
    hide Path, FirstVisit, LastMark, ValuesAt, MixedAbove, MixedOfEach, MarkOf, FirstOf, Trace;
    var path, depth := Path(base + segs), |base| + |segs|;
    if items == [] {
      NothingOfNone(segs, depth);
      SilentTrace([], base + segs);
    } else {
      var n := |items| - 1;
      ItemsTold(items[..n], base, segs);
      ItemIsSmaller(items, n);
      PlaceTold(items[n], base, segs);
      Appended(ItemsTrace(items[..n], base), Trace(items[n], base), path);
      FirstOfAppend(ValuesOfEach(items[..n], segs), ValuesAt(items[n], segs), depth);
      MixedStep(items, segs);
      MarkOfEither(MixedAbove(items[n], segs), MixedOfEach(items[..n], segs), depth);
    }
  }

  lemma NothingOfNone(segs: seq<Seg>, depth: nat)
    ensures FirstOf(ValuesOfEach([], segs), depth) == None && MarkOf(MixedOfEach([], segs), depth) == None
  {
  }

  lemma MarkOfEither(a: Option<Json>, b: Option<Json>, depth: nat)
    requires (a.Some? ==> a.value.JArray?) && (b.Some? ==> b.value.JArray?)
    ensures MarkOf(a, depth).Some? <==> a.Some?
    ensures MarkOf(if a.Some? then a else b, depth) == if a.Some? then MarkOf(a, depth) else MarkOf(b, depth)
  {
  }

  lemma MixedIff(items: seq<Json>)
    ensures |KindsOf(items)| > 1 <==> IsMixed(JArray(items))
    ensures NullKind in KindsOf(items) <==> HoldsNull(JArray(items))
  {
    var kinds := KindsOf(items);
    if IsMixed(JArray(items)) {
      var i, j :| 0 <= i < j < |items| && KindOf(items[i]) != KindOf(items[j]);
      assert items[i] in items && items[j] in items;
      assert {KindOf(items[i]), KindOf(items[j])} <= kinds;
      Subset({KindOf(items[i]), KindOf(items[j])}, kinds);
    } else if items != [] {
      assert items[0] in items;
      forall k | k in kinds ensures k == KindOf(items[0]) {
        var i :| 0 <= i < |items| && KindOf(items[i]) == k;
      }
      assert kinds == {KindOf(items[0])};
    } else {
      assert kinds == {};
    }
  }

  lemma MarksTold(items: seq<Json>, place: seq<Seg>)
    ensures FirstVisit(Marks(items, place), Path(place)) == None
    ensures LastMark(Marks(items, place), Path(place)) == MarkOf(LastMixed([JArray(items)]), |place|)
  {
    hide Path, KindsOf, IsMixed, HoldsNull;
    MixedIff(items);
    assert [JArray(items)][..0] == [];
    var mark := MarkAt(place, NullKind in KindsOf(items));
    assert [mark][..0] == [];
  }

  lemma ElemStep(items: seq<Json>, rest: seq<Seg>)
    ensures var v, segs := JArray(items), [Elem] + rest;
            && ValuesAt(v, segs) == ValuesOfEach(items, rest)
            && MixedAbove(v, segs) == if rest == [] then LastMixed([v]) else MixedOfEach(items, rest)
  {
    var segs := [Elem] + rest;
    assert segs[1..] == rest;
    if rest != [] {
      var prefix := segs[..|segs| - 1];
      assert prefix == [Elem] + rest[..|rest| - 1] && prefix[1..] == rest[..|rest| - 1];
    } else {
      assert segs[..0] == [];
    }
  }

  // ---- the whole trace ----

  lemma {:induction false} PlaceTold(v: Json, base: seq<Seg>, segs: seq<Seg>)
    ensures TellsPlace(Trace(v, base), v, base, segs)
    decreases Size(v), 1
  {
    if segs == [] {
      ToldHere(v, base);
    } else {
      BelowTold(v, base, segs);
      OneVisit(v, base);
      assert base != base + segs;
      SilentBefore([VisitAt(base, KindOf(v))], Below(v, base), base + segs);
    }
  }

  lemma {:induction false} BelowTold(v: Json, base: seq<Seg>, segs: seq<Seg>)
    requires segs != []
    ensures TellsPlace(Below(v, base), v, base, segs)
    decreases Size(v), 0
  {
    hide Path, FirstVisit, LastMark, ValuesAt, MixedAbove, MarkOf, FirstOf, MembersTrace, ItemsTrace, Marks;
    assert segs == [segs[0]] + segs[1..];
    match v
    case JObject(members) => ObjectTold(members, base, segs[0], segs[1..]);
    case JArray(items) => ArrayTold(items, base, segs[0], segs[1..]);
    case _ =>
      Nothing(v, segs[0], segs[1..], |base| + |segs|);
      SilentTrace([], base + segs);
  }

  lemma {:induction false} ObjectTold(members: seq<Member>, base: seq<Seg>, first: Seg, rest: seq<Seg>)
    ensures TellsPlace(MembersTrace(members, SortedSet(Keys(members)), base), JObject(members), base, [first] + rest)
    decreases SizeOfMembers(members), 4
  {
    hide Path, FirstVisit, LastMark, ValuesAt, MixedAbove, MarkOf, FirstOf, MembersTrace, SortedSet;
    match first
    case Key(name) =>
      MembersTold(members, SortedSet(Keys(members)), base, name, rest);
      if name in Keys(members) {
        KeyStep(members, name, rest);
      } else {
        Nothing(JObject(members), first, rest, |base| + |rest| + 1);
      }
    case Elem =>
      Nothing(JObject(members), first, rest, |base| + |rest| + 1);
      NoElementTold(members, base, rest);
  }

  lemma NoElementTold(members: seq<Member>, base: seq<Seg>, rest: seq<Seg>)
    ensures var t, path := MembersTrace(members, SortedSet(Keys(members)), base), Path(base + ([Elem] + rest));
            FirstVisit(t, path) == None && LastMark(t, path) == None
  {
    hide Path, FirstVisit, LastMark, MembersTrace;
    var keys := SortedSet(Keys(members));
    MembersAreBelow(members, keys, base);
    MembersOwnPaths(members, keys, base);
    NoElement(MembersTrace(members, keys, base), keys, base, rest);
    SilentTrace(MembersTrace(members, keys, base), base + ([Elem] + rest));
  }

  lemma {:induction false} ArrayTold(items: seq<Json>, base: seq<Seg>, first: Seg, rest: seq<Seg>)
    ensures var below := base + [Elem];
            TellsPlace(ItemsTrace(items, below) + Marks(items, below), JArray(items), base, [first] + rest)
    decreases SizeOfItems(items), 3
  {
    hide Path, FirstVisit, LastMark, ValuesAt, MixedAbove, MarkOf, FirstOf, ItemsTrace, Marks;
    var v, below, place := JArray(items), base + [Elem], base + ([first] + rest);
    var t, marks := ItemsTrace(items, below), Marks(items, below);
    ItemsOwnPaths(items, below);
    MarksOwnPaths(items, below);
    if first == Elem {
      assert place == below + rest;
      ElementsTold(items, below, rest);
      ElemStep(items, rest);
    } else {
      Nothing(v, first, rest, |base| + |rest| + 1);
      ItemsAreBelow(items, below);
      NoMember(t, base, first, rest);
      SilentTrace(t, place);
      SilentAdds(t, marks, place);
    }
  }

  lemma {:induction false} ElementsTold(items: seq<Json>, below: seq<Seg>, rest: seq<Seg>)
    ensures var t, path, depth := ItemsTrace(items, below) + Marks(items, below), Path(below + rest), |below| + |rest|;
            && FirstVisit(t, path) == FirstOf(ValuesOfEach(items, rest), depth)
            && LastMark(t, path)
               == MarkOf(if rest == [] then LastMixed([JArray(items)]) else MixedOfEach(items, rest), depth)
    decreases SizeOfItems(items), 2, |items| + 1
  {
    hide Path, FirstVisit, LastMark, ValuesOfEach, MixedOfEach, MarkOf, FirstOf, ItemsTrace, Marks, LastMixed;
    var t, marks := ItemsTrace(items, below), Marks(items, below);
    ItemsTold(items, below, rest);
    MarksOwnPaths(items, below);
    if rest == [] {
      assert below + rest == below;
      MarksTold(items, below);
      NoMixedHere(items, |below|);
      Appended(t, marks, Path(below));
    } else {
      assert below + rest != below;
      SilentAdds(t, marks, below + rest);
    }
  }

  lemma NoMixedHere(items: seq<Json>, depth: nat)
    ensures MarkOf(MixedOfEach(items, []), depth) == None
  {
  }

  lemma Nothing(v: Json, first: Seg, rest: seq<Seg>, depth: nat)
    requires match first case Key(name) => !v.JObject? || name !in Keys(v.members) case Elem => !v.JArray?
    ensures FirstOf(ValuesAt(v, [first] + rest), depth) == None && MarkOf(MixedAbove(v, [first] + rest), depth) == None
  {
    NoStep(v, first, rest);
  }

  lemma NoElement(t: seq<Action>, keys: seq<string>, base: seq<Seg>, rest: seq<Seg>)
    requires BelowMembers(t, keys, base)
    ensures Silent(t, base + ([Elem] + rest))
  {
    forall a | a in t ensures a.segs != base + ([Elem] + rest) {
      var k :| k in keys && base + [Key(k)] <= a.segs;
      assert a.segs[|base|] == (base + [Key(k)])[|base|];
      assert (base + ([Elem] + rest))[|base|] == Elem;
    }
  }

  lemma NoMember(t: seq<Action>, base: seq<Seg>, first: Seg, rest: seq<Seg>)
    requires AllBelow(t, base + [Elem]) && first != Elem
    ensures Silent(t, base + ([first] + rest)) && base + [Elem] != base + ([first] + rest)
  {
    assert (base + [Elem])[|base|] == Elem && (base + ([first] + rest))[|base|] == first;
  }

  // ---- what an accepted document's schema says ----

  /** The definition of a place, read off the document: mixed, and nullable as the last mixed
      array above it holds a null, if there is such an array; else that of its first value. */
  function DefinitionAt(v: Json, segs: seq<Seg>): FieldDef
    requires ValuesAt(v, segs) != []
  {
    var mixed, first := MixedAbove(v, segs), ValuesAt(v, segs)[0];
    if mixed.Some? then FieldDef(MixedKind, |segs|, HoldsNull(mixed.value))
    else FieldDef(KindOf(first), |segs|, first.JNull?)
  }

  /** What a completed walk says of a place. */
  lemma WalkSaysWhatIsThere(v: Json, segs: seq<Seg>)
    requires Run(Trace(v, []), START).Ok?
    ensures var fields := Run(Trace(v, []), START).value.fields;
            && (Path(segs) in fields <==> ValuesAt(v, segs) != [])
            && (Path(segs) in fields ==> fields[Path(segs)] == DefinitionAt(v, segs))
  {
    hide Path, FirstVisit, LastMark, ValuesAt, MixedAbove, Trace, Run, HoldsNull;
    var t, p := Trace(v, []), Run(Trace(v, []), START).value;
    WalkSucceedsIffInBounds(v);
    TraceIsCovered(v, []);
    assert RecordedAt(t, p, Path(segs));
    UnvisitedHasNoField(t, Path(segs));
    PlaceTold(v, [], segs);
    assert [] + segs == segs;
  }

  /** For every accepted document and every place: the place is a field exactly when the
      document has a value there, and the field is what the values say. */
  lemma SchemaSaysWhatIsThere(codec: Codec, v: Json, segs: seq<Seg>)
    requires Extract(codec, Some(v)).Ok?
    ensures var fields := Extract(codec, Some(v)).value.fields;
            && (Path(segs) in fields <==> ValuesAt(v, segs) != [])
            && (Path(segs) in fields ==> fields[Path(segs)] == DefinitionAt(v, segs))
  {
    hide Path, ValuesAt, DefinitionAt, Trace, Run, DocumentOf;
    WalkSaysWhatIsThere(v, segs);
  }

  // ---- the elements of one array ----

  lemma {:induction false} EachAppend(a: seq<Json>, b: seq<Json>, segs: seq<Seg>)
    ensures ValuesOfEach(a + b, segs) == ValuesOfEach(a, segs) + ValuesOfEach(b, segs)
    decreases |b|
  {
    hide ValuesAt;
    if b == [] {
      assert a + b == a;
    } else {
      assert (a + b)[..|a + b| - 1] == a + b[..|b| - 1];
      EachAppend(a, b[..|b| - 1], segs);
    }
  }

  /** Going on from a place is going on from each value there. */
  lemma {:induction false} ValuesFurther(v: Json, a: seq<Seg>, b: seq<Seg>)
    ensures ValuesAt(v, a + b) == ValuesOfEach(ValuesAt(v, a), b)
    decreases |a|, 0
  {
    if a == [] {
      assert a + b == b;
      assert [v][..0] == [];
    } else {
      assert (a + b)[1..] == a[1..] + b;
      match a[0]
      case Key(name) =>
        if v.JObject? && name in Keys(v.members) {
          ValuesFurther(Lookup(v.members, name), a[1..], b);
        }
      case Elem =>
        if v.JArray? {
          EachFurther(v.items, a[1..], b);
        }
    }
  }

  lemma {:induction false} EachFurther(items: seq<Json>, a: seq<Seg>, b: seq<Seg>)
    ensures ValuesOfEach(items, a + b) == ValuesOfEach(ValuesOfEach(items, a), b)
    decreases |a|, 1, |items|
  {
    hide ValuesAt;
    if items != [] {
      var n := |items| - 1;
      EachFurther(items[..n], a, b);
      ValuesFurther(items[n], a, b);
      EachAppend(ValuesOfEach(items[..n], a), ValuesAt(items[n], a), b);
    }
  }

  lemma {:induction false} EachItself(items: seq<Json>)
    ensures ValuesOfEach(items, []) == items
  {
    if items != [] {
      EachItself(items[..|items| - 1]);
    }
  }

  /** Where the only value at a place is an array with elements, their field is mixed exactly
      when two of them differ in type, else of their type, and nullable exactly when one of
      them is null. */
  lemma ElementsAreSummedUp(codec: Codec, v: Json, segs: seq<Seg>, items: seq<Json>)
    requires Extract(codec, Some(v)).Ok? && ValuesAt(v, segs) == [JArray(items)] && items != []
    ensures var fields, path := Extract(codec, Some(v)).value.fields, Path(segs + [Elem]);
            && path in fields
            && fields[path] == FieldDef(if IsMixed(JArray(items)) then MixedKind else KindOf(items[0]), |segs| + 1,
                                        HoldsNull(JArray(items)))
  {
    hide Path, Extract, ValuesAt, ValuesOfEach;
    var place := segs + [Elem];
    SchemaSaysWhatIsThere(codec, v, place);
    ValuesFurther(v, segs, [Elem]);
    OneArray(items);
    assert place[..|place| - 1] == segs;
    assert [JArray(items)][..0] == [];
    if !IsMixed(JArray(items)) {
      forall i | 0 <= i < |items| ensures items[i].JNull? <==> items[0].JNull? {
        assert i > 0 ==> KindOf(items[0]) == KindOf(items[i]);
      }
    }
  }

  lemma OneArray(items: seq<Json>)
    ensures ValuesOfEach([JArray(items)], [Elem]) == items
  {
    EachItself(items);
    assert [JArray(items)][..0] == [] && [Elem][1..] == [];
    assert ValuesAt(JArray(items), [Elem]) == ValuesOfEach(items, []);
  }
}
