/** What the scalar extraction takes from a document, place by place, without mention of the walk. */
module FieldContent {
  import opened Std
  import opened Text
  import opened JsonValues
  import opened JsonPath
  import opened FieldValueExtraction
  import opened ExtractorAgreement
  import opened SchemaContent
  import ExtractorTheorems
  import SchemaExtraction

  /** The JSON value is this scalar. */
  predicate Shows(w: Json, s: Scalar) {
    match s
    case IntegerValue(i) => w == JInt(i)
    case FloatValue(r) => w == JFloat(Finite(r))
    case BooleanValue(b) => w == JBool(b)
    case StringValue(t) => w == JString(t)
  }

  lemma {:induction false} StopsAreBelow(v: Json, base: seq<Seg>)
    ensures forall a :: a in Stops(v, base) ==> base <= a.segs && (a.segs == base ==> a.value == v)
    decreases Size(v), 1
  {
    if v.JObject? {
      MemberStopsAreBelow(v.members, SortedSet(Keys(v.members)), base);
    }
  }

  /** A stop below an object belongs to one member. */
  lemma {:induction false} MemberStopsAreBelow(members: seq<Member>, keys: seq<string>, base: seq<Seg>)
    requires forall k :: k in keys ==> k in Keys(members)
    ensures forall a :: a in MemberStops(members, keys, base) ==>
              exists k :: k in keys && base + [Key(k)] <= a.segs && a in Stops(Lookup(members, k), base + [Key(k)])
    ensures forall a :: a in MemberStops(members, keys, base) ==> base <= a.segs && a.segs != base
    decreases SizeOfMembers(members), 2, |keys|
  {
    if keys != [] {
      var n := |keys| - 1;
      assert keys[n] in keys && forall k :: k in keys[..n] ==> k in keys;
      MemberStopsAreBelow(members, keys[..n], base);
      StopsAreBelow(Lookup(members, keys[n]), base + [Key(keys[n])]);
      forall a | a in MemberStops(members, keys, base)
        ensures exists k :: k in keys && base + [Key(k)] <= a.segs && a in Stops(Lookup(members, k), base + [Key(k)])
        ensures base <= a.segs && a.segs != base
      {
        if a in MemberStops(members, keys[..n], base) {
        } else {
          assert base <= base + [Key(keys[n])];
        }
      }
    }
  }

  lemma {:induction false} MemberStopsHold(members: seq<Member>, keys: seq<string>, base: seq<Seg>, name: string,
                                           a: Stop)
    requires (forall k :: k in keys ==> k in Keys(members)) && name in keys
    requires a in Stops(Lookup(members, name), base + [Key(name)])
    ensures a in MemberStops(members, keys, base)
    decreases |keys|
  {
    hide Stops;
    var n := |keys| - 1;
    if keys[n] != name {
      MemberStopsHold(members, keys[..n], base, name, a);
    }
  }

  /** A stop at a member's place is one of the member's. */
  lemma MemberOnly(members: seq<Member>, base: seq<Seg>, name: string, rest: seq<Seg>, a: Stop)
    requires a.segs == base + ([Key(name)] + rest)
    ensures a in MemberStops(members, SortedSet(Keys(members)), base) <==>
              name in Keys(members) && a in Stops(Lookup(members, name), base + [Key(name)])
  {
    hide Path, Stops, MemberStops;
    var keys := SortedSet(Keys(members));
    MemberStopsAreBelow(members, keys, base);
    if a in MemberStops(members, keys, base) {
      var k :| k in keys && base + [Key(k)] <= a.segs && a in Stops(Lookup(members, k), base + [Key(k)]);
      assert a.segs[|base|] == Key(name) && (base + [Key(k)])[|base|] == Key(k);
    }
    if name in Keys(members) && a in Stops(Lookup(members, name), base + [Key(name)]) {
      MemberStopsHold(members, keys, base, name, a);
    }
  }

  lemma StopHere(v: Json, base: seq<Seg>, w: Json)
    ensures StopAt(base, w) in Stops(v, base) <==> w == v
  {
    hide Path, StopsBelow;
    assert Stops(v, base)[0] == StopAt(base, v);
    StopsAreBelow(v, base);
  }

  lemma StopStep(v: Json, base: seq<Seg>, name: string, rest: seq<Seg>, a: Stop)
    requires a.segs == base + ([Key(name)] + rest)
    ensures a in Stops(v, base) <==>
              v.JObject? && name in Keys(v.members) && a in Stops(Lookup(v.members, name), base + [Key(name)])
  {
    hide Path, MemberStops;
    assert a != StopAt(base, v) by {
      assert |a.segs| > |base|;
    }
    if v.JObject? {
      MemberOnly(v.members, base, name, rest, a);
    }
  }

  lemma ValuesHere(v: Json)
    ensures ValuesAt(v, []) == [v]
  {
  }

  /** Outside arrays the walk stops at exactly the values the document has there. */
  lemma {:induction false} StopsAreValues(v: Json, base: seq<Seg>, segs: seq<Seg>, w: Json)
    requires ArrayFree(segs)
    ensures StopAt(base + segs, w) in Stops(v, base) <==> ValuesAt(v, segs) == [w]
    decreases |segs|
  {
    hide Path, Stops, ValuesAt, MixedAbove;
    if segs == [] {
      assert base + segs == base;
      StopHere(v, base, w);
      ValuesHere(v);
    } else {
      var name, rest := segs[0].name, segs[1..];
      assert segs == [Key(name)] + rest && ArrayFree(rest);
      StopStep(v, base, name, rest, StopAt(base + segs, w));
      if v.JObject? && name in Keys(v.members) {
        StopsAreValues(Lookup(v.members, name), base + [Key(name)], rest, w);
        assert base + [Key(name)] + rest == base + segs;
        KeyStep(v.members, name, rest);
      } else {
        NoStep(v, Key(name), rest);
      }
    }
  }

  /** For every accepted document and every place: a value is extracted for the place exactly
      when it is outside arrays and the document has a scalar there, and it is that scalar. */
  lemma ValuesAreWhatIsThere(size: nat, v: Json, segs: seq<Seg>)
    requires ExtractValues(size, Some(v)).Ok?
    ensures var values := ExtractValues(size, Some(v)).value.values;
            && (Path(segs) in values <==> ArrayFree(segs) && exists w, s :: ValuesAt(v, segs) == [w] && Shows(w, s))
            && (Path(segs) in values ==> exists w :: ValuesAt(v, segs) == [w] && Shows(w, values[Path(segs)]))
  {
    hide Path, Stops, ValuesAt, TakeStops, StopsInBounds, DistinctPaths;
    var t, values := Stops(v, []), ExtractValues(size, Some(v)).value.values;
    ScalarWalkSucceedsIffInBounds(v);
    assert [] + segs == segs;
    if Path(segs) in values {
      var a := KeptAt(t, TakeStops(t, EMPTY_TALLY).value, Path(segs));
      StopPlaces(v, a);
      PathsAreInjective(a.segs, segs);
      StopsAreValues(v, [], segs, a.value);
    }
    if ArrayFree(segs) {
      if w, s :| ValuesAt(v, segs) == [w] && Shows(w, s) {
        StopsAreValues(v, [], segs, w);
        assert StopAt(segs, w) in t && ClassOf(w).Kept?;
        assert StopAt(segs, w).path in StopPaths(t, Kept);
      }
    }
  }

  lemma StopPlaces(v: Json, a: Stop)
    requires a in Stops(v, [])
    ensures ArrayFree(a.segs) && a == StopAt(a.segs, a.value)
  {
    hide Stops, SchemaExtraction.Trace;
    StopPathsAreTheirOwn(v, []);
    StopsAreArrayFreeVisits(v, []);
    var i :| 0 <= i < |Stops(v, [])| && Stops(v, [])[i] == a;
    var visit := VisitsOf(Stops(v, []))[i];
    assert visit in ArrayFreePart(SchemaExtraction.Trace(v, []));
    ExtractorTheorems.PartMembers(SchemaExtraction.Trace(v, []), visit);
  }

  lemma KeptAt(t: seq<Stop>, p: Tally, path: string) returns (a: Stop)
    requires Tallied(t, p) && path in p.values
    ensures a in t && a.path == path && Shows(a.value, p.values[path])
  {
    assert path in StopPaths(t, Kept);
    a :| a in t && ClassOf(a.value).Kept? && a.path == path;
    assert Ok(p.values[path]) == ScalarOf(a.value);
  }
}
