/** When the scalars of a document are extracted and why they are refused, said of the document. */
module ScalarLimits {
  import opened Std
  import opened JsonValues
  import opened JsonPath
  import opened FieldValueExtraction
  import opened ExtractorAgreement
  import opened SchemaContent
  import opened FieldContent
  import opened DocumentLimits

  /** The places of the document outside arrays. */
  ghost predicate OpenPlacesAre(v: Json, open: set<seq<Seg>>) {
    forall segs :: segs in open <==> ArrayFree(segs) && HasPlace(v, segs)
  }

  /** A document has finitely many of them. */
  lemma OpenPlacesExist(v: Json) returns (open: set<seq<Seg>>)
    ensures OpenPlacesAre(v, open)
  {
    hide HasPlace, ArrayFree;
    var places := PlacesExist(v);
    open := set segs | segs in places && ArrayFree(segs);
  }

  predicate IsScalar(v: Json) { !v.JNull? && !v.JArray? && !v.JObject? }

  /** The place holds a scalar. */
  ghost predicate ScalarThere(v: Json, segs: seq<Seg>) { exists w :: ValuesAt(v, segs) == [w] && IsScalar(w) }

  ghost predicate NotFiniteThere(v: Json, segs: seq<Seg>) {
    exists w :: ValuesAt(v, segs) == [w] && w.JFloat? && w.f.NotFinite?
  }

  ghost function ScalarPlaces(v: Json, open: set<seq<Seg>>): set<seq<Seg>> {
    set segs | segs in open && ScalarThere(v, segs)
  }

  // ---- stops are places ----

  lemma {:induction false} OneValue(v: Json, segs: seq<Seg>)
    requires ArrayFree(segs) && HasPlace(v, segs)
    ensures |ValuesAt(v, segs)| == 1
    decreases |segs|
  {
    if segs != [] {
      var rest := segs[1..];
      assert segs[0] in segs && forall s :: s in rest ==> s in segs;
      OneValue(Lookup(v.members, segs[0].name), rest);
    }
  }

  lemma StopsArePlaces(v: Json, a: Stop)
    requires a in Stops(v, [])
    ensures ArrayFree(a.segs) && HasPlace(v, a.segs) && ValuesAt(v, a.segs) == [a.value] && a.path == Path(a.segs)
  {
    hide Path, Stops, ValuesAt;
    StopPlaces(v, a);
    assert [] + a.segs == a.segs;
    StopsAreValues(v, [], a.segs, a.value);
  }

  lemma PlacesAreStops(v: Json, segs: seq<Seg>) returns (a: Stop)
    requires ArrayFree(segs) && HasPlace(v, segs)
    ensures a in Stops(v, []) && a.segs == segs && a.path == Path(segs) && ValuesAt(v, segs) == [a.value]
  {
    hide Path, Stops, ValuesAt;
    OneValue(v, segs);
    var w := ValuesAt(v, segs)[0];
    assert ValuesAt(v, segs) == [w] && [] + segs == segs;
    StopsAreValues(v, [], segs, w);
    a := StopAt(segs, w);
  }

  lemma {:induction false} DistinctAreCounted(t: seq<Stop>)
    requires DistinctPaths(t)
    ensures |set a | a in t :: a.path| == |t|
    decreases |t|
  {
    var paths := set a | a in t :: a.path;
    if t == [] {
      assert paths == {};
    } else {
      var n := |t| - 1;
      assert t == t[..n] + [t[n]];
      DistinctAreCounted(t[..n]);
      var before := set a | a in t[..n] :: a.path;
      assert paths == before + {t[n].path};
      assert t[n].path !in before;
    }
  }

  lemma StopsAreCounted(v: Json, open: set<seq<Seg>>)
    requires OpenPlacesAre(v, open)
    ensures |Stops(v, [])| == |open|
  {
    hide Path, Stops, HasPlace, ArrayFree;
    var t := Stops(v, []);
    var paths := set a | a in t :: a.path;
    StopPathsAreDistinct(v);
    DistinctAreCounted(t);
    OnePathEach(open);
    forall path ensures path in paths <==> path in PathsOf(open) {
      if path in paths {
        var a :| a in t && a.path == path;
        StopsArePlaces(v, a);
      }
      if path in PathsOf(open) {
        var segs :| segs in open && Path(segs) == path;
        var a := PlacesAreStops(v, segs);
      }
    }
    assert paths == PathsOf(open);
  }

  lemma KeptAreCounted(v: Json, open: set<seq<Seg>>)
    requires OpenPlacesAre(v, open)
    ensures |StopPaths(Stops(v, []), Kept)| == |ScalarPlaces(v, open)|
  {
    hide Path, Stops, HasPlace, ArrayFree, ValuesAt;
    var t, scalars := Stops(v, []), ScalarPlaces(v, open);
    OnePathEach(scalars);
    forall path ensures path in StopPaths(t, Kept) <==> path in PathsOf(scalars) {
      if path in StopPaths(t, Kept) {
        var a :| a in t && ClassOf(a.value) == Kept && a.path == path;
        StopsArePlaces(v, a);
      }
      if path in PathsOf(scalars) {
        var segs :| segs in scalars && Path(segs) == path;
        var a := PlacesAreStops(v, segs);
      }
    }
    assert StopPaths(t, Kept) == PathsOf(scalars);
  }

  // ---- acceptance ----

  /** At most 1024 places outside arrays, none more than 16 steps deep, with a path of more
      than 1024 characters or with a number that is not finite, and at most 256 scalars. */
  ghost predicate ScalarsWithinLimits(v: Json, open: set<seq<Seg>>) {
    && |open| <= 1024 && |ScalarPlaces(v, open)| <= 256
    && forall segs :: segs in open ==> |segs| <= 16 && |Path(segs)| <= 1024 && !NotFiniteThere(v, segs)
  }

  lemma StopInBoundsIff(v: Json, a: Stop)
    requires a in Stops(v, [])
    ensures StopInBounds(a) <==> |a.segs| <= 16 && |Path(a.segs)| <= 1024 && !NotFiniteThere(v, a.segs)
  {
    hide Path, Stops, HasPlace, ValuesAt;
    StopsArePlaces(v, a);
  }

  lemma ScalarBoundsAreLimits(v: Json, open: set<seq<Seg>>)
    requires OpenPlacesAre(v, open)
    ensures StopsInBounds(Stops(v, [])) <==> ScalarsWithinLimits(v, open)
  {
    hide Path, Stops, HasPlace, ArrayFree, ValuesAt, StopInBounds, NotFiniteThere, ScalarPlaces;
    var t := Stops(v, []);
    StopsAreCounted(v, open);
    KeptAreCounted(v, open);
    if StopsInBounds(t) {
      forall segs | segs in open ensures |segs| <= 16 && |Path(segs)| <= 1024 && !NotFiniteThere(v, segs) {
        var a := PlacesAreStops(v, segs);
        StopInBoundsIff(v, a);
      }
    }
    if ScalarsWithinLimits(v, open) {
      forall a | a in t ensures StopInBounds(a) {
        StopsArePlaces(v, a);
        StopInBoundsIff(v, a);
      }
    }
  }

  /** The scalars of a payload are extracted exactly when it has at most 65536 bytes and is an
      object within the limits. */
  lemma ExtractedIffWithinLimits(size: nat, v: Json, open: set<seq<Seg>>)
    requires OpenPlacesAre(v, open)
    ensures ExtractValues(size, Some(v)).Ok? <==> size <= 65536 && v.JObject? && ScalarsWithinLimits(v, open)
  {
    hide Stops, TakeStops, StopsInBounds, ScalarsWithinLimits, OpenPlacesAre;
    ScalarBoundsAreLimits(v, open);
    if v.JObject? {
      ScalarWalkSucceedsIffInBounds(v);
    }
  }

  // ---- refusal ----

  /** The stops break the bound that the code names. */
  ghost predicate BreaksStopBound(t: seq<Stop>, code: string) {
    || (code == "field_node_limit_exceeded" && |t| > 1024)
    || (code == "field_depth_exceeded" && exists a :: a in t && |a.segs| > 16)
    || (code == "field_path_too_long" && exists a :: a in t && |a.path| > 1024)
    || (code == "field_count_exceeded" && |StopPaths(t, Kept)| > 256)
    || (code == "non_finite_number" && exists a :: a in t && a.value.JFloat? && a.value.f.NotFinite?)
  }

  lemma WhyStopped(a: Stop, q: Tally)
    requires TakeStop(a, q).Err? && (a.segs == [] ==> a.value.JObject?)
    ensures match TakeStop(a, q).code
            case "field_node_limit_exceeded" => q.nodes >= 1024
            case "field_depth_exceeded" => |a.segs| > 16
            case "field_path_too_long" => |a.path| > 1024
            case "field_count_exceeded" => ClassOf(a.value).Kept? && |q.values.Keys| >= 256
            case "non_finite_number" => a.value.JFloat? && a.value.f.NotFinite?
            case _ => false
  {
  }

  lemma BrokenStopsStay(before: seq<Stop>, last: Stop, code: string)
    requires BreaksStopBound(before, code) && NewPath(before, last)
    ensures BreaksStopBound(before + [last], code)
  {
    OneMoreStop(before, last, Kept);
    assert forall a :: a in before ==> a in before + [last];
  }

  lemma BrokenByStop(before: seq<Stop>, last: Stop, q: Tally)
    requires NewPath(before, last) && Tallied(before, q) && TakeStop(last, q).Err?
    requires last.segs == [] ==> last.value.JObject?
    ensures BreaksStopBound(before + [last], TakeStop(last, q).code)
  {
    hide TakeStop, StopPaths;
    WhyStopped(last, q);
    OneMoreStop(before, last, Kept);
    assert last in before + [last];
  }

  lemma {:induction false} TakeBreaksBound(t: seq<Stop>)
    requires DistinctPaths(t) && forall a :: a in t && a.segs == [] ==> a.value.JObject?
    requires TakeStops(t, EMPTY_TALLY).Err?
    ensures BreaksStopBound(t, TakeStops(t, EMPTY_TALLY).code)
    decreases |t|
  {
    hide BreaksStopBound, Tallied;
    var before, last := t[..|t| - 1], t[|t| - 1];
    assert t == before + [last];
    LastPathIsNew(before, last);
    TakeIffInBounds(before);
    if TakeStops(before, EMPTY_TALLY).Err? {
      TakeBreaksBound(before);
      BrokenStopsStay(before, last, TakeStops(before, EMPTY_TALLY).code);
    } else {
      BrokenByStop(before, last, TakeStops(before, EMPTY_TALLY).value);
    }
  }

  /** What is wrong with the payload, by the code it is refused with. */
  ghost predicate IsScalarReason(size: nat, v: Json, open: set<seq<Seg>>, code: string) {
    || (code == "document_too_large" && size > 65536)
    || (code == "root_not_object" && !v.JObject?)
    || (code == "field_node_limit_exceeded" && |open| > 1024)
    || (code == "field_depth_exceeded" && exists segs :: segs in open && |segs| > 16)
    || (code == "field_path_too_long" && exists segs :: segs in open && |Path(segs)| > 1024)
    || (code == "field_count_exceeded" && |ScalarPlaces(v, open)| > 256)
    || (code == "non_finite_number" && exists segs :: segs in open && NotFiniteThere(v, segs))
  }

  lemma BrokenStopIsReason(size: nat, v: Json, open: set<seq<Seg>>, code: string)
    requires OpenPlacesAre(v, open) && BreaksStopBound(Stops(v, []), code)
    ensures IsScalarReason(size, v, open, code)
  {
    hide Path, Stops, HasPlace, ArrayFree, ValuesAt, ScalarPlaces, StopPaths;
    var t := Stops(v, []);
    StopsAreCounted(v, open);
    KeptAreCounted(v, open);
    forall a | a in t ensures a.segs in open && a.path == Path(a.segs) && ValuesAt(v, a.segs) == [a.value] {
      StopsArePlaces(v, a);
    }
  }

  /** Extraction is only ever refused for what the code says: too large a payload, no object,
      too many places or scalars, a place too deep or with too long a path, or a number
      that is not finite. */
  lemma ScalarsRefusedForAReason(size: nat, v: Json, open: set<seq<Seg>>)
    requires OpenPlacesAre(v, open) && ExtractValues(size, Some(v)).Err?
    ensures IsScalarReason(size, v, open, ExtractValues(size, Some(v)).code)
  {
    hide Stops, TakeStops, BreaksStopBound, OpenPlacesAre, Path, NotFiniteThere, ScalarPlaces;
    if size <= 65536 && v.JObject? {
      StopPathsAreDistinct(v);
      TakeBreaksBound(Stops(v, []));
      BrokenStopIsReason(size, v, open, TakeStops(Stops(v, []), EMPTY_TALLY).code);
    }
  }
}
