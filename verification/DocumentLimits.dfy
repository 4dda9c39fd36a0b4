/** When a document is accepted and why it is refused, said of the document and not of the walks. */
module DocumentLimits {
  import opened Std
  import opened Text
  import opened JsonValues
  import opened JsonPath
  import opened SchemaExtraction
  import opened SchemaLimits
  import opened ExtractorTheorems
  import opened SchemaContent

  // ---- how many values a document holds ----

  /** The values a document holds, itself included: of members with one key, only the one
      that is read counts. */
  function Held(v: Json): nat
    decreases Size(v), 1
  {
    match v
    case JObject(members) => 1 + HeldOfMembers(members, SortedSet(Keys(members)))
    case JArray(items) => 1 + HeldOfItems(items)
    case _ => 1
  }

  function HeldOfMembers(members: seq<Member>, keys: seq<string>): nat
    requires forall k :: k in keys ==> k in Keys(members)
    decreases SizeOfMembers(members), 2, |keys|
  {
    if keys == [] then 0
    else HeldOfMembers(members, keys[..|keys| - 1]) + Held(Lookup(members, keys[|keys| - 1]))
  }

  function HeldOfItems(items: seq<Json>): nat
    decreases SizeOfItems(items), 2, |items|
  {
    if items == [] then 0
    else HeldOfItems(items[..|items| - 1]) + Held(items[|items| - 1])
  }

  /** The walk visits every value that is held, once. */
  lemma {:induction false} NodesAreHeld(v: Json, segs: seq<Seg>)
    ensures Nodes(Trace(v, segs)) == Held(v)
    decreases Size(v), 1
  {
    hide Path, FirstVisit, LastMark;
    var visit := VisitAt(segs, KindOf(v));
    Appended([visit], Below(v, segs), "");
    assert [visit][..0] == [] && Nodes([visit]) == 1;
    match v
    case JObject(members) => MemberNodes(members, SortedSet(Keys(members)), segs);
    case JArray(items) =>
      ItemNodes(items, segs + [Elem]);
      Appended(ItemsTrace(items, segs + [Elem]), Marks(items, segs + [Elem]), "");
      MarksAreNoNodes(items, segs + [Elem]);
    case _ => assert Below(v, segs) == [];
  }

  lemma MarksAreNoNodes(items: seq<Json>, segs: seq<Seg>)
    ensures Nodes(Marks(items, segs)) == 0
  {
  }

  lemma {:induction false} MemberNodes(members: seq<Member>, keys: seq<string>, segs: seq<Seg>)
    requires forall k :: k in keys ==> k in Keys(members)
    ensures Nodes(MembersTrace(members, keys, segs)) == HeldOfMembers(members, keys)
    decreases SizeOfMembers(members), 2, |keys|
  {
    hide Path, FirstVisit, LastMark;
    if keys != [] {
      var n := |keys| - 1;
      MemberNodes(members, keys[..n], segs);
      NodesAreHeld(Lookup(members, keys[n]), segs + [Key(keys[n])]);
      Appended(MembersTrace(members, keys[..n], segs), Trace(Lookup(members, keys[n]), segs + [Key(keys[n])]), "");
    }
  }

  lemma {:induction false} ItemNodes(items: seq<Json>, segs: seq<Seg>)
    ensures Nodes(ItemsTrace(items, segs)) == HeldOfItems(items)
    decreases SizeOfItems(items), 2, |items|
  {
    hide Path, FirstVisit, LastMark;
    if items != [] {
      var n := |items| - 1;
      ItemNodes(items[..n], segs);
      ItemIsSmaller(items, n);
      NodesAreHeld(items[n], segs);
      Appended(ItemsTrace(items[..n], segs), Trace(items[n], segs), "");
    }
  }

  // ---- places ----

  /** The document has a value at the place. */
  ghost predicate HasPlace(v: Json, segs: seq<Seg>) { ValuesAt(v, segs) != [] }

  ghost predicate PlacesAre(v: Json, places: set<seq<Seg>>) {
    forall segs :: segs in places <==> HasPlace(v, segs)
  }

  lemma VisitedIffPlace(v: Json, segs: seq<Seg>)
    ensures Path(segs) in VisitedPaths(Trace(v, [])) <==> HasPlace(v, segs)
  {
    hide Path, FirstVisit, LastMark, ValuesAt, MixedAbove, Trace;
    TraceIsCovered(v, []);
    UnvisitedHasNoField(Trace(v, []), Path(segs));
    PlaceTold(v, [], segs);
    assert [] + segs == segs;
  }

  lemma VisitsArePlaces(v: Json, a: Action)
    requires a in Trace(v, []) && a.Visit?
    ensures HasPlace(v, a.segs) && a.path == Path(a.segs)
  {
    hide Path, Trace, HasPlace;
    TraceOwnsPaths(v, []);
    VisitedIffPlace(v, a.segs);
  }

  lemma PlacesAreVisited(v: Json, segs: seq<Seg>) returns (a: Action)
    requires HasPlace(v, segs)
    ensures a in Trace(v, []) && a.Visit? && a.segs == segs && a.path == Path(segs)
  {
    hide Path, Trace, HasPlace;
    TraceOwnsPaths(v, []);
    VisitedIffPlace(v, segs);
    a :| a in Trace(v, []) && a.Visit? && a.path == Path(segs);
    PathsAreInjective(a.segs, segs);
  }

  /** A document has finitely many places. */
  lemma PlacesExist(v: Json) returns (places: set<seq<Seg>>)
    ensures PlacesAre(v, places)
  {
    hide Trace, HasPlace, Path;
    places := set a | a in Trace(v, []) && a.Visit? :: a.segs;
    forall segs ensures segs in places <==> HasPlace(v, segs) {
      if segs in places {
        var a :| a in Trace(v, []) && a.Visit? && a.segs == segs;
        VisitsArePlaces(v, a);
      }
      if HasPlace(v, segs) {
        var a := PlacesAreVisited(v, segs);
      }
    }
  }

  function PathsOf(places: set<seq<Seg>>): set<string> { set segs | segs in places :: Path(segs) }

  lemma {:induction false} OnePathEach(places: set<seq<Seg>>)
    ensures |PathsOf(places)| == |places|
    decreases |places|
  {
    hide Path;
    if places != {} {
      var one :| one in places;
      var rest := places - {one};
      OnePathEach(rest);
      if Path(one) in PathsOf(rest) {
        var other :| other in rest && Path(other) == Path(one);
        PathsAreInjective(one, other);
      }
      assert PathsOf(places) == PathsOf(rest) + {Path(one)};
    } else {
      assert PathsOf(places) == {};
    }
  }

  lemma PathsAreCounted(v: Json, places: set<seq<Seg>>)
    requires PlacesAre(v, places)
    ensures |VisitedPaths(Trace(v, []))| == |places|
  {
    hide Trace, HasPlace, Path;
    var t := Trace(v, []);
    OnePathEach(places);
    forall path ensures path in VisitedPaths(t) <==> path in PathsOf(places) {
      if path in VisitedPaths(t) {
        var a :| a in t && a.Visit? && a.path == path;
        VisitsArePlaces(v, a);
      }
      if path in PathsOf(places) {
        var segs :| segs in places && Path(segs) == path;
        var a := PlacesAreVisited(v, segs);
      }
    }
    assert VisitedPaths(t) == PathsOf(places);
  }

  // ---- acceptance ----

  /** At most 1024 values at no more than 256 places, none of them more than 16 steps deep or
      with a path of more than 1024 characters. */
  ghost predicate WithinLimits(v: Json, places: set<seq<Seg>>) {
    && Held(v) <= 1024 && |places| <= 256
    && forall segs :: segs in places ==> |segs| <= 16 && |Path(segs)| <= 1024
  }

  lemma BoundsAreLimits(v: Json, places: set<seq<Seg>>)
    requires PlacesAre(v, places)
    ensures InBounds(Trace(v, [])) <==> WithinLimits(v, places)
  {
    hide Trace, HasPlace, Path, Held, Nodes, VisitedPaths;
    var t := Trace(v, []);
    NodesAreHeld(v, []);
    PathsAreCounted(v, places);
    if InBounds(t) {
      forall segs | segs in places ensures |segs| <= 16 && |Path(segs)| <= 1024 {
        var a := PlacesAreVisited(v, segs);
        assert VisitInBounds(a);
      }
    }
    if WithinLimits(v, places) {
      forall a | a in t ensures VisitInBounds(a) {
        if a.Visit? {
          VisitsArePlaces(v, a);
        }
      }
    }
  }

  /** The fields are those of the document: one for each place, and what the values there say. */
  ghost predicate FieldsAre(v: Json, places: set<seq<Seg>>, fields: map<string, FieldDef>) {
    && fields.Keys == PathsOf(places)
    && forall segs :: segs in places && HasPlace(v, segs) && Path(segs) in fields ==>
      fields[Path(segs)] == DefinitionAt(v, segs)
  }

  lemma WalkedFieldsAre(v: Json, places: set<seq<Seg>>)
    requires PlacesAre(v, places) && Run(Trace(v, []), START).Ok?
    ensures FieldsAre(v, places, Run(Trace(v, []), START).value.fields)
  {
    hide Trace, Path, Run, VisitedPaths, DefinitionAt, ValuesAt;
    var t, fields := Trace(v, []), Run(Trace(v, []), START).value.fields;
    WalkSucceedsIffInBounds(v);
    RecordedKeys(t, Run(t, START).value);
    forall path ensures path in fields <==> path in PathsOf(places) {
      PlacedPath(v, places, path);
    }
    assert fields.Keys == PathsOf(places);
    forall segs | segs in places && HasPlace(v, segs) && Path(segs) in fields
      ensures fields[Path(segs)] == DefinitionAt(v, segs)
    {
      WalkSaysWhatIsThere(v, segs);
    }
  }

  lemma PlacedPath(v: Json, places: set<seq<Seg>>, path: string)
    requires PlacesAre(v, places)
    ensures path in VisitedPaths(Trace(v, [])) <==> path in PathsOf(places)
  {
    hide Trace, HasPlace, Path;
    if path in VisitedPaths(Trace(v, [])) {
      var a :| a in Trace(v, []) && a.Visit? && a.path == path;
      VisitsArePlaces(v, a);
    }
    if path in PathsOf(places) {
      var segs :| segs in places && Path(segs) == path;
      var a := PlacesAreVisited(v, segs);
    }
  }

  /** A document has a schema exactly when it is within the limits and the schema's own
      document, written out, has at most 65536 bytes. */
  lemma AcceptedIffWithinLimits(codec: Codec, v: Json, places: set<seq<Seg>>)
    requires PlacesAre(v, places)
    ensures Extract(codec, Some(v)).Ok? <==>
              && WithinLimits(v, places)
              && exists fields :: FieldsAre(v, places, fields) && |codec.encode(DocumentOf(KindOf(v), fields))| <= 65536
  {
    hide Trace, HasPlace, Path, Run, DocumentOf, FieldsAre, WithinLimits;
    BoundsAreLimits(v, places);
    WalkSucceedsIffInBounds(v);
    if Run(Trace(v, []), START).Ok? {
      var fields := Run(Trace(v, []), START).value.fields;
      WalkedFieldsAre(v, places);
      if other :| FieldsAre(v, places, other) && |codec.encode(DocumentOf(KindOf(v), other))| <= 65536 {
        FieldsAreUnique(v, places, fields, other);
      }
    }
  }

  lemma FieldsAreUnique(v: Json, places: set<seq<Seg>>, a: map<string, FieldDef>, b: map<string, FieldDef>)
    requires PlacesAre(v, places) && FieldsAre(v, places, a) && FieldsAre(v, places, b)
    ensures a == b
  {
    hide HasPlace, Path, DefinitionAt;
    forall path | path in a ensures path in b && a[path] == b[path] {
      assert path in PathsOf(places);
      var segs :| segs in places && Path(segs) == path;
    }
    assert a.Keys == b.Keys;
  }

  // ---- refusal ----

  /** The trace breaks the bound that the code names. */
  ghost predicate BreaksBound(t: seq<Action>, code: string) {
    || (code == "schema_node_limit_exceeded" && Nodes(t) > 1024)
    || (code == "schema_depth_exceeded" && exists a :: a in t && a.Visit? && |a.segs| > 16)
    || (code == "schema_path_too_long" && exists a :: a in t && a.Visit? && |a.path| > 1024)
    || (code == "schema_field_limit_exceeded" && |VisitedPaths(t)| > 256)
  }

  lemma BrokenStays(t: seq<Action>, code: string)
    requires t != [] && BreaksBound(t[..|t| - 1], code)
    ensures BreaksBound(t, code)
  {
    OneMore(t);
  }

  lemma WhyRefused(a: Action, q: Progress)
    requires Do(a, q).Err?
    ensures a.Visit?
    ensures match Do(a, q).code
            case "schema_node_limit_exceeded" => q.nodes >= 1024
            case "schema_depth_exceeded" => |a.segs| > 16
            case "schema_path_too_long" => |a.path| > 1024
            case "schema_field_limit_exceeded" => a.path !in q.fields.Keys && |q.fields.Keys| >= 256
            case _ => false
  {
  }

  lemma BrokenByLast(t: seq<Action>, q: Progress, code: string)
    requires t != [] && Recorded(t[..|t| - 1], q) && Do(t[|t| - 1], q) == Err(code)
    ensures BreaksBound(t, code)
  {
    hide RecordedAt, Do, VisitedPaths;
    OneMore(t);
    RecordedKeys(t[..|t| - 1], q);
    WhyRefused(t[|t| - 1], q);
    var before, last := t[..|t| - 1], t[|t| - 1];
    assert last in t;
    if last.path !in q.fields.Keys {
      assert |VisitedPaths(before) + {last.path}| == |VisitedPaths(before)| + 1;
    }
  }

  lemma {:induction false} RunBreaksBound(t: seq<Action>)
    requires Covered(t) && Run(t, START).Err?
    ensures BreaksBound(t, Run(t, START).code)
    decreases |t|
  {
    hide BreaksBound, Recorded;
    var before := t[..|t| - 1];
    RunIffInBounds(before);
    if Run(before, START).Err? {
      RunBreaksBound(before);
      BrokenStays(t, Run(before, START).code);
    } else {
      BrokenByLast(t, Run(before, START).value, Run(t, START).code);
    }
  }

  /** What is wrong with the document, by the code it is refused with. */
  ghost predicate IsReason(codec: Codec, v: Json, places: set<seq<Seg>>, code: string) {
    || (code == "schema_node_limit_exceeded" && Held(v) > 1024)
    || (code == "schema_depth_exceeded" && exists segs :: segs in places && |segs| > 16)
    || (code == "schema_path_too_long" && exists segs :: segs in places && |Path(segs)| > 1024)
    || (code == "schema_field_limit_exceeded" && |places| > 256)
    || (code == "schema_document_too_large"
        && exists fields :: FieldsAre(v, places, fields) && |codec.encode(DocumentOf(KindOf(v), fields))| > 65536)
  }

  lemma BrokenBoundIsReason(codec: Codec, v: Json, places: set<seq<Seg>>, code: string)
    requires PlacesAre(v, places) && BreaksBound(Trace(v, []), code)
    ensures IsReason(codec, v, places, code)
  {
    hide Trace, HasPlace, Path, Held, Nodes, VisitedPaths, FieldsAre, DocumentOf;
    var t := Trace(v, []);
    NodesAreHeld(v, []);
    PathsAreCounted(v, places);
    if code == "schema_depth_exceeded" {
      var a :| a in t && a.Visit? && |a.segs| > 16;
      VisitsArePlaces(v, a);
    } else if code == "schema_path_too_long" {
      var a :| a in t && a.Visit? && |a.path| > 1024;
      VisitsArePlaces(v, a);
    }
  }

  /** A JSON document is only ever refused for what the code says: too many values, a place
      too deep or with too long a path, too many places, or too large a schema. */
  lemma RefusedForAReason(codec: Codec, v: Json, places: set<seq<Seg>>)
    requires PlacesAre(v, places) && Extract(codec, Some(v)).Err?
    ensures IsReason(codec, v, places, Extract(codec, Some(v)).code)
  {
    hide Trace, Path, Run, BreaksBound, PlacesAre, FieldsAre, DocumentOf, Held;
    if Run(Trace(v, []), START).Err? {
      TraceIsCovered(v, []);
      RunBreaksBound(Trace(v, []));
      BrokenBoundIsReason(codec, v, places, Run(Trace(v, []), START).code);
    } else {
      WalkedFieldsAre(v, places);
    }
  }
}
