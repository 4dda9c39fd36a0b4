/** The bounded structural walk over a JSON document. */
module SchemaExtraction {
  import opened Std
  import opened Text
  import opened JsonValues
  import opened JsonPath

  const MAX_DEPTH := 16
  const MAX_FIELDS := 256
  const MAX_NODES := 1024
  const MAX_PATH_LENGTH := 1024
  const MAX_DOCUMENT_BYTES := 65536

  datatype FieldDef = FieldDef(kind: Kind, depth: nat, nullable: bool)

  // ---- the walk as a list of actions, and the bounded machine that performs them ----

  datatype Action =
    | Visit(segs: seq<Seg>, path: string, kind: Kind)
    | MarkMixed(segs: seq<Seg>, path: string, nullable: bool)

  function VisitAt(segs: seq<Seg>, kind: Kind): Action { Visit(segs, Path(segs), kind) }

  function MarkAt(segs: seq<Seg>, nullable: bool): Action { MarkMixed(segs, Path(segs), nullable) }

  function KindsOf(items: seq<Json>): set<Kind> {
    set x | x in items :: KindOf(x)
  }

  /** What the walk does at and below the location `segs`, bounds aside. */
  function Trace(v: Json, segs: seq<Seg>): seq<Action>
    decreases Size(v), 1
  {
    [VisitAt(segs, KindOf(v))] + Below(v, segs)
  }

  function Below(v: Json, segs: seq<Seg>): seq<Action>
    decreases Size(v), 0
  {
    match v
    case JObject(members) => MembersTrace(members, SortedSet(Keys(members)), segs)
    case JArray(items) => ItemsTrace(items, segs + [Elem]) + Marks(items, segs + [Elem])
    case _ => []
  }

  function MembersTrace(members: seq<Member>, keys: seq<string>, segs: seq<Seg>): seq<Action>
    requires forall k :: k in keys ==> k in Keys(members)
    decreases SizeOfMembers(members), 2, |keys|
  {
    if keys == [] then []
    else
      var n := |keys| - 1;
      MembersTrace(members, keys[..n], segs) + Trace(Lookup(members, keys[n]), segs + [Key(keys[n])])
  }

  function ItemsTrace(items: seq<Json>, segs: seq<Seg>): seq<Action>
    decreases SizeOfItems(items), 2, |items|
  {
    if items == [] then []
    else
      var n := |items| - 1;
      ItemsTrace(items[..n], segs) + Trace(items[n], segs)
  }

  datatype Progress = Progress(fields: map<string, FieldDef>, nodes: nat)

  const START := Progress(map[], 0)

  function Do(a: Action, p: Progress): Result<Progress> {
    match a
    case Visit(segs, path, kind) =>
      if p.nodes + 1 > MAX_NODES then Err("schema_node_limit_exceeded")
      else if |segs| > MAX_DEPTH then Err("schema_depth_exceeded")
      else if |path| > MAX_PATH_LENGTH then Err("schema_path_too_long")
      else if path in p.fields then Ok(p.(nodes := p.nodes + 1))
      else if |p.fields| >= MAX_FIELDS then Err("schema_field_limit_exceeded")
      else Ok(Progress(p.fields[path := FieldDef(kind, |segs|, kind.NullKind?)], p.nodes + 1))
    case MarkMixed(segs, path, nullable) =>
      Ok(p.(fields := p.fields[path := FieldDef(MixedKind, |segs|, nullable)]))
  }

  function Run(t: seq<Action>, p: Progress): Result<Progress>
    decreases |t|
  {
    if t == [] then Ok(p)
    else
      match Run(t[..|t| - 1], p)
      case Err(code) => Err(code)
      case Ok(q) => Do(t[|t| - 1], q)
  }

  lemma {:induction false} RunAppend(a: seq<Action>, b: seq<Action>, p: Progress)
    ensures Run(a + b, p) == match Run(a, p) case Err(code) => Err(code) case Ok(q) => Run(b, q)
    decreases |b|
  {
    if b == [] {
      assert a + b == a;
    } else {
      var n := |b| - 1;
      assert (a + b)[..|a + b| - 1] == a + b[..n];
      RunAppend(a, b[..n], p);
    }
  }

  lemma RunOne(a: Action, p: Progress)
    ensures Run([a], p) == Do(a, p)
  {
  }

  function Then(r: Result<Progress>, t: seq<Action>): Result<Progress> {
    match r case Err(code) => Err(code) case Ok(q) => Run(t, q)
  }

  function RunMembers(members: seq<Member>, keys: seq<string>, segs: seq<Seg>, p: Progress): Result<Progress>
    requires forall k :: k in keys ==> k in Keys(members)
  {
    Run(MembersTrace(members, keys, segs), p)
  }

  function RunItems(items: seq<Json>, segs: seq<Seg>, p: Progress): Result<Progress> {
    Run(ItemsTrace(items, segs), p)
  }

  lemma MembersStep(members: seq<Member>, keys: seq<string>, k: nat, segs: seq<Seg>, p: Progress)
    requires k < |keys| && forall x :: x in keys ==> x in Keys(members)
    ensures keys[k] in Keys(members)
    ensures RunMembers(members, keys[..k + 1], segs, p)
         == Then(RunMembers(members, keys[..k], segs, p), Trace(Lookup(members, keys[k]), segs + [Key(keys[k])]))
  {
    assert keys[k] in keys;
    var more := keys[..k + 1];
    assert more[..k] == keys[..k] && more[k] == keys[k];
    RunAppend(MembersTrace(members, keys[..k], segs), Trace(Lookup(members, keys[k]), segs + [Key(keys[k])]), p);
  }

  lemma {:induction false} MembersRunStops(members: seq<Member>, keys: seq<string>, k: nat, segs: seq<Seg>, p: Progress)
    requires k <= |keys| && forall x :: x in keys ==> x in Keys(members)
    requires RunMembers(members, keys[..k], segs, p).Err?
    ensures RunMembers(members, keys, segs, p) == RunMembers(members, keys[..k], segs, p)
    decreases |keys| - k
  {
    if k == |keys| {
      assert keys[..k] == keys;
    } else {
      MembersStep(members, keys, k, segs, p);
      MembersRunStops(members, keys, k + 1, segs, p);
    }
  }

  lemma ItemsStep(items: seq<Json>, k: nat, segs: seq<Seg>, p: Progress)
    requires k < |items|
    ensures RunItems(items[..k + 1], segs, p) == Then(RunItems(items[..k], segs, p), Trace(items[k], segs))
  {
    var more := items[..k + 1];
    assert more[..k] == items[..k] && more[k] == items[k];
    RunAppend(ItemsTrace(items[..k], segs), Trace(items[k], segs), p);
  }

  lemma {:induction false} ItemsRunStops(items: seq<Json>, k: nat, segs: seq<Seg>, p: Progress)
    requires k <= |items| && RunItems(items[..k], segs, p).Err?
    ensures RunItems(items, segs, p) == RunItems(items[..k], segs, p)
    decreases |items| - k
  {
    if k == |items| {
      assert items[..k] == items;
    } else {
      ItemsStep(items, k, segs, p);
      ItemsRunStops(items, k + 1, segs, p);
    }
  }

  /** The override that follows an array's elements. */
  function Marks(items: seq<Json>, segs: seq<Seg>): seq<Action> {
    if |KindsOf(items)| > 1 then [MarkAt(segs, NullKind in KindsOf(items))] else []
  }

  function MarkFields(items: seq<Json>, path: string, depth: nat,
                      fields: map<string, FieldDef>): map<string, FieldDef> {
    if |KindsOf(items)| > 1 then fields[path := FieldDef(MixedKind, depth, NullKind in KindsOf(items))] else fields
  }

  lemma MarksRun(items: seq<Json>, segs: seq<Seg>, p: Progress)
    ensures Run(Marks(items, segs), p) == Ok(p.(fields := MarkFields(items, Path(segs), |segs|, p.fields)))
  {
  }

  lemma KindsGrow(items: seq<Json>, k: nat)
    requires k < |items|
    ensures KindsOf(items[..k + 1]) == KindsOf(items[..k]) + {KindOf(items[k])}
  {
  }

  /** Visiting the children, after the container itself has been recorded. */
  function RunBelow(v: Json, segs: seq<Seg>, p: Progress): Result<Progress> {
    match v
    case JObject(members) => RunMembers(members, SortedSet(Keys(members)), segs, p)
    case JArray(items) => Then(RunItems(items, segs + [Elem], p), Marks(items, segs + [Elem]))
    case _ => Ok(p)
  }

  lemma WalkSteps(v: Json, segs: seq<Seg>, p: Progress)
    ensures Run(Trace(v, segs), p)
         == match Do(VisitAt(segs, KindOf(v)), p) case Err(code) => Err(code) case Ok(q) => RunBelow(v, segs, q)
  {
    var visit := VisitAt(segs, KindOf(v));
    RunAppend([visit], Below(v, segs), p);
    RunOne(visit, p);
    if Do(visit, p).Ok? && v.JArray? {
      RunAppend(ItemsTrace(v.items, segs + [Elem]), Marks(v.items, segs + [Elem]), Do(visit, p).value);
    }
  }

  // ---- the extractor ----

  /** The schema document: root type, then the fields in path order. */
  datatype Entry = Entry(path: string, field: FieldDef)
  datatype SchemaDocument = SchemaDocument(rootType: Kind, entries: seq<Entry>)
  datatype SchemaObservation = SchemaObservation(rootType: Kind, fields: map<string, FieldDef>,
                                                 document: SchemaDocument, fingerprint: string)

  /** json.dumps of a schema document, and SHA-256 as hex digits. */
  datatype Codec = Codec(encode: SchemaDocument -> seq<nat>, sha256: seq<nat> -> string)

  function DocumentOf(rootType: Kind, fields: map<string, FieldDef>): SchemaDocument {
    var paths := SortedSet(fields.Keys);
    SchemaDocument(rootType,
                   seq(|paths|, i requires 0 <= i < |paths| => assert paths[i] in paths;
                       Entry(paths[i], fields[paths[i]])))
  }

  function Observe(codec: Codec, rootType: Kind, fields: map<string, FieldDef>): Result<SchemaObservation> {
    var document := DocumentOf(rootType, fields);
    var encoded := codec.encode(document);
    if |encoded| > MAX_DOCUMENT_BYTES then Err("schema_document_too_large")
    else Ok(SchemaObservation(rootType, fields, document, codec.sha256(encoded)))
  }

  /** The whole extraction; no parsed value means that the payload was not JSON. */
  function Extract(codec: Codec, parsed: Option<Json>): Result<SchemaObservation> {
    match parsed
    case None => Err("invalid_json")
    case Some(v) =>
      match Run(Trace(v, []), START)
      case Err(code) => Err(code)
      case Ok(p) => Observe(codec, KindOf(v), p.fields)
  }

  lemma ItemsStart(items: seq<Json>, segs: seq<Seg>, p: Progress)
    ensures RunItems(items[..0], segs, p) == Ok(p) && KindsOf(items[..0]) == {}
  {
  }

  class SchemaExtractor {
    var fields: map<string, FieldDef>
    var nodes: nat

    constructor () {
      fields, nodes := map[], 0;
    }

    method Walk(value: Json, path: string, depth: nat, ghost segs: seq<Seg>) returns (r: Result<Kind>)
      requires path == Path(segs) && depth == |segs|
      modifies this
      ensures match Run(Trace(value, segs), Progress(old(fields), old(nodes)))
              case Ok(p) => r == Ok(KindOf(value)) && fields == p.fields && nodes == p.nodes
              case Err(code) => r == Err(code)
      decreases Size(value), 0
    {
      ghost var p0 := Progress(fields, nodes);
      hide Path, Run, Trace;
      WalkSteps(value, segs, p0);
      nodes := nodes + 1;
      if nodes > MAX_NODES {
        return Err("schema_node_limit_exceeded");
      }
      if depth > MAX_DEPTH {
        return Err("schema_depth_exceeded");
      }
      if |path| > MAX_PATH_LENGTH {
        return Err("schema_path_too_long");
      }
      var kind := KindOf(value);
      if path !in fields {
        if |fields| >= MAX_FIELDS {
          return Err("schema_field_limit_exceeded");
        }
        fields := fields[path := FieldDef(kind, depth, kind.NullKind?)];
      }
      assert Do(VisitAt(segs, kind), p0) == Ok(Progress(fields, nodes));
      r := Ok(kind);
      if value.JObject? {
        r := WalkMembers(value.members, path, depth, segs);
      } else if value.JArray? {
        r := WalkItems(value.items, path, depth, segs);
      }
    }

    /** The loop over a dictionary's sorted keys. */
    method WalkMembers(members: seq<Member>, path: string, depth: nat, ghost segs: seq<Seg>) returns (r: Result<Kind>)
      requires path == Path(segs) && depth == |segs|
      modifies this
      ensures match RunMembers(members, SortedSet(Keys(members)), segs, Progress(old(fields), old(nodes)))
              case Ok(p) => r == Ok(ObjectKind) && fields == p.fields && nodes == p.nodes
              case Err(code) => r == Err(code)
      decreases SizeOfMembers(members), 1
    {
      ghost var p0 := Progress(fields, nodes);
      var keys := SortedSet(Keys(members));
      for k := 0 to |keys|
        invariant RunMembers(members, keys[..k], segs, p0) == Ok(Progress(fields, nodes))
      {
        MembersStep(members, keys, k, segs, p0);
        PathExtends(segs, keys[k]);
        r := Walk(Lookup(members, keys[k]), ObjectPathSegment(path, keys[k]), depth + 1, segs + [Key(keys[k])]);
        if r.Err? {
          MembersRunStops(members, keys, k + 1, segs, p0);
          return;
        }
      }
      assert keys[..|keys|] == keys;
      r := Ok(ObjectKind);
    }

    /** The loop over an array's elements, and the override when their types differ. */
    method WalkItems(items: seq<Json>, path: string, depth: nat, ghost segs: seq<Seg>) returns (r: Result<Kind>)
      requires path == Path(segs) && depth == |segs|
      modifies this
      ensures match RunBelow(JArray(items), segs, Progress(old(fields), old(nodes)))
              case Ok(p) => r == Ok(ArrayKind) && fields == p.fields && nodes == p.nodes
              case Err(code) => r == Err(code)
      decreases SizeOfItems(items), 1
    {
      ghost var p0 := Progress(fields, nodes);
      ghost var below := segs + [Elem];
      hide Path, ElementPath, KindsOf, RunItems, Run, Trace, Marks;
      ItemsStart(items, below, p0);
      PathExtends(segs, "");
      var elementTypes: set<Kind> := {};
      for k := 0 to |items|
        invariant RunItems(items[..k], below, p0) == Ok(Progress(fields, nodes))
        invariant elementTypes == KindsOf(items[..k])
      {
        ItemsStep(items, k, below, p0);
        ItemIsSmaller(items, k);
        r := Walk(items[k], ElementPath(path), depth + 1, below);
        if r.Err? {
          ItemsRunStops(items, k + 1, below, p0);
          return;
        }
        KindsGrow(items, k);
        elementTypes := elementTypes + {r.value};
      }
      assert items[..|items|] == items;
      MarksRun(items, below, Progress(fields, nodes));
      if |elementTypes| > 1 {
        fields := fields[ElementPath(path) := FieldDef(MixedKind, depth + 1, NullKind in elementTypes)];
      }
      r := Ok(ArrayKind);
    }

    method ExtractPayload(codec: Codec, parsed: Option<Json>) returns (r: Result<SchemaObservation>)
      modifies this
      ensures r == Extract(codec, parsed)
    {
      if parsed.None? {
        return Err("invalid_json");
      }
      fields, nodes := map[], 0;
      var root := Walk(parsed.value, "$", 0, []);
      if root.Err? {
        return Err(root.code);
      }
      r := Observe(codec, root.value, fields);
    }
  }
}
