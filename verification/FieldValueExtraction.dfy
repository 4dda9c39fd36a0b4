/** The bounded walk that projects the scalar members of a JSON object. */
module FieldValueExtraction {
  import opened Std
  import opened Text
  import opened JsonValues
  import opened JsonPath
  import opened SchemaExtraction

  /** A value and, by its constructor, its declared type. */
  datatype Scalar = IntegerValue(i: int) | FloatValue(r: real) | BooleanValue(b: bool) | StringValue(s: string)

  datatype Stop = Stop(segs: seq<Seg>, path: string, value: Json)

  function StopAt(segs: seq<Seg>, v: Json): Stop { Stop(segs, Path(segs), v) }

  /** The places the walk stops at: it enters objects but not arrays. */
  function Stops(v: Json, segs: seq<Seg>): seq<Stop>
    decreases Size(v), 1
  {
    [StopAt(segs, v)] + StopsBelow(v, segs)
  }

  function StopsBelow(v: Json, segs: seq<Seg>): seq<Stop>
    decreases Size(v), 0
  {
    if v.JObject? then MemberStops(v.members, SortedSet(Keys(v.members)), segs) else []
  }

  function MemberStops(members: seq<Member>, keys: seq<string>, segs: seq<Seg>): seq<Stop>
    requires forall k :: k in keys ==> k in Keys(members)
    decreases SizeOfMembers(members), 2, |keys|
  {
    if keys == [] then []
    else
      var n := |keys| - 1;
      MemberStops(members, keys[..n], segs) + Stops(Lookup(members, keys[n]), segs + [Key(keys[n])])
  }

  datatype Tally = Tally(values: map<string, Scalar>, nodes: nat, nulls: nat, containers: nat)

  const EMPTY_TALLY := Tally(map[], 0, 0, 0)

  /** The scalar a value projects to. */
  function ScalarOf(v: Json): Result<Scalar> {
    match v
    case JBool(b) => Ok(BooleanValue(b))
    case JInt(i) => Ok(IntegerValue(i))
    case JFloat(Finite(r)) => Ok(FloatValue(r))
    case JFloat(NotFinite(_)) => Err("non_finite_number")
    case JString(s) => Ok(StringValue(s))
    case _ => Err("root_not_object")
  }

  function TakeStop(a: Stop, p: Tally): Result<Tally> {
    if p.nodes + 1 > MAX_NODES then Err("field_node_limit_exceeded")
    else if |a.segs| > MAX_DEPTH then Err("field_depth_exceeded")
    else if |a.path| > MAX_PATH_LENGTH then Err("field_path_too_long")
    else if a.value.JNull? then Ok(p.(nodes := p.nodes + 1, nulls := p.nulls + 1))
    else if IsContainer(a.value) then Ok(p.(nodes := p.nodes + 1, containers := p.containers + 1))
    else if a.segs == [] then Ok(p.(nodes := p.nodes + 1))
    else
      match ScalarOf(a.value)
      case Err(code) => Err(code)
      case Ok(s) =>
        if |p.values| >= MAX_FIELDS then Err("field_count_exceeded")
        else Ok(p.(nodes := p.nodes + 1, values := p.values[a.path := s]))
  }

  function TakeStops(t: seq<Stop>, p: Tally): Result<Tally>
    decreases |t|
  {
    if t == [] then Ok(p)
    else
      match TakeStops(t[..|t| - 1], p)
      case Err(code) => Err(code)
      case Ok(q) => TakeStop(t[|t| - 1], q)
  }

  lemma {:induction false} TakeAppend(a: seq<Stop>, b: seq<Stop>, p: Tally)
    ensures TakeStops(a + b, p) == match TakeStops(a, p) case Err(code) => Err(code) case Ok(q) => TakeStops(b, q)
    decreases |b|
  {
    if b == [] {
      assert a + b == a;
    } else {
      var n := |b| - 1;
      assert (a + b)[..|a + b| - 1] == a + b[..n];
      TakeAppend(a, b[..n], p);
    }
  }

  function TakeMembers(members: seq<Member>, keys: seq<string>, segs: seq<Seg>, p: Tally): Result<Tally>
    requires forall k :: k in keys ==> k in Keys(members)
  {
    TakeStops(MemberStops(members, keys, segs), p)
  }

  lemma MemberStopsStep(members: seq<Member>, keys: seq<string>, k: nat, segs: seq<Seg>, p: Tally)
    requires k < |keys| && forall x :: x in keys ==> x in Keys(members)
    ensures keys[k] in Keys(members)
    ensures TakeMembers(members, keys[..k + 1], segs, p)
         == match TakeMembers(members, keys[..k], segs, p)
            case Err(code) => Err(code)
            case Ok(q) => TakeStops(Stops(Lookup(members, keys[k]), segs + [Key(keys[k])]), q)
  {
    assert keys[k] in keys;
    var more := keys[..k + 1];
    assert more[..k] == keys[..k] && more[k] == keys[k];
    TakeAppend(MemberStops(members, keys[..k], segs), Stops(Lookup(members, keys[k]), segs + [Key(keys[k])]), p);
  }

  lemma {:induction false} TakeMembersStops(members: seq<Member>, keys: seq<string>, k: nat, segs: seq<Seg>, p: Tally)
    requires k <= |keys| && forall x :: x in keys ==> x in Keys(members)
    requires TakeMembers(members, keys[..k], segs, p).Err?
    ensures TakeMembers(members, keys, segs, p) == TakeMembers(members, keys[..k], segs, p)
    decreases |keys| - k
  {
    if k == |keys| {
      assert keys[..k] == keys;
    } else {
      MemberStopsStep(members, keys, k, segs, p);
      TakeMembersStops(members, keys, k + 1, segs, p);
    }
  }

  lemma StopsSteps(v: Json, segs: seq<Seg>, p: Tally)
    ensures TakeStops(Stops(v, segs), p)
         == match TakeStop(StopAt(segs, v), p)
            case Err(code) => Err(code)
            case Ok(q) => if v.JObject? then TakeMembers(v.members, SortedSet(Keys(v.members)), segs, q) else Ok(q)
  {
    TakeAppend([StopAt(segs, v)], StopsBelow(v, segs), p);
    assert [StopAt(segs, v)][..0] == [];
  }

  datatype ScalarExtraction = ScalarExtraction(values: map<string, Scalar>, skippedNull: nat, skippedContainer: nat)

  /** The whole extraction of a payload of `size` bytes; no parsed value means not JSON. */
  function ExtractValues(size: nat, parsed: Option<Json>): Result<ScalarExtraction> {
    if size > MAX_DOCUMENT_BYTES then Err("document_too_large")
    else if parsed.None? then Err("invalid_json")
    else if !parsed.value.JObject? then Err("root_not_object")
    else
      match TakeStops(Stops(parsed.value, []), EMPTY_TALLY)
      case Err(code) => Err(code)
      case Ok(p) => Ok(ScalarExtraction(p.values, p.nulls, p.containers))
  }

  class FieldValueExtractor {
    var values: map<string, Scalar>
    var nodes: nat
    var skippedNull: nat
    var skippedContainer: nat

    constructor () {
      values, nodes, skippedNull, skippedContainer := map[], 0, 0, 0;
    }

    function State(): Tally
      reads this
    {
      Tally(values, nodes, skippedNull, skippedContainer)
    }

    method Walk(value: Json, path: string, depth: nat, isRoot: bool, ghost segs: seq<Seg>) returns (r: Result<()>)
      requires path == Path(segs) && depth == |segs| && (isRoot <==> segs == [])
      modifies this
      ensures match TakeStops(Stops(value, segs), old(State()))
              case Ok(p) => r.Ok? && State() == p
              case Err(code) => r == Err(code)
      decreases Size(value), 0
    {
      StopsSteps(value, segs, State());
      r := Enter(value, path, depth, isRoot, segs);
      if r.Ok? && value.JObject? {
        r := WalkMembers(value.members, path, depth, segs);
      }
    }

    /** The part of the walk before any recursion: bounds, counters, and a scalar's value. */
    method Enter(value: Json, path: string, depth: nat, isRoot: bool, ghost segs: seq<Seg>) returns (r: Result<()>)
      requires path == Path(segs) && depth == |segs| && (isRoot <==> segs == [])
      modifies this
      ensures match TakeStop(StopAt(segs, value), old(State()))
              case Ok(p) => r.Ok? && State() == p
              case Err(code) => r == Err(code)
    {
      nodes := nodes + 1;
      if nodes > MAX_NODES {
        return Err("field_node_limit_exceeded");
      }
      if depth > MAX_DEPTH {
        return Err("field_depth_exceeded");
      }
      if |path| > MAX_PATH_LENGTH {
        return Err("field_path_too_long");
      }
      if value.JNull? {
        skippedNull := skippedNull + 1;
        return Ok(());
      }
      if value.JObject? || value.JArray? {
        skippedContainer := skippedContainer + 1;
        return Ok(());
      }
      if isRoot {
        return Ok(());
      }
      r := Keep(value, path);
    }

    /** Record one scalar. */
    method Keep(value: Json, path: string) returns (r: Result<()>)
      modifies this`values
      ensures match ScalarOf(value)
              case Err(code) => r == Err(code)
              case Ok(s) =>
                if |old(values)| >= MAX_FIELDS then r == Err("field_count_exceeded")
                else r.Ok? && values == old(values)[path := s]
    {
      var scalar := ScalarOf(value);
      if scalar.Err? {
        return Err(scalar.code);
      }
      if |values| >= MAX_FIELDS {
        return Err("field_count_exceeded");
      }
      values := values[path := scalar.value];
      r := Ok(());
    }

    /** The loop over a dictionary's sorted keys. */
    method WalkMembers(members: seq<Member>, path: string, depth: nat, ghost segs: seq<Seg>) returns (r: Result<()>)
      requires path == Path(segs) && depth == |segs|
      modifies this
      ensures match TakeMembers(members, SortedSet(Keys(members)), segs, old(State()))
              case Ok(p) => r.Ok? && State() == p
              case Err(code) => r == Err(code)
      decreases SizeOfMembers(members), 1
    {
      ghost var p0 := State();
      var keys := SortedSet(Keys(members));
      for k := 0 to |keys|
        invariant TakeMembers(members, keys[..k], segs, p0) == Ok(State())
      {
        MemberStopsStep(members, keys, k, segs, p0);
        PathExtends(segs, keys[k]);
        r := Walk(Lookup(members, keys[k]), ObjectPathSegment(path, keys[k]), depth + 1, false, segs + [Key(keys[k])]);
        if r.Err? {
          TakeMembersStops(members, keys, k + 1, segs, p0);
          return;
        }
      }
      assert keys[..|keys|] == keys;
      r := Ok(());
    }

    method ExtractPayload(size: nat, parsed: Option<Json>) returns (r: Result<ScalarExtraction>)
      modifies this
      ensures r == ExtractValues(size, parsed)
    {
      if size > MAX_DOCUMENT_BYTES {
        return Err("document_too_large");
      }
      if parsed.None? {
        return Err("invalid_json");
      }
      if !parsed.value.JObject? {
        return Err("root_not_object");
      }
      values, nodes, skippedNull, skippedContainer := map[], 0, 0, 0;
      var walked := Walk(parsed.value, "$", 0, true, []);
      if walked.Err? {
        return Err(walked.code);
      }
      r := Ok(ScalarExtraction(values, skippedNull, skippedContainer));
    }
  }
}
