/** When the schema walk succeeds and what it then records, said without the machine:
    totals over the visits, and for each path the last override or else the first visit. */
module SchemaLimits {
  import opened Std
  import opened Text
  import opened JsonValues
  import opened JsonPath
  import opened SchemaExtraction

  function Nodes(t: seq<Action>): nat {
    if t == [] then 0
    else Nodes(t[..|t| - 1]) + if t[|t| - 1].Visit? then 1 else 0
  }

  function VisitedPaths(t: seq<Action>): set<string> {
    set a | a in t && a.Visit? :: a.path
  }

  function VisitField(a: Action): FieldDef
    requires a.Visit?
  {
    FieldDef(a.kind, |a.segs|, a.kind.NullKind?)
  }

  function FirstVisit(t: seq<Action>, path: string): Option<FieldDef> {
    if t == [] then None
    else
      var last := t[|t| - 1];
      var earlier := FirstVisit(t[..|t| - 1], path);
      if earlier.Some? then earlier
      else if last.Visit? && last.path == path then Some(VisitField(last))
      else None
  }

  function LastMark(t: seq<Action>, path: string): Option<FieldDef> {
    if t == [] then None
    else
      var last := t[|t| - 1];
      if last.MarkMixed? && last.path == path then Some(FieldDef(MixedKind, |last.segs|, last.nullable))
      else LastMark(t[..|t| - 1], path)
  }

  /** The definition recorded for a path. */
  function FieldAt(t: seq<Action>, path: string): Option<FieldDef> {
    var mark := LastMark(t, path);
    if mark.Some? then mark else FirstVisit(t, path)
  }

  /** Every override concerns a path visited before. */
  ghost predicate Covered(t: seq<Action>)
    decreases |t|
  {
    t == [] ||
    (Covered(t[..|t| - 1]) && (t[|t| - 1].MarkMixed? ==> t[|t| - 1].path in VisitedPaths(t[..|t| - 1])))
  }

  ghost predicate VisitInBounds(a: Action) {
    a.Visit? ==> |a.segs| <= MAX_DEPTH && |a.path| <= MAX_PATH_LENGTH
  }

  ghost predicate InBounds(t: seq<Action>) {
    && Nodes(t) <= MAX_NODES
    && |VisitedPaths(t)| <= MAX_FIELDS
    && forall a :: a in t ==> VisitInBounds(a)
  }

  lemma OneMore(t: seq<Action>)
    requires t != []
    ensures var before, last := t[..|t| - 1], t[|t| - 1];
            && t == before + [last]
            && (forall a :: a in t <==> a in before || a == last)
            && VisitedPaths(t) == VisitedPaths(before) + (if last.Visit? then {last.path} else {})
            && |VisitedPaths(before)| <= |VisitedPaths(t)|
  {
    var before, last := t[..|t| - 1], t[|t| - 1];
    assert t == before + [last];
    Subset(VisitedPaths(before), VisitedPaths(t));
  }

  lemma Subset<T>(a: set<T>, b: set<T>)
    requires a <= b
    ensures |a| <= |b|
  {
    assert b == a + (b - a);
  }

  /** p holds what the trace t records. */
  ghost predicate Recorded(t: seq<Action>, p: Progress) {
    && p.nodes == Nodes(t)
    && forall path :: RecordedAt(t, p, path)
  }

  lemma BoundsStep(t: seq<Action>)
    requires t != []
    ensures var before, last := t[..|t| - 1], t[|t| - 1];
            InBounds(t) <==>
              && InBounds(before)
              && (last.Visit? ==>
                    && Nodes(before) < MAX_NODES
                    && VisitInBounds(last)
                    && (last.path in VisitedPaths(before) || |VisitedPaths(before)| < MAX_FIELDS))
  {
    OneMore(t);
    var before, last := t[..|t| - 1], t[|t| - 1];
    if last.Visit? {
      assert |VisitedPaths(t)| == |VisitedPaths(before)| + if last.path in VisitedPaths(before) then 0 else 1;
    }
  }

  lemma FieldAtStep(t: seq<Action>, path: string)
    requires t != [] && Covered(t)
    ensures var before, last := t[..|t| - 1], t[|t| - 1];
            FieldAt(t, path) ==
              if last.path != path then FieldAt(before, path)
              else if last.MarkMixed? then Some(FieldDef(MixedKind, |last.segs|, last.nullable))
              else if path in VisitedPaths(before) then FieldAt(before, path)
              else Some(VisitField(last))
  {
    UnvisitedHasNoField(t[..|t| - 1], path);
  }

  /** What one action does to the recorded definition of one path. */
  lemma DoChangesOnePath(a: Action, q: Progress, path: string)
    requires Do(a, q).Ok?
    ensures var p := Do(a, q).value;
            if a.path != path then (path in p.fields <==> path in q.fields)
                && (path in q.fields ==> p.fields[path] == q.fields[path])
            else
              && path in p.fields
              && p.fields[path] == if a.MarkMixed? then FieldDef(MixedKind, |a.segs|, a.nullable)
                                   else if path in q.fields then q.fields[path] else VisitField(a)
    ensures Do(a, q).value.nodes == q.nodes + if a.Visit? then 1 else 0
  {
  }

  lemma DoSucceedsIff(a: Action, q: Progress)
    ensures Do(a, q).Ok? <==>
              (a.Visit? ==>
                 && q.nodes < MAX_NODES && VisitInBounds(a)
                 && (a.path in q.fields.Keys || |q.fields.Keys| < MAX_FIELDS))
  {
  }

  /** p holds what the trace t records for one path. */
  ghost predicate RecordedAt(t: seq<Action>, p: Progress, path: string) {
    && (path in p.fields <==> path in VisitedPaths(t))
    && (path in p.fields ==> FieldAt(t, path) == Some(p.fields[path]))
  }

  lemma RecordPath(t: seq<Action>, q: Progress, path: string)
    requires t != [] && Covered(t) && RecordedAt(t[..|t| - 1], q, path) && Do(t[|t| - 1], q).Ok?
    ensures RecordedAt(t, Do(t[|t| - 1], q).value, path)
  {
    OneMore(t);
    DoChangesOnePath(t[|t| - 1], q, path);
    FieldAtStep(t, path);
  }

  lemma RecordStep(t: seq<Action>, q: Progress)
    requires t != [] && Covered(t) && Recorded(t[..|t| - 1], q) && Do(t[|t| - 1], q).Ok?
    ensures Recorded(t, Do(t[|t| - 1], q).value)
  {
    var p := Do(t[|t| - 1], q).value;
    forall path ensures RecordedAt(t, p, path) {
      assert RecordedAt(t[..|t| - 1], q, path);
      RecordPath(t, q, path);
    }
    DoChangesOnePath(t[|t| - 1], q, "");
  }

  lemma RecordedKeys(t: seq<Action>, p: Progress)
    requires Recorded(t, p)
    ensures p.fields.Keys == VisitedPaths(t)
  {
    forall path ensures path in p.fields.Keys <==> path in VisitedPaths(t) {
      assert RecordedAt(t, p, path);
    }
  }

  lemma AcceptStep(t: seq<Action>, q: Progress)
    requires t != [] && Covered(t) && Recorded(t[..|t| - 1], q)
    ensures InBounds(t) <==> InBounds(t[..|t| - 1]) && Do(t[|t| - 1], q).Ok?
  {
    RecordedKeys(t[..|t| - 1], q);
    DoSucceedsIff(t[|t| - 1], q);
    BoundsStep(t);
  }

  /** The machine accepts a trace exactly when the totals are in bounds, and then has
      recorded, for each path, its last override or else its first visit. */
  lemma {:induction false} RunIffInBounds(t: seq<Action>)
    requires Covered(t)
    ensures Run(t, START).Ok? <==> InBounds(t)
    ensures Run(t, START).Ok? ==> Recorded(t, Run(t, START).value)
    decreases |t|
  {
    if t == [] {
      assert forall path :: RecordedAt(t, START, path);
    } else {
      RunIffInBounds(t[..|t| - 1]);
      match Run(t[..|t| - 1], START)
      case Err(_) => BoundsStep(t);
      case Ok(q) =>
        AcceptStep(t, q);
        if Do(t[|t| - 1], q).Ok? {
          RecordStep(t, q);
        }
    }
  }

  lemma {:induction false} UnvisitedHasNoField(t: seq<Action>, path: string)
    requires Covered(t)
    ensures FirstVisit(t, path).Some? <==> path in VisitedPaths(t)
    ensures LastMark(t, path).Some? ==> path in VisitedPaths(t)
    decreases |t|
  {
    if t != [] {
      OneMore(t);
      UnvisitedHasNoField(t[..|t| - 1], path);
    }
  }

  // ---- concatenation ----

  lemma {:induction false} Appended(a: seq<Action>, b: seq<Action>, path: string)
    ensures Nodes(a + b) == Nodes(a) + Nodes(b)
    ensures VisitedPaths(a + b) == VisitedPaths(a) + VisitedPaths(b)
    ensures FirstVisit(a + b, path) == if FirstVisit(a, path).Some? then FirstVisit(a, path) else FirstVisit(b, path)
    ensures LastMark(a + b, path) == if LastMark(b, path).Some? then LastMark(b, path) else LastMark(a, path)
    decreases |b|
  {
    if b == [] {
      assert a + b == a;
    } else {
      var n := |b| - 1;
      assert (a + b)[..|a + b| - 1] == a + b[..n];
      Appended(a, b[..n], path);
    }
  }

  lemma AppendedOne(a: seq<Action>, last: Action, path: string)
    ensures FirstVisit(a + [last], path) ==
              if FirstVisit(a, path).None? && last.Visit? && last.path == path then Some(VisitField(last))
                  else FirstVisit(a, path)
    ensures LastMark(a + [last], path) ==
              if last.MarkMixed? && last.path == path then Some(FieldDef(MixedKind, |last.segs|, last.nullable))
                  else LastMark(a, path)
  {
  }

  lemma {:induction false} CoveredAppend(a: seq<Action>, b: seq<Action>)
    requires Covered(a)
    requires Covered(b) || (exists m :: b == [m] && m.MarkMixed? && m.path in VisitedPaths(a))
    ensures Covered(a + b)
    decreases |b|
  {
    if b == [] {
      assert a + b == a;
    } else {
      var n := |b| - 1;
      assert (a + b)[..|a + b| - 1] == a + b[..n];
      if Covered(b) {
        CoveredAppend(a, b[..n]);
      } else {
        assert a + b[..n] == a;
      }
      assert VisitedPaths(b[..n]) <= VisitedPaths(a + b[..n]);
    }
  }

  lemma {:induction false} TraceIsCovered(v: Json, segs: seq<Seg>)
    ensures Covered(Trace(v, segs))
    ensures Path(segs) in VisitedPaths(Trace(v, segs))
    decreases Size(v), 1
  {
    var visit := VisitAt(segs, KindOf(v));
    assert Trace(v, segs)[0] == visit;
    assert Covered([visit]) by {
      assert [visit][..0] == [];
    }
    match v
    case JObject(members) =>
      var keys := SortedSet(Keys(members));
      MembersAreCovered(members, keys, segs);
      CoveredAppend([visit], MembersTrace(members, keys, segs));
    case JArray(items) =>
      var below := segs + [Elem];
      var t := ItemsTrace(items, below);
      ItemsAreCovered(items, below);
      if |KindsOf(items)| > 1 {
        assert items == [] ==> KindsOf(items) == {};
        assert Marks(items, below) == [MarkAt(below, NullKind in KindsOf(items))];
      }
      CoveredAppend(t, Marks(items, below));
      CoveredAppend([visit], t + Marks(items, below));
    case _ =>
      assert [visit] + [] == [visit];
  }

  lemma {:induction false} MembersAreCovered(members: seq<Member>, keys: seq<string>, segs: seq<Seg>)
    requires forall k :: k in keys ==> k in Keys(members)
    ensures Covered(MembersTrace(members, keys, segs))
    decreases SizeOfMembers(members), 2, |keys|
  {
    if keys != [] {
      var n := |keys| - 1;
      MembersAreCovered(members, keys[..n], segs);
      TraceIsCovered(Lookup(members, keys[n]), segs + [Key(keys[n])]);
      CoveredAppend(MembersTrace(members, keys[..n], segs), Trace(Lookup(members, keys[n]), segs + [Key(keys[n])]));
    }
  }

  lemma {:induction false} ItemsAreCovered(items: seq<Json>, segs: seq<Seg>)
    ensures Covered(ItemsTrace(items, segs))
    ensures items != [] ==> Path(segs) in VisitedPaths(ItemsTrace(items, segs))
    decreases SizeOfItems(items), 2, |items|
  {
    if items != [] {
      var n := |items| - 1;
      ItemsAreCovered(items[..n], segs);
      ItemIsSmaller(items, n);
      TraceIsCovered(items[n], segs);
      CoveredAppend(ItemsTrace(items[..n], segs), Trace(items[n], segs));
    }
  }

  /** The walk of a document succeeds exactly when its visits are in bounds: at most 1024
      of them, none deeper than 16 or with a path longer than 1024, at most 256 different
      paths. The fields are then exactly the visited paths. */
  lemma WalkSucceedsIffInBounds(v: Json)
    ensures Run(Trace(v, []), START).Ok? <==> InBounds(Trace(v, []))
    ensures Run(Trace(v, []), START).Ok? ==> Recorded(Trace(v, []), Run(Trace(v, []), START).value)
  {
    TraceIsCovered(v, []);
    RunIffInBounds(Trace(v, []));
  }
}
