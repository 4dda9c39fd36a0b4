/** Drift between two schema versions. */
module SchemaDrift {
  import opened Std
  import opened Text
  import opened JsonValues
  import opened SchemaExtraction
  import opened ExtractorTheorems

  datatype Change = Change(path: string, previousType: Kind, currentType: Kind)

  datatype Drift = Drift(added: seq<string>, removed: seq<string>, changed: seq<Change>)

  function ChangedPaths(before: map<string, FieldDef>, after: map<string, FieldDef>): set<string> {
    set path | path in before && path in after
        && (before[path].kind != after[path].kind || before[path].nullable != after[path].nullable)
  }

  /** The lists the drift event stores, each in path order. */
  function DriftBetween(before: map<string, FieldDef>, after: map<string, FieldDef>): Drift {
    var paths := SortedSet(ChangedPaths(before, after));
    Drift(SortedSet(after.Keys - before.Keys), SortedSet(before.Keys - after.Keys),
          seq(|paths|, i requires 0 <= i < |paths| => assert paths[i] in paths;
              Change(paths[i], before[paths[i]].kind, after[paths[i]].kind)))
  }

  function AsSet<T>(s: seq<T>): set<T> { set x | x in s }

  /** A drift event turns the old paths into the new ones: the old ones without the removed
      and with the added are the new ones, and each list is in path order. */
  lemma DriftPathsAreExact(before: map<string, FieldDef>, after: map<string, FieldDef>)
    ensures var d := DriftBetween(before, after);
            && (before.Keys - AsSet(d.removed)) + AsSet(d.added) == after.Keys
            && AsSet(d.removed) <= before.Keys && AsSet(d.added) !! before.Keys
            && StrictlySorted(d.added) && StrictlySorted(d.removed)
  {
    ListsSet(after.Keys - before.Keys);
    ListsSet(before.Keys - after.Keys);
    SetDifferences(before.Keys, after.Keys);
  }

  lemma ListsSet(s: set<string>)
    ensures AsSet(SortedSet(s)) == s
  {
  }

  lemma SetDifferences<T>(a: set<T>, b: set<T>)
    ensures (a - (a - b)) + (b - a) == b
  {
  }

  lemma ListedChange(before: map<string, FieldDef>, after: map<string, FieldDef>, c: Change)
    ensures c in DriftBetween(before, after).changed <==>
              c.path in ChangedPaths(before, after) && c == Change(c.path, before[c.path].kind, after[c.path].kind)
  {
    var d, paths := DriftBetween(before, after), SortedSet(ChangedPaths(before, after));
    if c.path in ChangedPaths(before, after) && c == Change(c.path, before[c.path].kind, after[c.path].kind) {
      var i :| 0 <= i < |paths| && paths[i] == c.path;
      assert d.changed[i] == c;
    }
    if c in d.changed {
      var i :| 0 <= i < |paths| && d.changed[i] == c;
      assert paths[i] in paths;
    }
  }

  /** A shared path is listed as changed, in path order and with both types, exactly when its
      type or nullability changed. */
  lemma DriftChangesAreExact(before: map<string, FieldDef>, after: map<string, FieldDef>)
    ensures var changed := DriftBetween(before, after).changed;
            && (forall i, j :: 0 <= i < j < |changed| ==>
                Le(changed[i].path, changed[j].path) && changed[i].path != changed[j].path)
            && (forall c :: c in changed <==>
                  && c.path in before && c.path in after
                  && c == Change(c.path, before[c.path].kind, after[c.path].kind)
                  && (before[c.path].kind != after[c.path].kind || before[c.path].nullable != after[c.path].nullable))
  {
    forall c: Change
      ensures c in DriftBetween(before, after).changed <==>
                c.path in ChangedPaths(before, after) && c == Change(c.path, before[c.path].kind, after[c.path].kind)
    {
      ListedChange(before, after, c);
    }
  }

  ghost predicate EmptyDrift(d: Drift) { d == Drift([], [], []) }

  lemma NoDriftSameFields(a: SchemaObservation, b: SchemaObservation)
    requires SelfDescribing(a.rootType, a.fields) && SelfDescribing(b.rootType, b.fields)
    requires EmptyDrift(DriftBetween(a.fields, b.fields))
    ensures a.fields == b.fields && a.rootType == b.rootType
  {
  }

  lemma SameFieldsNoDrift(fields: map<string, FieldDef>)
    ensures EmptyDrift(DriftBetween(fields, fields))
  {
    assert ChangedPaths(fields, fields) == {} && fields.Keys - fields.Keys == {};
  }

  /** Everything in an observation follows from its root type and fields. */
  lemma FieldsDetermineObservation(codec: Codec, v: Json, w: Json)
    requires Extract(codec, Some(v)).Ok? && Extract(codec, Some(w)).Ok?
    requires var a, b := Extract(codec, Some(v)).value, Extract(codec, Some(w)).value;
             a.fields == b.fields && a.rootType == b.rootType
    ensures Extract(codec, Some(v)) == Extract(codec, Some(w))
  {
    hide DocumentOf, Run, Trace;
  }

  /** The drift between two observed documents is empty exactly when they have the same
      schema; so observations with different fingerprints always differ visibly. */
  lemma DriftIsNeverEmpty(codec: Codec, v: Json, w: Json)
    requires Extract(codec, Some(v)).Ok? && Extract(codec, Some(w)).Ok?
    ensures var a, b := Extract(codec, Some(v)).value, Extract(codec, Some(w)).value;
            && (EmptyDrift(DriftBetween(a.fields, b.fields)) <==> a == b)
            && (a.fingerprint != b.fingerprint ==> !EmptyDrift(DriftBetween(a.fields, b.fields)))
  {
    hide Extract, DriftBetween, EmptyDrift, SelfDescribing;
    var a, b := Extract(codec, Some(v)).value, Extract(codec, Some(w)).value;
    SameFieldsNoDrift(a.fields);
    if EmptyDrift(DriftBetween(a.fields, b.fields)) {
      ObservationsDescribeThemselves(codec, v);
      ObservationsDescribeThemselves(codec, w);
      NoDriftSameFields(a, b);
      FieldsDetermineObservation(codec, v, w);
    }
  }
}
