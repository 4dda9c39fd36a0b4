/** The keys that make recording and projecting idempotent, and when two of them agree. */
module ObservationKeys {
  import opened JsonPath
  import opened StreamIdentity
  import opened Storage

  function RawMaterial(p: Platform, streamKey: string, topic: string, at: int, fingerprint: string): string {
    KeyMaterial([streamKey, topic, p.iso(at), fingerprint])
  }

  function PointMaterial(p: Platform, streamKey: string, at: int, fingerprint: string, metric: string): string {
    KeyMaterial([streamKey, p.iso(at), fingerprint, metric])
  }

  function FieldMaterial(observationKey: string, path: string): string {
    KeyMaterial([observationKey, FIELD_PROJECTION_PROCESSOR_VERSION, path])
  }

  function RawKey(p: Platform, streamKey: string, topic: string, at: int, fingerprint: string): string {
    p.sha256(RawMaterial(p, streamKey, topic, at, fingerprint))
  }

  function PointKey(p: Platform, streamKey: string, at: int, fingerprint: string, metric: string): string {
    p.sha256(PointMaterial(p, streamKey, at, fingerprint, metric))
  }

  function FieldKey(p: Platform, observationKey: string, path: string): string {
    p.sha256(FieldMaterial(observationKey, path))
  }

  /** No two texts share a digest. */
  ghost predicate CollisionFree(p: Platform) {
    forall a, b :: p.sha256(a) == p.sha256(b) ==> a == b
  }

  /** Digests and times are written without the separator, and times differ in writing. */
  ghost predicate PlainTexts(p: Platform) {
    && (forall a :: Without(p.sha256(a), UNIT_SEPARATOR))
    && (forall b :: Without(p.digest(b), UNIT_SEPARATOR))
    && (forall t :: Without(p.iso(t), UNIT_SEPARATOR))
    && (forall t, u :: p.iso(t) == p.iso(u) ==> t == u)
  }

  lemma FourParts(a: string, b: string, c: string, d: string)
    ensures var u := UNIT_SEPARATOR;
            Split(KeyMaterial([a, b, c, d]), u) == Split(a, u) + (Split(b, u) + (Split(c, u) + Split(d, u)))
  {
    var u := UNIT_SEPARATOR;
    assert [a, b, c, d][1..] == [b, c, d] && [b, c, d][1..] == [c, d] && [c, d][1..] == [d];
    assert Join([d], u) == d;
    assert Join([c, d], u) == c + [u] + d;
    assert Join([b, c, d], u) == b + [u] + (c + [u] + d);
    SplitSeparated(c, d, u);
    SplitSeparated(b, c + [u] + d, u);
    SplitSeparated(a, b + [u] + (c + [u] + d), u);
  }

  lemma Unsplit(a: string, b: string)
    requires Split(a, UNIT_SEPARATOR) == Split(b, UNIT_SEPARATOR)
    ensures a == b
  {
    SplitParts(a, UNIT_SEPARATOR);
    SplitParts(b, UNIT_SEPARATOR);
  }

  lemma SingleParts(a: string)
    requires Without(a, UNIT_SEPARATOR)
    ensures Split(a, UNIT_SEPARATOR) == [a]
  {
    SplitPrefix(a, "", UNIT_SEPARATOR);
  }

  lemma MiddleAgrees(a1: string, m1: seq<string>, y1: string, z1: string, a2: string, m2: seq<string>, y2: string,
                     z2: string)
    requires [a1] + (m1 + ([y1] + [z1])) == [a2] + (m2 + ([y2] + [z2]))
    ensures a1 == a2 && m1 == m2 && y1 == y2 && z1 == z2
  {
    var one, two := [a1] + (m1 + ([y1] + [z1])), [a2] + (m2 + ([y2] + [z2]));
    assert |one| == |m1| + 3 && |two| == |m2| + 3;
    assert one[0] == a1 && one[|one| - 2] == y1 && one[|one| - 1] == z1 && one[1..|one| - 2] == m1;
    assert two[0] == a2 && two[|two| - 2] == y2 && two[|two| - 1] == z2 && two[1..|two| - 2] == m2;
  }

  lemma LastAgrees(a1: string, b1: string, c1: string, m1: seq<string>, a2: string, b2: string, c2: string,
                   m2: seq<string>)
    requires [a1] + ([b1] + ([c1] + m1)) == [a2] + ([b2] + ([c2] + m2))
    ensures a1 == a2 && b1 == b2 && c1 == c2 && m1 == m2
  {
    var one, two := [a1] + ([b1] + ([c1] + m1)), [a2] + ([b2] + ([c2] + m2));
    assert one[0] == a1 && one[1] == b1 && one[2] == c1 && one[3..] == m1;
    assert two[0] == a2 && two[1] == b2 && two[2] == c2 && two[3..] == m2;
  }

  /** Two observations share a raw key exactly when stream, topic as sent, identifying time
      and payload digest all agree; the topic may contain the separator. */
  lemma RawKeysAgreeIff(p: Platform, k1: string, topic1: string, t1: int, f1: string, k2: string, topic2: string,
                        t2: int, f2: string)
    requires CollisionFree(p) && PlainTexts(p)
    requires Without(k1, UNIT_SEPARATOR) && Without(k2, UNIT_SEPARATOR) && Without(f1, UNIT_SEPARATOR)
             && Without(f2, UNIT_SEPARATOR)
    ensures RawKey(p, k1, topic1, t1, f1) == RawKey(p, k2, topic2, t2, f2)
       <==> k1 == k2 && topic1 == topic2 && t1 == t2 && f1 == f2
  {
    var u := UNIT_SEPARATOR;
    if RawKey(p, k1, topic1, t1, f1) == RawKey(p, k2, topic2, t2, f2) {
      var i1, i2 := p.iso(t1), p.iso(t2);
      assert RawMaterial(p, k1, topic1, t1, f1) == RawMaterial(p, k2, topic2, t2, f2);
      FourParts(k1, topic1, i1, f1);
      FourParts(k2, topic2, i2, f2);
      SingleParts(k1); SingleParts(i1); SingleParts(f1);
      SingleParts(k2); SingleParts(i2); SingleParts(f2);
      MiddleAgrees(k1, Split(topic1, u), i1, f1, k2, Split(topic2, u), i2, f2);
      Unsplit(topic1, topic2);
    }
  }

  /** Two normalized points share a delivery key exactly when stream, identifying time,
      payload digest and metric agree; the metric may contain the separator. */
  lemma PointKeysAgreeIff(p: Platform, k1: string, t1: int, f1: string, m1: string, k2: string, t2: int, f2: string,
                          m2: string)
    requires CollisionFree(p) && PlainTexts(p)
    requires Without(k1, UNIT_SEPARATOR) && Without(k2, UNIT_SEPARATOR) && Without(f1, UNIT_SEPARATOR)
             && Without(f2, UNIT_SEPARATOR)
    ensures PointKey(p, k1, t1, f1, m1) == PointKey(p, k2, t2, f2, m2) <==> k1 == k2 && t1 == t2 && f1 == f2 && m1 == m2
  {
    var u := UNIT_SEPARATOR;
    if PointKey(p, k1, t1, f1, m1) == PointKey(p, k2, t2, f2, m2) {
      var i1, i2 := p.iso(t1), p.iso(t2);
      assert PointMaterial(p, k1, t1, f1, m1) == PointMaterial(p, k2, t2, f2, m2);
      FourParts(k1, i1, f1, m1);
      FourParts(k2, i2, f2, m2);
      SingleParts(k1); SingleParts(i1); SingleParts(f1);
      SingleParts(k2); SingleParts(i2); SingleParts(f2);
      LastAgrees(k1, i1, f1, Split(m1, u), k2, i2, f2, Split(m2, u));
      Unsplit(m1, m2);
    }
  }

  lemma PrintableHasNoSeparator(s: string)
    requires Printable(s)
    ensures Without(s, UNIT_SEPARATOR)
  {
  }

  lemma FieldPartsAreSeparatorFree(observationKey: string, segs: seq<Seg>)
    requires Without(observationKey, UNIT_SEPARATOR)
    ensures SeparatorFree([observationKey, FIELD_PROJECTION_PROCESSOR_VERSION, Path(segs)])
  {
    PathIsPrintable(segs);
    PrintableHasNoSeparator(Path(segs));
    assert Printable(FIELD_PROJECTION_PROCESSOR_VERSION);
    PrintableHasNoSeparator(FIELD_PROJECTION_PROCESSOR_VERSION);
  }

  /** A field's delivery key is the digest of its observation's key, the projection's version
      and the field's path, with separators between. */
  lemma FieldKeyIsWritten(p: Platform, observationKey: string, path: string)
    ensures var u := [UNIT_SEPARATOR];
            FieldKey(p, observationKey, path) == p.sha256(observationKey + u + ("r2.field-projection.v1" + u + path))
  {
    var version := FIELD_PROJECTION_PROCESSOR_VERSION;
    assert [observationKey, version, path][1..] == [version, path] && [version, path][1..] == [path];
    assert Join([version, path], UNIT_SEPARATOR) == version + [UNIT_SEPARATOR] + path;
  }

  /** A field's delivery key names its observation and its place in the document. */
  lemma FieldKeysAgreeIff(p: Platform, k1: string, s1: seq<Seg>, k2: string, s2: seq<Seg>)
    requires CollisionFree(p) && Without(k1, UNIT_SEPARATOR) && Without(k2, UNIT_SEPARATOR)
    ensures FieldKey(p, k1, Path(s1)) == FieldKey(p, k2, Path(s2)) <==> k1 == k2 && s1 == s2
  {
    if FieldKey(p, k1, Path(s1)) == FieldKey(p, k2, Path(s2)) {
      var one := [k1, FIELD_PROJECTION_PROCESSOR_VERSION, Path(s1)];
      var two := [k2, FIELD_PROJECTION_PROCESSOR_VERSION, Path(s2)];
      FieldPartsAreSeparatorFree(k1, s1);
      assert FieldMaterial(k1, Path(s1)) == FieldMaterial(k2, Path(s2));
      KeyMaterialIsInjective(one, two);
      assert one[0] == two[0] && one[2] == two[2];
      PathsAreInjective(s1, s2);
    }
  }

  /** No field's delivery key is ever the key of a normalized point. */
  lemma FieldKeysAreNoPointKeys(p: Platform, observationKey: string, segs: seq<Seg>, streamKey: string, at: int,
                                fingerprint: string, metric: string)
    requires CollisionFree(p) && Without(observationKey, UNIT_SEPARATOR)
    ensures FieldKey(p, observationKey, Path(segs)) != PointKey(p, streamKey, at, fingerprint, metric)
  {
    if FieldKey(p, observationKey, Path(segs)) == PointKey(p, streamKey, at, fingerprint, metric) {
      var field := [observationKey, FIELD_PROJECTION_PROCESSOR_VERSION, Path(segs)];
      var point := [streamKey, p.iso(at), fingerprint, metric];
      assert KeyMaterial(field) == KeyMaterial(point);
      FieldPartsAreSeparatorFree(observationKey, segs);
      SplitJoin(field, UNIT_SEPARATOR);
      SplitsAtLeastAsJoined(point, UNIT_SEPARATOR);
      assert false;
    }
  }
}
