/** Normalized identifiers and topics, and the text that stream keys are hashed from. */
module StreamIdentity {
  import opened Std

  /** What str.strip() removes. */
  predicate IsSpace(c: char) {
    var n := c as int;
    || 9 <= n <= 13 || 28 <= n <= 32 || n == 0x85 || n == 0xA0 || n == 0x1680 || 0x2000 <= n <= 0x200A
    || n == 0x2028 || n == 0x2029 || n == 0x202F || n == 0x205F || n == 0x3000
  }

  function StripLeft(s: string): string {
    if s != "" && IsSpace(s[0]) then StripLeft(s[1..]) else s
  }

  function StripRight(s: string): string {
    if s != "" && IsSpace(s[|s| - 1]) then StripRight(s[..|s| - 1]) else s
  }

  function Strip(s: string): string { StripRight(StripLeft(s)) }

  predicate Trimmed(s: string) {
    s != "" ==> !IsSpace(s[0]) && !IsSpace(s[|s| - 1])
  }

  lemma {:induction false} StripLeftTrims(s: string)
    ensures StripLeft(s) != "" ==> !IsSpace(StripLeft(s)[0])
    ensures forall c :: c in StripLeft(s) ==> c in s
    ensures s != "" && !IsSpace(s[0]) ==> StripLeft(s) == s
  {
    if s != "" && IsSpace(s[0]) {
      StripLeftTrims(s[1..]);
    }
  }

  lemma {:induction false} StripRightTrims(s: string)
    ensures StripRight(s) <= s
    ensures StripRight(s) != "" ==> !IsSpace(StripRight(s)[|StripRight(s)| - 1])
    ensures s != "" && !IsSpace(s[|s| - 1]) ==> StripRight(s) == s
    decreases |s|
  {
    if s != "" && IsSpace(s[|s| - 1]) {
      StripRightTrims(s[..|s| - 1]);
    }
  }

  lemma StripTrims(s: string)
    ensures Trimmed(Strip(s))
    ensures forall c :: c in Strip(s) ==> c in s
    ensures Trimmed(s) ==> Strip(s) == s
  {
    StripLeftTrims(s);
    StripRightTrims(StripLeft(s));
  }

  lemma {:induction false} StripLeftRemoves(s: string) returns (a: string)
    ensures s == a + StripLeft(s) && forall c :: c in a ==> IsSpace(c)
  {
    a := "";
    if s != "" && IsSpace(s[0]) {
      a := StripLeftRemoves(s[1..]);
      a := [s[0]] + a;
      assert s == [s[0]] + s[1..];
    }
  }

  lemma {:induction false} StripRightRemoves(s: string) returns (b: string)
    ensures s == StripRight(s) + b && forall c :: c in b ==> IsSpace(c)
    decreases |s|
  {
    b := "";
    if s != "" && IsSpace(s[|s| - 1]) {
      var n := |s| - 1;
      b := StripRightRemoves(s[..n]);
      assert s == s[..n] + [s[n]];
      assert s == StripRight(s) + (b + [s[n]]);
      b := b + [s[n]];
    }
  }

  /** Stripping takes spaces off both ends, and nothing but spaces. */
  lemma StripRemovesSpaces(s: string) returns (a: string, b: string)
    ensures s == a + Strip(s) + b && Trimmed(Strip(s)) && forall c :: c in a + b ==> IsSpace(c)
  {
    a := StripLeftRemoves(s);
    b := StripRightRemoves(StripLeft(s));
    StripTrims(s);
    assert a + (Strip(s) + b) == a + Strip(s) + b;
  }

  // ---- split and join ----

  function Split(s: string, sep: char): (parts: seq<string>)
    ensures |parts| >= 1
  {
    if s == "" then [""]
    else
      var rest := Split(s[1..], sep);
      if s[0] == sep then [""] + rest else [[s[0]] + rest[0]] + rest[1..]
  }

  function Join(parts: seq<string>, sep: char): string {
    if parts == [] then ""
    else if |parts| == 1 then parts[0]
    else parts[0] + [sep] + Join(parts[1..], sep)
  }

  predicate Without(s: string, sep: char) { sep !in s }

  lemma JoinAfterEmpty(rest: seq<string>, sep: char)
    requires rest != []
    ensures Join([""] + rest, sep) == [sep] + Join(rest, sep)
  {
    assert ([""] + rest)[1..] == rest;
  }

  lemma JoinGrown(c: char, rest: seq<string>, sep: char)
    requires rest != []
    ensures Join([[c] + rest[0]] + rest[1..], sep) == [c] + Join(rest, sep)
  {
    var parts := [[c] + rest[0]] + rest[1..];
    assert parts[1..] == rest[1..];
    if |rest| > 1 {
      var more := Join(rest[1..], sep);
      assert ([c] + rest[0]) + [sep] + more == [c] + (rest[0] + [sep] + more);
    }
  }

  lemma {:induction false} SplitParts(s: string, sep: char)
    ensures forall p :: p in Split(s, sep) ==> Without(p, sep)
    ensures Join(Split(s, sep), sep) == s
  {
    if s != "" {
      hide Join;
      var rest := Split(s[1..], sep);
      SplitParts(s[1..], sep);
      assert s == [s[0]] + s[1..] && rest[0] in rest;
      if s[0] == sep {
        JoinAfterEmpty(rest, sep);
      } else {
        JoinGrown(s[0], rest, sep);
      }
    }
  }

  lemma {:induction false} SplitPrefix(head: string, tail: string, sep: char)
    requires Without(head, sep)
    ensures Split(head + [sep] + tail, sep) == [head] + Split(tail, sep)
    ensures Split(head, sep) == [head]
  {
    if head == "" {
      assert ([sep] + tail)[1..] == tail;
      assert head + [sep] + tail == [sep] + tail;
    } else {
      assert head[0] in head && forall c :: c in head[1..] ==> c in head;
      SplitPrefix(head[1..], tail, sep);
      assert (head + [sep] + tail)[1..] == head[1..] + [sep] + tail;
      assert [head[0]] + head[1..] == head;
    }
  }

  /** Splitting undoes joining, for parts that do not contain the separator. */
  lemma {:induction false} SplitJoin(parts: seq<string>, sep: char)
    requires parts != [] && forall p :: p in parts ==> Without(p, sep)
    ensures Split(Join(parts, sep), sep) == parts
  {
    assert parts[0] in parts;
    SplitPrefix(parts[0], Join(parts[1..], sep), sep);
    if |parts| > 1 {
      assert forall p :: p in parts[1..] ==> p in parts;
      SplitJoin(parts[1..], sep);
      assert [parts[0]] + parts[1..] == parts;
    }
  }

  // ---- normalization ----

  function NormalizeIdentifier(lower: string -> string, value: string): Result<string> {
    var normalized := lower(Strip(value));
    if normalized == "" then Err("identifier must not be empty") else Ok(normalized)
  }

  /** The stripped, non-empty parts. */
  function CleanParts(parts: seq<string>): seq<string> {
    if parts == [] then []
    else (if Strip(parts[0]) != "" then [Strip(parts[0])] else []) + CleanParts(parts[1..])
  }

  /** A topic's levels. */
  function Levels(topic: string): seq<string> { CleanParts(Split(Strip(topic), '/')) }

  function NormalizeTopic(topic: string): Result<string> {
    var normalized := Join(Levels(topic), '/');
    if normalized == "" then Err("topic must not be empty") else Ok(normalized)
  }

  ghost predicate AreLevels(levels: seq<string>) {
    forall p :: p in levels ==> p != "" && Trimmed(p) && Without(p, '/')
  }

  lemma HeadIsLevel(part: string)
    requires Without(part, '/')
    ensures AreLevels(if Strip(part) != "" then [Strip(part)] else [])
    ensures AreLevels([part]) ==> Strip(part) == part && part != ""
  {
    hide Strip, Trimmed;
    StripTrims(part);
    assert part in [part];
  }

  lemma LevelsAppend(a: seq<string>, b: seq<string>)
    requires AreLevels(a) && AreLevels(b)
    ensures AreLevels(a + b)
  {
    hide Trimmed;
  }

  lemma LevelsSplit(parts: seq<string>)
    requires parts != [] && AreLevels(parts)
    ensures AreLevels([parts[0]]) && AreLevels(parts[1..])
  {
    hide Trimmed;
    assert parts[0] in parts && forall p :: p in parts[1..] ==> p in parts;
  }

  lemma {:induction false} CleanPartsAreLevels(parts: seq<string>)
    requires forall p :: p in parts ==> Without(p, '/')
    ensures AreLevels(CleanParts(parts))
    ensures AreLevels(parts) ==> CleanParts(parts) == parts
  {
    if parts != [] {
      hide Strip, AreLevels, Without;
      var head := if Strip(parts[0]) != "" then [Strip(parts[0])] else [];
      assert parts[0] in parts && forall p :: p in parts[1..] ==> p in parts;
      CleanPartsAreLevels(parts[1..]);
      HeadIsLevel(parts[0]);
      LevelsAppend(head, CleanParts(parts[1..]));
      if AreLevels(parts) {
        LevelsSplit(parts);
        assert [parts[0]] + parts[1..] == parts;
      }
    }
  }

  lemma LevelsAreLevels(topic: string)
    ensures AreLevels(Levels(topic))
  {
    SplitParts(Strip(topic), '/');
    CleanPartsAreLevels(Split(Strip(topic), '/'));
  }

  lemma {:induction false} JoinedLevelsAreTrimmed(levels: seq<string>)
    requires levels != [] && AreLevels(levels)
    ensures Join(levels, '/') != "" && Trimmed(Join(levels, '/'))
  {
    assert levels[0] in levels;
    if |levels| > 1 {
      assert forall p :: p in levels[1..] ==> p in levels;
      JoinedLevelsAreTrimmed(levels[1..]);
    }
  }

  /** A topic is refused exactly when it has no level; otherwise the normalized topic's
      parts are its levels, and normalizing again changes nothing. */
  lemma TopicNormalizationIsIdempotent(topic: string)
    ensures NormalizeTopic(topic).Err? <==> Levels(topic) == []
    ensures NormalizeTopic(topic).Ok? ==>
              var n := NormalizeTopic(topic).value;
              Split(n, '/') == Levels(topic) && Levels(n) == Levels(topic) && NormalizeTopic(n) == Ok(n)
  {
    var levels := Levels(topic);
    LevelsAreLevels(topic);
    if levels != [] {
      var n := Join(levels, '/');
      JoinedLevelsAreTrimmed(levels);
      StripTrims(n);
      SplitJoin(levels, '/');
      CleanPartsAreLevels(levels);
    }
  }

  const UNIT_SEPARATOR: char := 31 as char

  function KeyMaterial(parts: seq<string>): string { Join(parts, UNIT_SEPARATOR) }

  /** An absent or empty tenant is the empty text. */
  function TenantPart(lower: string -> string, tenant: Option<string>): Result<string> {
    if tenant.Some? && tenant.value != "" then NormalizeIdentifier(lower, tenant.value) else Ok("")
  }

  /** The normalized source, topic and tenant. */
  function StreamParts(lower: string -> string, sourceId: string, topic: string,
                       tenant: Option<string>): Result<seq<string>> {
    match NormalizeIdentifier(lower, sourceId)
    case Err(code) => Err(code)
    case Ok(source) =>
      match NormalizeTopic(topic)
      case Err(code) => Err(code)
      case Ok(t) =>
        match TenantPart(lower, tenant)
        case Err(code) => Err(code)
        case Ok(n) => Ok([source, t, n])
  }

  function StreamKeyMaterial(lower: string -> string, sourceId: string, topic: string,
                             tenant: Option<string>): Result<string> {
    match StreamParts(lower, sourceId, topic, tenant)
    case Err(code) => Err(code)
    case Ok(parts) => Ok(KeyMaterial(parts))
  }

  // ---- when key material identifies its parts ----

  function Put(c: char, parts: seq<string>): seq<string>
    requires parts != []
  {
    [[c] + parts[0]] + parts[1..]
  }

  lemma PutOne(c: char, part: string)
    ensures Put(c, [] + [part]) == [[c] + part]
  {
  }

  lemma PutAppend(c: char, a: seq<string>, b: seq<string>)
    requires a != []
    ensures Put(c, a + b) == Put(c, a) + b
    ensures [""] + (a + b) == ([""] + a) + b
  {
  }

  lemma SplitStep(c: char, s: string, sep: char)
    ensures Split([c] + s, sep) == if c == sep then [""] + Split(s, sep) else Put(c, Split(s, sep))
  {
  }

  lemma {:induction false} SplitSeparated(head: string, tail: string, sep: char)
    ensures Split(head + [sep] + tail, sep) == Split(head, sep) + Split(tail, sep)
  {
    if head == "" {
      assert ([sep] + tail)[1..] == tail;
      assert head + [sep] + tail == [sep] + tail;
    } else {
      var rest := head[1..] + [sep] + tail;
      SplitSeparated(head[1..], tail, sep);
      assert head + [sep] + tail == [head[0]] + rest;
      SplitStep(head[0], rest, sep);
      SplitStep(head[0], head[1..], sep);
      assert head == [head[0]] + head[1..];
      PutAppend(head[0], Split(head[1..], sep), Split(tail, sep));
    }
  }

  lemma {:induction false} SingleSplit(s: string, sep: char)
    requires |Split(s, sep)| == 1
    ensures Without(s, sep)
  {
    if s != "" {
      SingleSplit(s[1..], sep);
      assert s == [s[0]] + s[1..];
    }
  }

  /** A joined text splits into more parts than were joined exactly when a part contains the separator. */
  lemma {:induction false} SplitsAtLeastAsJoined(parts: seq<string>, sep: char)
    requires parts != []
    ensures |Split(Join(parts, sep), sep)| >= |parts|
    ensures |Split(Join(parts, sep), sep)| == |parts| ==> forall p :: p in parts ==> Without(p, sep)
  {
    if |parts| == 1 {
      if |Split(parts[0], sep)| == 1 {
        SingleSplit(parts[0], sep);
      }
    } else {
      SplitSeparated(parts[0], Join(parts[1..], sep), sep);
      SplitsAtLeastAsJoined(parts[1..], sep);
      if |Split(Join(parts, sep), sep)| == |parts| {
        SingleSplit(parts[0], sep);
        assert parts == [parts[0]] + parts[1..];
      }
    }
  }

  predicate SeparatorFree(parts: seq<string>) { forall p :: p in parts ==> Without(p, UNIT_SEPARATOR) }

  /** Key material without a separator inside a part is shared with no other parts of the same number. */
  lemma KeyMaterialIsInjective(a: seq<string>, b: seq<string>)
    requires a != [] && |b| == |a| && SeparatorFree(a)
    requires KeyMaterial(a) == KeyMaterial(b)
    ensures a == b
  {
    SplitJoin(a, UNIT_SEPARATOR);
    SplitsAtLeastAsJoined(b, UNIT_SEPARATOR);
    SplitJoin(b, UNIT_SEPARATOR);
  }

  lemma ThreeParts(a: string, b: string, c: string)
    ensures KeyMaterial([a, b, c]) == a + [UNIT_SEPARATOR] + (b + [UNIT_SEPARATOR] + c)
  {
    assert [a, b, c][1..] == [b, c] && [b, c][1..] == [c];
    assert Join([c], UNIT_SEPARATOR) == c;
    assert Join([b, c], UNIT_SEPARATOR) == b + [UNIT_SEPARATOR] + c;
  }

  // ---- what the levels are ----

  lemma StripIgnoresFirstSpace(c: char, s: string)
    requires IsSpace(c)
    ensures Strip([c] + s) == Strip(s)
  {
    assert ([c] + s)[1..] == s;
  }

  lemma {:induction false} StripLeftOfMore(s: string, c: char)
    ensures StripLeft(s) != "" ==> StripLeft(s + [c]) == StripLeft(s) + [c]
    ensures StripLeft(s) == "" && IsSpace(c) ==> StripLeft(s + [c]) == ""
  {
    if s == "" {
      assert s + [c] == [c] && [c][1..] == "";
    } else {
      assert (s + [c])[1..] == s[1..] + [c];
      StripLeftOfMore(s[1..], c);
    }
  }

  lemma StripIgnoresLastSpace(s: string, c: char)
    requires IsSpace(c)
    ensures Strip(s + [c]) == Strip(s)
  {
    StripLeftOfMore(s, c);
    if StripLeft(s) != "" {
      var t := StripLeft(s);
      assert (t + [c])[..|t|] == t;
    }
  }

  lemma EmptySplit(sep: char)
    ensures Split("", sep) == [] + [""]
  {
  }

  /** A character at the end of the text, no separator, belongs to its last part. */
  lemma {:induction false} SplitOfMore(s: string, c: char, sep: char) returns (before: seq<string>, last: string)
    requires c != sep
    ensures Split(s, sep) == before + [last] && Split(s + [c], sep) == before + [last + [c]]
  {
    hide Put, Split;
    if s == "" {
      SplitPrefix([c], "", sep);
      EmptySplit(sep);
      before, last := [], "";
      assert s + [c] == [c] && "" + [c] == [c];
    } else {
      before, last := SplitOfMore(s[1..], c, sep);
      assert (s + [c])[1..] == s[1..] + [c] && (s + [c])[0] == s[0];
      SplitStep(s[0], s[1..], sep);
      SplitStep(s[0], s[1..] + [c], sep);
      assert s == [s[0]] + s[1..] && s + [c] == [s[0]] + (s[1..] + [c]);
      if s[0] == sep {
        assert [""] + (before + [last]) == ([""] + before) + [last];
        assert [""] + (before + [last + [c]]) == ([""] + before) + [last + [c]];
        before := [""] + before;
      } else if before == [] {
        PutOne(s[0], last);
        PutOne(s[0], last + [c]);
        assert [s[0]] + (last + [c]) == ([s[0]] + last) + [c];
        last := [s[0]] + last;
        assert [] + [last] == [last] && [] + [last + [c]] == [last + [c]];
      } else {
        PutAppend(s[0], before, [last]);
        PutAppend(s[0], before, [last + [c]]);
        before := Put(s[0], before);
      }
    }
  }

  lemma {:induction false} CleanAppend(a: seq<string>, b: seq<string>)
    ensures CleanParts(a + b) == CleanParts(a) + CleanParts(b)
  {
    hide Strip;
    if a == [] {
      assert a + b == b;
    } else {
      assert (a + b)[1..] == a[1..] + b;
      CleanAppend(a[1..], b);
    }
  }

  lemma CleanOne(part: string)
    ensures CleanParts([part]) == if Strip(part) != "" then [Strip(part)] else []
  {
    hide Strip;
    assert [part][1..] == [];
  }

  lemma LastPartMayBePadded(before: seq<string>, last: string, c: char)
    requires IsSpace(c)
    ensures CleanParts(before + [last + [c]]) == CleanParts(before + [last])
  {
    hide Strip, IsSpace, CleanParts;
    StripIgnoresLastSpace(last, c);
    CleanAppend(before, [last + [c]]);
    CleanAppend(before, [last]);
    CleanOne(last);
    CleanOne(last + [c]);
  }

  lemma FirstPartMayBePadded(c: char, parts: seq<string>)
    requires parts != [] && IsSpace(c)
    ensures CleanParts([[c] + parts[0]] + parts[1..]) == CleanParts(parts)
  {
    hide Strip, IsSpace;
    StripIgnoresFirstSpace(c, parts[0]);
    assert ([[c] + parts[0]] + parts[1..])[1..] == parts[1..];
  }

  /** Spaces around a topic add nothing to its levels. */
  lemma {:induction false} PaddingAddsNoLevels(a: string, s: string, b: string)
    requires forall c :: c in a + b ==> IsSpace(c)
    ensures CleanParts(Split(a + s + b, '/')) == CleanParts(Split(s, '/'))
    decreases |a| + |b|
  {
    hide Strip, CleanParts;
    if a != "" {
      var rest := a[1..] + s + b;
      assert a[0] in a + b && a + s + b == [a[0]] + rest && (a + s + b)[1..] == rest;
      assert forall c :: c in a[1..] + b ==> c in a + b;
      PaddingAddsNoLevels(a[1..], s, b);
      FirstPartMayBePadded(a[0], Split(rest, '/'));
    } else if b != "" {
      var n := |b| - 1;
      assert b[n] in a + b && a + s + b == (a + s + b[..n]) + [b[n]];
      assert forall c :: c in a + b[..n] ==> c in a + b;
      PaddingAddsNoLevels(a, s, b[..n]);
      var before, last := SplitOfMore(a + s + b[..n], b[n], '/');
      LastPartMayBePadded(before, last, b[n]);
    } else {
      assert a + s + b == s;
    }
  }

  /** The levels of a topic are what stands between its slashes, without the spaces around it,
      where that is not empty: one level or none without a slash; and a slash puts the
      levels before it in front of the levels after it. */
  lemma LevelsAreWhatStandsBetween(a: string, b: string)
    ensures Levels(a + "/" + b) == Levels(a) + Levels(b)
    ensures Without(a, '/') ==> Levels(a) == if Strip(a) != "" then [Strip(a)] else []
  {
    hide Strip, CleanParts;
    StrippedLevels(a);
    StrippedLevels(b);
    StrippedLevels(a + "/" + b);
    assert a + "/" + b == a + ['/'] + b;
    SplitSeparated(a, b, '/');
    CleanAppend(Split(a, '/'), Split(b, '/'));
    if Without(a, '/') {
      SplitPrefix(a, "", '/');
      CleanOne(a);
    }
  }

  lemma StrippedLevels(topic: string)
    ensures Levels(topic) == CleanParts(Split(topic, '/'))
  {
    hide Strip, CleanParts;
    var a, b := StripRemovesSpaces(topic);
    PaddingAddsNoLevels(a, Strip(topic), b);
  }

  // ---- when a stream key identifies its stream ----

  /** Two streams, one of them without a separator in its normalized parts, share key material
      exactly when their normalized source, topic and tenant agree. */
  lemma SeparatorFreeStreamsAreTold(lower: string -> string, s1: string, t1: string, n1: Option<string>, s2: string,
                                    t2: string, n2: Option<string>)
    requires StreamParts(lower, s1, t1, n1).Ok? && StreamParts(lower, s2, t2, n2).Ok?
    requires SeparatorFree(StreamParts(lower, s1, t1, n1).value)
    ensures StreamKeyMaterial(lower, s1, t1, n1) == StreamKeyMaterial(lower, s2, t2, n2)
       <==> StreamParts(lower, s1, t1, n1) == StreamParts(lower, s2, t2, n2)
  {
    hide NormalizeIdentifier, NormalizeTopic, TenantPart, KeyMaterial, SeparatorFree;
    if StreamKeyMaterial(lower, s1, t1, n1) == StreamKeyMaterial(lower, s2, t2, n2) {
      KeyMaterialIsInjective(StreamParts(lower, s1, t1, n1).value, StreamParts(lower, s2, t2, n2).value);
    }
  }

  /** Lower-casing neither empties a text nor pads it. */
  ghost predicate KeepsText(lower: string -> string) {
    lower("") == "" && forall s :: s != "" && Trimmed(s) ==> lower(s) != "" && Trimmed(lower(s))
  }

  /** And doing it twice is doing it once. */
  ghost predicate LowersOnce(lower: string -> string) {
    KeepsText(lower) && forall s :: lower(lower(s)) == lower(s)
  }

  lemma IdentifiersAreFixed(lower: string -> string, value: string)
    requires LowersOnce(lower) && NormalizeIdentifier(lower, value).Ok?
    ensures var n := NormalizeIdentifier(lower, value).value; NormalizeIdentifier(lower, n) == Ok(n)
  {
    hide Strip;
    StripTrims(value);
    StripTrims(lower(Strip(value)));
  }

  /** The pieces from i up to j, with the separators between them. */
  function Group(pieces: seq<string>, i: nat, j: nat): string
    requires i <= j <= |pieces|
  {
    KeyMaterial(pieces[i..j])
  }

  function CutAt(pieces: seq<string>, i: nat, j: nat): seq<string>
    requires i <= j <= |pieces|
  {
    [Group(pieces, 0, i), Group(pieces, i, j), Group(pieces, j, |pieces|)]
  }

  /** Cut there, the pieces read as a normalized source, a normalized topic, and no tenant or
      a normalized one. */
  predicate ReadsAsStream(lower: string -> string, pieces: seq<string>, i: nat, j: nat)
    requires i <= j <= |pieces|
  {
    var parts := CutAt(pieces, i, j);
    && NormalizeIdentifier(lower, parts[0]) == Ok(parts[0])
    && NormalizeTopic(parts[1]) == Ok(parts[1])
    && (parts[2] == "" || NormalizeIdentifier(lower, parts[2]) == Ok(parts[2]))
  }

  lemma {:induction false} JoinParts(a: seq<string>, b: seq<string>, sep: char)
    requires a != [] && b != []
    ensures Join(a + b, sep) == Join(a, sep) + [sep] + Join(b, sep)
  {
    if |a| == 1 {
      assert (a + b)[1..] == b;
    } else {
      assert (a + b)[1..] == a[1..] + b;
      JoinParts(a[1..], b, sep);
    }
  }

  lemma CutMaterial(pieces: seq<string>, i: nat, j: nat)
    requires 0 < i < j < |pieces|
    ensures KeyMaterial(CutAt(pieces, i, j)) == KeyMaterial(pieces)
  {
    var a, b, c := pieces[0..i], pieces[i..j], pieces[j..|pieces|];
    assert pieces == a + (b + c);
    JoinParts(b, c, UNIT_SEPARATOR);
    JoinParts(a, b + c, UNIT_SEPARATOR);
    ThreeParts(Group(pieces, 0, i), Group(pieces, i, j), Group(pieces, j, |pieces|));
  }

  /** Every three parts with this material are a cut of its pieces. */
  lemma PartsAreACut(x: string, y: string, z: string) returns (i: nat, j: nat)
    ensures var pieces := Split(KeyMaterial([x, y, z]), UNIT_SEPARATOR);
            0 < i < j < |pieces| && CutAt(pieces, i, j) == [x, y, z]
  {
    hide Split, Join;
    var u := UNIT_SEPARATOR;
    var a, b, c := Split(x, u), Split(y, u), Split(z, u);
    ThreeParts(x, y, z);
    SplitSeparated(y, z, u);
    SplitSeparated(x, y + [u] + z, u);
    assert x + [u] + (y + [u] + z) == KeyMaterial([x, y, z]);
    i, j := |a|, |a| + |b|;
    var pieces := a + (b + c);
    assert pieces[0..i] == a && pieces[i..j] == b && pieces[j..|pieces|] == c;
    SplitParts(x, u);
    SplitParts(y, u);
    SplitParts(z, u);
  }

  lemma StreamReadsAsItself(lower: string -> string, sourceId: string, topic: string, tenant: Option<string>)
    requires LowersOnce(lower) && StreamParts(lower, sourceId, topic, tenant).Ok?
    ensures var parts := StreamParts(lower, sourceId, topic, tenant).value;
            && NormalizeIdentifier(lower, parts[0]) == Ok(parts[0]) && NormalizeTopic(parts[1]) == Ok(parts[1])
            && (parts[2] == "" || NormalizeIdentifier(lower, parts[2]) == Ok(parts[2]))
  {
    hide NormalizeIdentifier, NormalizeTopic, LowersOnce;
    IdentifiersAreFixed(lower, sourceId);
    TopicNormalizationIsIdempotent(topic);
    if tenant.Some? && tenant.value != "" {
      IdentifiersAreFixed(lower, tenant.value);
    }
  }

  lemma FixedPartsMakeAStream(lower: string -> string, x: string, y: string, z: string)
    requires NormalizeIdentifier(lower, x) == Ok(x) && NormalizeTopic(y) == Ok(y)
             && (z == "" || NormalizeIdentifier(lower, z) == Ok(z))
    ensures StreamParts(lower, x, y, Some(z)) == Ok([x, y, z])
  {
  }

  /** No other stream has this stream's key material. */
  ghost predicate ToldApart(lower: string -> string, sourceId: string, topic: string, tenant: Option<string>) {
    forall s, t, n :: StreamKeyMaterial(lower, s, t, n) == StreamKeyMaterial(lower, sourceId, topic, tenant)
      ==> StreamParts(lower, s, t, n) == StreamParts(lower, sourceId, topic, tenant)
  }

  /** A stream is told apart from all others exactly when its own parts are the only way to
      cut the pieces of its key material into a source, a topic and a tenant. With three
      pieces, that is, without a separator in the parts, there is only one cut. */
  lemma StreamIsToldApartIff(lower: string -> string, sourceId: string, topic: string, tenant: Option<string>)
    requires LowersOnce(lower) && StreamParts(lower, sourceId, topic, tenant).Ok?
    ensures var parts := StreamParts(lower, sourceId, topic, tenant).value;
            var pieces := Split(KeyMaterial(parts), UNIT_SEPARATOR);
            && (ToldApart(lower, sourceId, topic, tenant) <==>
                  forall i, j :: 0 < i < j < |pieces| && ReadsAsStream(lower, pieces, i, j) ==>
                    CutAt(pieces, i, j) == parts)
            && (SeparatorFree(parts) ==> |pieces| == 3)
  {
    hide NormalizeIdentifier, NormalizeTopic, LowersOnce, KeyMaterial, CutAt, SeparatorFree;
    var parts := StreamParts(lower, sourceId, topic, tenant).value;
    var pieces := Split(KeyMaterial(parts), UNIT_SEPARATOR);
    SplitParts(KeyMaterial(parts), UNIT_SEPARATOR);
    if ToldApart(lower, sourceId, topic, tenant) {
      forall i, j | 0 < i < j < |pieces| && ReadsAsStream(lower, pieces, i, j) ensures CutAt(pieces, i, j) == parts {
        CutIsAStream(lower, pieces, i, j, parts);
      }
    } else {
      var s, t, n :| StreamKeyMaterial(lower, s, t, n) == StreamKeyMaterial(lower, sourceId, topic, tenant)
                     && StreamParts(lower, s, t, n) != StreamParts(lower, sourceId, topic, tenant);
      var i, j := StreamIsACut(lower, s, t, n, parts);
    }
    if SeparatorFree(parts) {
      SeparatorFreePieces(parts);
    }
  }

  lemma SeparatorFreePieces(parts: seq<string>)
    requires |parts| == 3 && SeparatorFree(parts)
    ensures |Split(KeyMaterial(parts), UNIT_SEPARATOR)| == 3
  {
    SplitJoin(parts, UNIT_SEPARATOR);
  }

  lemma CutIsAStream(lower: string -> string, pieces: seq<string>, i: nat, j: nat, parts: seq<string>)
    requires 0 < i < j < |pieces| && ReadsAsStream(lower, pieces, i, j)
    requires pieces == Split(KeyMaterial(parts), UNIT_SEPARATOR)
    ensures var cut := CutAt(pieces, i, j);
            && StreamParts(lower, cut[0], cut[1], Some(cut[2])) == Ok(cut)
            && StreamKeyMaterial(lower, cut[0], cut[1], Some(cut[2])) == Ok(KeyMaterial(parts))
  {
    hide NormalizeIdentifier, NormalizeTopic;
    var cut := CutAt(pieces, i, j);
    SplitParts(KeyMaterial(parts), UNIT_SEPARATOR);
    CutMaterial(pieces, i, j);
    FixedPartsMakeAStream(lower, cut[0], cut[1], cut[2]);
  }

  lemma StreamIsACut(lower: string -> string, s: string, t: string, n: Option<string>, parts: seq<string>)
    returns (i: nat, j: nat)
    requires LowersOnce(lower) && StreamKeyMaterial(lower, s, t, n) == Ok(KeyMaterial(parts))
    ensures var pieces := Split(KeyMaterial(parts), UNIT_SEPARATOR);
            0 < i < j < |pieces| && ReadsAsStream(lower, pieces, i, j)
                && Ok(CutAt(pieces, i, j)) == StreamParts(lower, s, t, n)
  {
    hide NormalizeIdentifier, NormalizeTopic, LowersOnce, KeyMaterial, CutAt;
    var other := StreamParts(lower, s, t, n).value;
    StreamReadsAsItself(lower, s, t, n);
    i, j := PartsAreACut(other[0], other[1], other[2]);
    assert other == [other[0], other[1], other[2]];
  }

  lemma BoundaryMoves(a: string, b: string, c: string)
    ensures var u := [UNIT_SEPARATOR]; (a + u + b) + u + (c + u + "") == a + u + ((b + u + c) + u + "")
  {
  }

  /** Not every stream is told apart: two different streams, one key material. */
  lemma SeparatorInIdentifierCollides(lower: string -> string)
    requires lower("a") == "a" && lower("a" + [UNIT_SEPARATOR] + "b") == "a" + [UNIT_SEPARATOR] + "b"
    ensures var u := [UNIT_SEPARATOR];
            && StreamKeyMaterial(lower, "a" + u + "b", "c", None) == StreamKeyMaterial(lower, "a", "b" + u + "c", None)
            && StreamKeyMaterial(lower, "a", "b" + u + "c", None).Ok?
  {
    var u := [UNIT_SEPARATOR];
    var source, topic := "a" + u + "b", "b" + u + "c";
    StripTrims(source);
    StripTrims("a");
    SingleLevel("c");
    SingleLevel(topic);
    ThreeParts(source, "c", "");
    ThreeParts("a", topic, "");
    BoundaryMoves("a", "b", "c");
  }

  lemma SingleLevel(topic: string)
    requires topic != "" && Trimmed(topic) && Without(topic, '/')
    ensures NormalizeTopic(topic) == Ok(topic)
  {
    StripTrims(topic);
    SplitPrefix(topic, "", '/');
    CleanPartsAreLevels([topic]);
  }

  /** A separator inside a part may do no harm: this stream is told apart from all others. */
  lemma SeparatorMayBeHarmless(lower: string -> string)
    requires LowersOnce(lower) && lower("a" + [UNIT_SEPARATOR] + " b") == "a" + [UNIT_SEPARATOR] + " b"
    ensures ToldApart(lower, "a" + [UNIT_SEPARATOR] + " b", "c", None)
    ensures StreamParts(lower, "a" + [UNIT_SEPARATOR] + " b", "c", None) == Ok(["a" + [UNIT_SEPARATOR] + " b", "c", ""])
  {
    hide NormalizeIdentifier, NormalizeTopic, KeyMaterial, Group, CutAt, LowersOnce, ToldApart;
    var source := "a" + [UNIT_SEPARATOR] + " b";
    var parts := [source, "c", ""];
    HarmlessParts(lower);
    StreamIsToldApartIff(lower, source, "c", None);
    HarmlessPieces();
    var pieces := Split(KeyMaterial(parts), UNIT_SEPARATOR);
    forall i, j | 0 < i < j < |pieces| && ReadsAsStream(lower, pieces, i, j) ensures CutAt(pieces, i, j) == parts {
      if i == 1 {
        NoTopicStartsWithSpace(lower, pieces, i, j);
        assert false;
      } else {
        HarmlessCut(pieces);
      }
    }
  }

  lemma HarmlessParts(lower: string -> string)
    requires lower("a" + [UNIT_SEPARATOR] + " b") == "a" + [UNIT_SEPARATOR] + " b"
    ensures StreamParts(lower, "a" + [UNIT_SEPARATOR] + " b", "c", None) == Ok(["a" + [UNIT_SEPARATOR] + " b", "c", ""])
  {
    hide Strip, NormalizeTopic;
    StripTrims("a" + [UNIT_SEPARATOR] + " b");
    SingleLevel("c");
  }

  lemma NoTopicStartsWithSpace(lower: string -> string, pieces: seq<string>, i: nat, j: nat)
    requires i < j <= |pieces| && pieces[i] != "" && IsSpace(pieces[i][0])
    ensures !ReadsAsStream(lower, pieces, i, j)
  {
    hide NormalizeTopic, NormalizeIdentifier;
    var group := pieces[i..j];
    assert group[0] == pieces[i];
    assert Group(pieces, i, j) != "" && Group(pieces, i, j)[0] == pieces[i][0];
    if ReadsAsStream(lower, pieces, i, j) {
      FixedTopicsAreTrimmed(Group(pieces, i, j));
    }
  }

  lemma HarmlessPieces()
    ensures Split(KeyMaterial(["a" + [UNIT_SEPARATOR] + " b", "c", ""]), UNIT_SEPARATOR) == ["a", " b", "c", ""]
  {
    var u := UNIT_SEPARATOR;
    ThreeParts("a" + [u] + " b", "c", "");
    SplitJoin(["a", " b", "c", ""], u);
    assert ["a", " b", "c", ""] == ["a", " b"] + ["c", ""];
    JoinParts(["a", " b"], ["c", ""], u);
    assert ["a", " b"][1..] == [" b"] && ["c", ""][1..] == [""];
  }

  lemma HarmlessCut(pieces: seq<string>)
    requires pieces == ["a", " b", "c", ""]
    ensures CutAt(pieces, 2, 3) == ["a" + [UNIT_SEPARATOR] + " b", "c", ""]
  {
    assert pieces[0..2] == ["a", " b"] && pieces[2..3] == ["c"] && pieces[3..4] == [""];
    assert KeyMaterial(["a", " b"]) == "a" + [UNIT_SEPARATOR] + " b" by {
      JoinParts(["a"], [" b"], UNIT_SEPARATOR);
      assert ["a"] + [" b"] == ["a", " b"];
    }
  }

  lemma FixedTopicsAreTrimmed(topic: string)
    requires NormalizeTopic(topic) == Ok(topic)
    ensures Trimmed(topic)
  {
    LevelsAreLevels(topic);
    JoinedLevelsAreTrimmed(Levels(topic));
  }
}
