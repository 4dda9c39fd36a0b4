/** Concrete runs: the assumptions of the theorems can be met together, and the one kind of
    outbox row that never maps does occur. */
module ReachableExamples {
  import opened Std
  import opened Text
  import opened JsonValues
  import opened JsonPath
  import opened LeaseTable
  import opened Repositories
  import opened ObservationTime
  import opened StreamIdentity
  import opened Storage
  import opened ObservationKeys
  import opened SchemaExtraction
  import opened FieldValueExtraction
  import opened StreamCatalog
  import opened FieldProjection
  import opened ProjectionSteps
  import opened PointMapping
  import opened PipelineRuns
  import opened MeasurementTheorems
  import QueriedFields
  import RegistryRuns

  // ---- a platform that meets every assumption ----

  /** An injective stand-in for a digest, without the separator. */
  function Guarded(s: string): string {
    if s == "" then "" else (if s[0] == UNIT_SEPARATOR then "0" else ['1', s[0]]) + Guarded(s[1..])
  }

  lemma {:induction false} GuardedIsPlain(s: string)
    ensures Without(Guarded(s), UNIT_SEPARATOR)
  {
    if s != "" {
      GuardedIsPlain(s[1..]);
    }
  }

  lemma {:induction false} GuardedIsInjective(a: string, b: string)
    requires Guarded(a) == Guarded(b)
    ensures a == b
  {
    if a != "" && b != "" {
      var x := if a[0] == UNIT_SEPARATOR then "0" else ['1', a[0]];
      var y := if b[0] == UNIT_SEPARATOR then "0" else ['1', b[0]];
      FirstIsRead(x, Guarded(a[1..]), y, Guarded(b[1..]));
      GuardedIsInjective(a[1..], b[1..]);
      assert a == [a[0]] + a[1..] && b == [b[0]] + b[1..];
    }
  }

  lemma FirstIsRead(x: string, more: string, y: string, others: string)
    requires x != "" && y != "" && x + more == y + others && (x[0] == y[0] ==> |x| == |y|)
    ensures x == y && more == others
  {
    var s, t := x + more, y + others;
    assert s[0] == x[0] && t[0] == y[0];
    assert s[..|x|] == x && t[..|y|] == y && s[|x|..] == more && t[|y|..] == others;
  }

  function Ones(n: nat): (s: string)
    ensures |s| == n && forall c :: c in s ==> c == '1'
  {
    if n == 0 then "" else "1" + Ones(n - 1)
  }

  function WriteTime(t: int): string { if t < 0 then "-" + Ones(-t) else "+" + Ones(t) }

  function ReadTime(s: string): Parsed {
    if s == "" then NotATime else if s[0] == '-' then Aware(1 - |s|) else Aware(|s| - 1)
  }

  /** Numbers written out, each ended by a zero. */
  function WrittenOut(ns: seq<nat>): string {
    if ns == [] then "" else Ones(ns[0]) + "0" + WrittenOut(ns[1..])
  }

  lemma {:induction false} NumbersArePlain(ns: seq<nat>)
    ensures Without(WrittenOut(ns), UNIT_SEPARATOR)
  {
    if ns != [] {
      NumbersArePlain(ns[1..]);
    }
  }

  const DOCUMENT := JObject([Member("x", JInt(7))])

  function SomePlatform(): Platform {
    Platform(
      s => s, Guarded, WrittenOut, WriteTime, ReadTime, b => true,
      (b: Bytes) => if b == [1] then Some(DOCUMENT) else None, (n: nat) => "1" + Ones(n), v => "?")
  }

  lemma TimesAreReadBack(t: int)
    ensures ReadTime(WriteTime(t)) == Aware(t) && WriteTime(t) != "" && Without(WriteTime(t), UNIT_SEPARATOR)
  {
    hide Ones;
  }

  lemma DigestsDoNotCollide()
    ensures CollisionFree(SomePlatform())
  {
    hide Guarded;
    forall a, b | Guarded(a) == Guarded(b) ensures a == b {
      GuardedIsInjective(a, b);
    }
  }

  lemma TextsArePlain()
    ensures PlainTexts(SomePlatform())
  {
    hide Guarded, WriteTime, ReadTime, WrittenOut;
    forall a ensures Without(Guarded(a), UNIT_SEPARATOR) {
      GuardedIsPlain(a);
    }
    forall b: Bytes ensures Without(WrittenOut(b), UNIT_SEPARATOR) {
      NumbersArePlain(b);
    }
    forall t ensures Without(WriteTime(t), UNIT_SEPARATOR) {
      TimesAreReadBack(t);
    }
    forall t, u | WriteTime(t) == WriteTime(u) ensures t == u {
      TimesAreReadBack(t);
      TimesAreReadBack(u);
    }
  }

  lemma TextsAreReadBack()
    ensures ReadsItsOwnWriting(SomePlatform())
  {
    hide Guarded, WriteTime, ReadTime;
    forall t ensures ReadTime(WriteTime(t)) == Aware(t) && WriteTime(t) != "" {
      TimesAreReadBack(t);
    }
  }

  function ReadId(s: string): nat { if s == "" then 0 else |s| - 1 }

  // ---- a codec that tells documents apart ----

  function KindCode(k: Kind): nat {
    match k
    case ObjectKind => 0 case ArrayKind => 1 case StringKind => 2 case IntegerKind => 3
    case NumberKind => 4 case BooleanKind => 5 case NullKind => 6 case MixedKind => 7
  }

  function Codes(s: string): (r: seq<nat>)
    ensures |r| == |s| && forall i :: 0 <= i < |s| ==> r[i] == s[i] as nat
  {
    seq(|s|, i requires 0 <= i < |s| => s[i] as nat)
  }

  function Listed(e: Entry): seq<nat> {
    [|e.path|] + Codes(e.path) + [KindCode(e.field.kind), e.field.depth, if e.field.nullable then 1 else 0]
  }

  function AllListed(entries: seq<Entry>): seq<nat> {
    if entries == [] then [] else Listed(entries[0]) + AllListed(entries[1..])
  }

  function Encoded(d: SchemaDocument): seq<nat> { [KindCode(d.rootType)] + AllListed(d.entries) }

  function SomeCodec(): Codec { Codec(Encoded, WrittenOut) }

  lemma EntryIsRead(a: Entry, b: Entry, x: seq<nat>, y: seq<nat>)
    requires Listed(a) + x == Listed(b) + y
    ensures a == b && x == y
  {
    hide KindCode;
    var s, t := Listed(a) + x, Listed(b) + y;
    assert s[0] == |a.path| && t[0] == |b.path|;
    assert |Listed(a)| == |Listed(b)|;
    assert s[..|Listed(a)|] == Listed(a) && t[..|Listed(a)|] == Listed(b);
    assert s[|Listed(a)|..] == x && t[|Listed(a)|..] == y;
    forall i | 0 <= i < |a.path| ensures a.path[i] == b.path[i] {
      assert Listed(a)[i + 1] == a.path[i] as nat && Listed(b)[i + 1] == b.path[i] as nat;
    }
    assert a.path == b.path;
    var n := |a.path|;
    assert Listed(a)[n + 1] == KindCode(a.field.kind) && Listed(b)[n + 1] == KindCode(b.field.kind);
    assert Listed(a)[n + 2] == a.field.depth && Listed(b)[n + 2] == b.field.depth;
    assert Listed(a)[n + 3] == (if a.field.nullable then 1 else 0)
           && Listed(b)[n + 3] == (if b.field.nullable then 1 else 0);
    KindsHaveCodes(a.field.kind, b.field.kind);
  }

  lemma KindsHaveCodes(a: Kind, b: Kind)
    requires KindCode(a) == KindCode(b)
    ensures a == b
  {
  }

  lemma {:induction false} EntriesAreRead(a: seq<Entry>, b: seq<Entry>)
    requires AllListed(a) == AllListed(b)
    ensures a == b
  {
    hide Listed;
    if a != [] && b != [] {
      EntryIsRead(a[0], b[0], AllListed(a[1..]), AllListed(b[1..]));
      EntriesAreRead(a[1..], b[1..]);
      assert a == [a[0]] + a[1..] && b == [b[0]] + b[1..];
    } else {
      ListingIsNotEmpty(if a == [] then b else a);
    }
  }

  lemma ListingIsNotEmpty(entries: seq<Entry>)
    ensures entries != [] ==> AllListed(entries) != []
  {
  }

  lemma ZeroEnds(n: nat, more: string)
    ensures var t := Ones(n) + "0" + more; t[n] == '0' && forall i :: 0 <= i < n ==> t[i] == '1'
  {
    forall i | 0 <= i < n ensures Ones(n)[i] == '1' {
      assert Ones(n)[i] in Ones(n);
    }
  }

  lemma NumberIsRead(m: nat, n: nat, x: string, y: string)
    requires Ones(m) + "0" + x == Ones(n) + "0" + y
    ensures m == n && x == y
  {
    var s, t := Ones(m) + "0" + x, Ones(n) + "0" + y;
    ZeroEnds(m, x);
    ZeroEnds(n, y);
    assert s[m + 1..] == x && t[n + 1..] == y;
  }

  lemma {:induction false} NumbersAreRead(a: seq<nat>, b: seq<nat>)
    requires WrittenOut(a) == WrittenOut(b)
    ensures a == b
  {
    if a != [] && b != [] {
      NumberIsRead(a[0], b[0], WrittenOut(a[1..]), WrittenOut(b[1..]));
      NumbersAreRead(a[1..], b[1..]);
      assert a == [a[0]] + a[1..] && b == [b[0]] + b[1..];
    }
  }

  lemma DigestsAreDifferent()
    ensures DigestsDiffer(SomePlatform())
  {
    hide WrittenOut;
    forall a: Bytes, b: Bytes | WrittenOut(a) == WrittenOut(b) ensures a == b {
      NumbersAreRead(a, b);
    }
  }

  lemma CodecTellsApart()
    ensures RegistryRuns.TellsApart(SomeCodec())
  {
    hide WrittenOut, AllListed;
    forall a: SchemaDocument, b: SchemaDocument | WrittenOut(Encoded(a)) == WrittenOut(Encoded(b)) ensures a == b {
      NumbersAreRead(Encoded(a), Encoded(b));
      assert Encoded(a)[0] == Encoded(b)[0] && Encoded(a)[1..] == AllListed(a.entries)
             && Encoded(b)[1..] == AllListed(b.entries);
      KindsHaveCodes(a.rootType, b.rootType);
      EntriesAreRead(a.entries, b.entries);
    }
  }

  /** Digests without collisions, plain and distinct times, times and identifiers read back as
      written, lower-casing that is done once, and fingerprints that tell schema documents
      apart can all be had together. */
  lemma AssumptionsCanBeMet()
    ensures CollisionFree(SomePlatform()) && DigestsDiffer(SomePlatform())
    ensures PlainTexts(SomePlatform()) && ReadsItsOwnWriting(SomePlatform())
    ensures LowersOnce(SomePlatform().lower) && QueriedFields.ReadsIds(SomePlatform(), ReadId)
    ensures RegistryRuns.TellsApart(SomeCodec())
  {
    hide CollisionFree, PlainTexts, ReadsItsOwnWriting, Trimmed, RegistryRuns.TellsApart, DigestsDiffer, Guarded,
         WriteTime, ReadTime;
    DigestsDoNotCollide();
    DigestsAreDifferent();
    TextsArePlain();
    TextsAreReadBack();
    CodecTellsApart();
  }

  // ---- a field row that does not map ----

  function SomeSettings(): Settings { Settings(["#"], 10, 0, 60, 5, 5, Policy(5, 1, 60)) }

  /** An observation whose tenant is the empty text. */
  function NoTenantName(): Command { Command("s", "t", [1], Some(""), JSON_CONTENT, map[], 0) }

  lemma OneKey()
    ensures SortedSet(Keys(DOCUMENT.members)) == ["x"]
  {
    var keys := SortedSet(Keys(DOCUMENT.members));
    assert Member("x", JInt(7)) in DOCUMENT.members;
    assert Keys(DOCUMENT.members) == {"x"};
    assert keys[0] in keys;
  }

  lemma OneScalar()
    ensures Stops(DOCUMENT, []) == [StopAt([], DOCUMENT), StopAt([Key("x")], JInt(7))]
  {
    hide SortedSet;
    OneKey();
    assert ["x"][..0] == [] && [] + [Key("x")] == [Key("x")];
    assert DOCUMENT.members[0].key == "x" && Lookup(DOCUMENT.members, "x") == JInt(7);
    assert MemberStops(DOCUMENT.members, [], []) == [];
    assert MemberStops(DOCUMENT.members, ["x"], []) == Stops(JInt(7), [Key("x")]);
  }

  lemma ShortPath()
    ensures |Path([Key("x")])| <= MAX_PATH_LENGTH && |Path([])| <= MAX_PATH_LENGTH
  {
    assert [Key("x")][1..] == [];
    assert "x"[1..] == "";
  }

  lemma DocumentExtracts()
    ensures ExtractValues(1, Some(DOCUMENT)) == Ok(ScalarExtraction(map[Path([Key("x")]) := IntegerValue(7)], 0, 1))
  {
    hide Path;
    var root, field := StopAt([], DOCUMENT), StopAt([Key("x")], JInt(7));
    OneScalar();
    ShortPath();
    assert [root, field][..1] == [root] && [root][..0] == [];
    assert TakeStops([root], EMPTY_TALLY) == Ok(EMPTY_TALLY.(nodes := 1, containers := 1));
  }

  lemma ObservationIsResolved()
    ensures var r := Resolve(SomePlatform(), SomeSettings(), NoTenantName());
            r.Ok? && r.value.Some? && r.value.value.sourceId == "s" && r.value.value.topic == "t"
    ensures Classify(SomePlatform(), SomeSettings(), [1], JSON_CONTENT) == "accepted"
  {
    hide Guarded, Strip, Split, NormalizeTopic;
    StripTrims("s");
    SingleLevel("#");
    SingleLevel("t");
    SplitPrefix("#", "", '/');
    SplitPrefix("t", "", '/');
  }

  const NO_ROWS := Catalog([], [], [], [], [])

  /** The tables after the observation is received. */
  lemma AfterIngestion()
    ensures var t := Next(SomePlatform(), SomeSettings(), NO_ROWS, Ingest(NoTenantName()));
            && |t.streams| == 1 && t.streams[0].tenant == Some("") && t.streams[0].sourceId == "s"
            && t.streams[0].topic == "t"
            && |t.raws| == 1 && t.raws[0].payload == [1] && t.raws[0].contentType == JSON_CONTENT
            && t.raws[0].streamId == 0
            && |t.tasks| == 2 && t.tasks[1] == NewRow(FieldTask(0), 0)
  {
    hide SomePlatform, Resolve, Classify, PointDelivery, EvidenceOf, Identity, RawKey, Fingerprint;
    ObservationIsResolved();
    var p, s, c := SomePlatform(), SomeSettings(), NoTenantName();
    var target := Resolve(p, s, c).value.value;
    var e := EvidenceOf(p, s, c, Some(0), "accepted");
    var noted := Catalog([NewStream(target, c)], [e], [], [], []);
    assert Classify(p, s, c.payload, c.contentType) == "accepted";
    assert StreamsAfter([], target, c) == [NewStream(target, c)] && StreamFor([], target) == 0;
    assert [] + [e] == [e];
    assert NO_ROWS.(streams := StreamsAfter([], target, c), evidence := [] + [e]) == noted;
    assert Record(p, s, NO_ROWS, c) == Ok(Receipt(Accepted(p, s, noted, c, 0, 0), Some(0)));
    var after := Accepted(p, s, noted, c, 0, 0);
    assert !HasTask([NewRow(SchemaTask(0), 0)], FieldTask(0));
    assert after.tasks == [NewRow(SchemaTask(0), 0), NewRow(FieldTask(0), 0)];
  }

  ghost function Runs(p: Platform, s: Settings, t: Catalog, es: seq<Event>): seq<Catalog>
    decreases |es|
  {
    if es == [] then [t] else [t] + Runs(p, s, Next(p, s, t, es[0]), es[1..])
  }

  /** A run of three steps, from nothing: the observation is received, its field task claimed
      and projected. It ends with a field row that maps to no point. */
  lemma EmptyTenantRowsOccur() returns (ts: seq<Catalog>, es: seq<Event>)
    ensures IsRun(SomePlatform(), SomeSettings(), ts, es) && |es| == 3
    ensures exists k :: 0 <= k < |ts[3].outbox| && Mapping(SomePlatform(), ts[3].outbox[k].payload) == Err(INVALID)
  {
    hide SomePlatform, Next, Mapping, Inv, CollisionFree, PlainTexts, ReadsItsOwnWriting, FieldDelivery, Path;
    var p, s := SomePlatform(), SomeSettings();
    var item := Item(1, FieldTask(0), 1, 0);
    var e0, e1, e2 := Ingest(NoTenantName()), ClaimTasks(0, 1, [1]), ProjectFields(item, None, 0);
    var t1 := Next(p, s, NO_ROWS, e0);
    var t2 := Next(p, s, t1, e1);
    var t3 := Next(p, s, t2, e2);
    ts, es := [NO_ROWS, t1, t2, t3], [e0, e1, e2];
    AfterIngestion();
    assert Enabled(s, t1, e1);
    assert IsRun(p, s, ts, es);
    AfterClaim(t1, t2, item);
    AfterProjection(t2, t3, item);
    AssumptionsCanBeMet();
    InvAlways(p, s, ts, es, 3);
    var q := Path([Key("x")]);
    var d := FieldDelivery(p, 0, t3.raws[0], t3.streams[0], q, IntegerValue(7));
    RowIsThere(t3, d);
    var k :| 0 <= k < |t3.outbox| && t3.outbox[k].payload == d;
    PathStarts();
    FieldPointsAreValidIff(p, 0, t3.raws[0], t3.streams[0], q, IntegerValue(7));
    assert Mapping(p, t3.outbox[k].payload) == Err(INVALID);
  }

  lemma PathStarts()
    ensures Path([Key("x")]) != ""
  {
  }

  ghost predicate IsReceived(t: Catalog) {
    && |t.streams| == 1 && t.streams[0].tenant == Some("") && t.streams[0].sourceId == "s" && t.streams[0].topic == "t"
    && |t.raws| == 1 && t.raws[0].payload == [1] && t.raws[0].contentType == JSON_CONTENT && t.raws[0].streamId == 0
    && |t.tasks| == 2 && t.tasks[1].payload == FieldTask(0)
  }

  lemma AfterClaim(t1: Catalog, t2: Catalog, item: Item<Task>)
    requires IsReceived(t1) && t1.tasks[1] == NewRow(FieldTask(0), 0)
    requires t2 == Next(SomePlatform(), SomeSettings(), t1, ClaimTasks(0, 1, [1]))
    requires item == Item(1, FieldTask(0), 1, 0)
    ensures IsReceived(t2) && Current(t2.tasks, item)
  {
    hide SomePlatform;
    assert 1 in [1];
  }

  lemma AfterProjection(t2: Catalog, t3: Catalog, item: Item<Task>)
    requires IsReceived(t2) && item == Item(1, FieldTask(0), 1, 0) && Current(t2.tasks, item)
    requires t3 == Next(SomePlatform(), SomeSettings(), t2, ProjectFields(item, None, 0))
    ensures IsReceived(t3) && DoneField(t3.tasks, 1)
  {
    hide PersistedAll, ExtractValues, Path, Guarded, WriteTime, ReadTime;
    DocumentExtracts();
    assert SomePlatform().parse([1]) == Some(DOCUMENT);
    assert Prepare(SomePlatform(), t2, item).Ok?;
  }

  lemma RowIsThere(t: Catalog, d: Delivery)
    requires Inv(SomePlatform(), SomeSettings(), t) && IsReceived(t) && DoneField(t.tasks, 1)
    requires d == FieldDelivery(SomePlatform(), 0, t.raws[0], t.streams[0], Path([Key("x")]), IntegerValue(7))
    ensures HasPayload(t.outbox, d)
  {
    hide Sound, Origins, FieldDelivery, Path, Guarded, WriteTime, ReadTime, ExtractValues, HasPayload;
    DocumentExtracts();
    assert SomePlatform().parse([1]) == Some(DOCUMENT);
    assert ValuesOf(SomePlatform(), t.raws[0]) == Some(map[Path([Key("x")]) := IntegerValue(7)]);
    assert AllThere(SomePlatform(), SomeSettings(), t, 0);
    assert FieldThere(SomePlatform(), SomeSettings(), t, 0, Path([Key("x")]));
  }

  // ---- a stored observation that is refused as unsupported ----

  /** The same observation, first received without a content type. */
  function Undeclared(): Command { NoTenantName().(contentType := None) }

  lemma SameKey(streamKey: string)
    ensures RawOf(SomePlatform(), SomeSettings(), NoTenantName(), streamKey, 0, 1).observationKey
         == RawOf(SomePlatform(), SomeSettings(), Undeclared(), streamKey, 0, 0).observationKey
  {
    hide Guarded, WriteTime, ReadTime, RawKey;
    assert "timestamp" !in Keys(DOCUMENT.members);
    assert SourceTimestamp(SomePlatform(), NoTenantName()) == None;
  }

  lemma UndeclaredIsAccepted()
    ensures Resolve(SomePlatform(), SomeSettings(), Undeclared())
            == Resolve(SomePlatform(), SomeSettings(), NoTenantName())
    ensures Classify(SomePlatform(), SomeSettings(), [1], None) == "accepted"
  {
    hide Guarded, NormalizeIdentifier, NormalizeTopic, StreamKeyMaterial;
  }

  lemma FirstStream(key: string, stream: Stream)
    requires stream.key == key
    ensures FindStream([stream], key) == Some(0)
  {
  }

  lemma FirstRaw(raw: Raw)
    ensures FindRaw([raw], raw.observationKey) == Some(0) && FindRaw([], raw.observationKey) == None
  {
  }

  /** The undeclared observation is stored, and no task is queued for it. */
  lemma AfterUndeclared(target: Target)
    requires Resolve(SomePlatform(), SomeSettings(), Undeclared()) == Ok(Some(target))
    ensures var t := Next(SomePlatform(), SomeSettings(), NO_ROWS, Ingest(Undeclared()));
            && t.streams == [NewStream(target, Undeclared())] && |t.evidence| == 1 && t.tasks == [] && t.outbox == []
            && t.raws == [RawOf(SomePlatform(), SomeSettings(), Undeclared(), target.key, 0, 0)]
  {
    hide SomePlatform, Resolve, Classify, EvidenceOf, RawOf;
    UndeclaredIsAccepted();
    var p, s, c := SomePlatform(), SomeSettings(), Undeclared();
    var e := EvidenceOf(p, s, c, Some(0), "accepted");
    var noted := Catalog([NewStream(target, c)], [e], [], [], []);
    assert StreamsAfter([], target, c) == [NewStream(target, c)] && StreamFor([], target) == 0;
    assert NO_ROWS.(streams := StreamsAfter([], target, c), evidence := [] + [e]) == noted;
    assert Record(p, s, NO_ROWS, c) == Ok(Receipt(Accepted(p, s, noted, c, 0, 0), Some(0)));
    assert PointDelivery(p, s, c, noted.streams[0], 0, 0) == None;
  }

  ghost predicate AwaitsProjection(t: Catalog) {
    && t.tasks == [NewRow(SchemaTask(0), 0), NewRow(FieldTask(0), 0)]
    && |t.raws| == 1 && t.raws[0].contentType == None
  }

  /** Received again as JSON, it keeps its row, and its tasks are queued. */
  lemma AfterDeclared(target: Target, t: Catalog)
    requires Resolve(SomePlatform(), SomeSettings(), NoTenantName()) == Ok(Some(target))
    requires t.streams == [NewStream(target, Undeclared())] && |t.evidence| == 1 && t.tasks == [] && t.outbox == []
    requires t.raws == [RawOf(SomePlatform(), SomeSettings(), Undeclared(), target.key, 0, 0)]
    ensures AwaitsProjection(Next(SomePlatform(), SomeSettings(), t, Ingest(NoTenantName())))
  {
    hide SomePlatform, Resolve, Classify, EvidenceOf, PointDelivery, Identity, RawKey, Fingerprint;
    ObservationIsResolved();
    var p, s, c := SomePlatform(), SomeSettings(), NoTenantName();
    assert Classify(p, s, c.payload, c.contentType) == "accepted";
    FirstStream(target.key, t.streams[0]);
    var e := EvidenceOf(p, s, c, Some(0), "accepted");
    var noted := t.(streams := StreamsAfter(t.streams, target, c), evidence := t.evidence + [e]);
    assert noted.streams[0].key == target.key;
    assert Record(p, s, t, c) == Ok(Receipt(Accepted(p, s, noted, c, 0, 1), Some(0)));
    SameKey(target.key);
    FirstRaw(t.raws[0]);
    assert !HasTask([NewRow(SchemaTask(0), 0)], FieldTask(0));
  }

  /** A run of three steps after which the claimed field task of a stored observation is
      refused as unsupported input. */
  lemma UnsupportedInputOccurs() returns (ts: seq<Catalog>, es: seq<Event>, item: Item<Task>)
    ensures IsRun(SomePlatform(), SomeSettings(), ts, es) && |es| == 3
    ensures Current(ts[3].tasks, item) && item.payload == ts[3].tasks[item.id].payload && IsFieldTask(item.payload)
    ensures Prepare(SomePlatform(), ts[3], item) == Err("unsupported_persisted_input")
  {
    hide SomePlatform, Next, Resolve, RawOf;
    var p, s := SomePlatform(), SomeSettings();
    item := Item(1, FieldTask(0), 1, 0);
    var e0, e1, e2 := Ingest(Undeclared()), Ingest(NoTenantName()), ClaimTasks(0, 1, [1]);
    var t1 := Next(p, s, NO_ROWS, e0);
    var t2 := Next(p, s, t1, e1);
    var t3 := Next(p, s, t2, e2);
    ts, es := [NO_ROWS, t1, t2, t3], [e0, e1, e2];
    ObservationIsResolved();
    UndeclaredIsAccepted();
    var target := Resolve(p, s, NoTenantName()).value.value;
    AfterUndeclared(target);
    AfterDeclared(target, t1);
    assert Enabled(s, t2, e2);
    ClaimIsRefused(t2, t3, item);
  }

  lemma ClaimIsRefused(t2: Catalog, t3: Catalog, item: Item<Task>)
    requires AwaitsProjection(t2) && item == Item(1, FieldTask(0), 1, 0)
    requires t3 == Next(SomePlatform(), SomeSettings(), t2, ClaimTasks(0, 1, [1]))
    ensures Current(t3.tasks, item) && item.payload == t3.tasks[item.id].payload && IsFieldTask(item.payload)
    ensures Prepare(SomePlatform(), t3, item) == Err("unsupported_persisted_input")
  {
    hide SomePlatform, ExtractValues;
    assert 1 in [1];
  }
}
