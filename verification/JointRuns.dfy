/** The pipeline and the schema registry on the same tables: both kinds of worker claim from
    one task table, and the schema workers read the observations that ingestion stores. */
module JointRuns {
  import opened Std
  import opened LeaseTable
  import opened Repositories
  import opened Storage
  import opened StreamCatalog
  import opened CatalogTheorems
  import opened FieldProjection
  import opened SchemaRegistry
  import P = PipelineRuns
  import R = RegistryRuns
  import PipelineLeases
  import PipelineTheorems
  import ProjectionSteps
  import ObservationKeys
  import FieldValueExtraction
  import SchemaExtraction
  import ExtractorAgreement
  import ExtractorTheorems
  import LeaseRuns

  datatype System = System(catalog: Catalog, registry: Registry)

  datatype Event =
    | Pipeline(step: P.Event)
    | Observe(item: Item<Task>, takeover: Option<Takeover>, at: int)

  function Numbers(n: nat): (s: set<nat>)
    ensures forall i: nat :: i in s <==> i < n
  {
    if n == 0 then {} else Numbers(n - 1) + {n - 1}
  }

  /** What the schema workers read of the tables. */
  ghost function SourceOf(p: Platform, s: Settings, codec: SchemaExtraction.Codec, t: Catalog): Source {
    Source((map r: nat | r < |t.raws| :: t.raws[r]), Numbers(|t.streams|), p.parse, codec, P.TaskLimit(s))
  }

  ghost function Observed(p: Platform, s: Settings, codec: SchemaExtraction.Codec, y: System,
                          e: Event): SchemaRegistry.Effect
    requires e.Observe?
  {
    Process(SourceOf(p, s, codec, y.catalog), y.catalog.tasks, y.registry, e.item, e.takeover, e.at)
  }

  predicate IsSchemaRow(tasks: seq<Row<Task>>, id: nat) { id < |tasks| && IsSchemaTask(tasks[id].payload) }

  /** A schema task is only ever completed by the transaction that registers its schema. */
  ghost predicate Enabled(s: Settings, y: System, e: Event) {
    match e
    case Pipeline(step) =>
      && P.Enabled(s, y.catalog, step)
      && (step.SettleTask? && IsSchemaRow(y.catalog.tasks, step.settled.id) ==> !step.state.Done?)
    case Observe(_, _, _) => true
  }

  ghost function Next(p: Platform, s: Settings, codec: SchemaExtraction.Codec, y: System, e: Event): System {
    match e
    case Pipeline(step) => y.(catalog := P.Next(p, s, y.catalog, step))
    case Observe(_, _, _) =>
      var effect := Observed(p, s, codec, y, e);
      System(y.catalog.(tasks := effect.rows), effect.registry)
  }

  ghost predicate IsRun(p: Platform, s: Settings, codec: SchemaExtraction.Codec, ys: seq<System>, es: seq<Event>) {
    && |ys| == |es| + 1
    && ys[0] == System(Catalog([], [], [], [], []), Registry([], [], []))
    && forall k :: 0 <= k < |es| ==> Enabled(s, ys[k], es[k]) && ys[k + 1] == Next(p, s, codec, ys[k], es[k])
  }

  // ---- the tables are a run of the pipeline ----

  /** The step as the pipeline sees it: a schema worker's transaction completes its task, or
      loses it to another worker's claim, or leaves the tables alone. */
  ghost function PipelineEvent(p: Platform, s: Settings, codec: SchemaExtraction.Codec, y: System, e: Event): P.Event {
    match e
    case Pipeline(step) => step
    case Observe(item, takeover, at) =>
      if SchemaRegistry.Prepare(SourceOf(p, s, codec, y.catalog), y.catalog.tasks, item).Err? then P.Elsewhere
      else if TakenOver(y.catalog.tasks, item.id, takeover)
          then P.ClaimTasks(takeover.value.now, takeover.value.leaseSeconds, [item.id])
      else P.SettleTask(item, Done, None, None, at)
  }

  /** What a schema worker's transaction does to the task table. */
  lemma ProcessOnTasks(src: Source, tasks: seq<Row<Task>>, registry: Registry, item: Item<Task>,
                       takeover: Option<Takeover>, at: int)
    ensures var rows, prepared := Process(src, tasks, registry, item, takeover, at).rows,
            SchemaRegistry.Prepare(src, tasks, item);
            && (prepared.Err? ==> rows == tasks)
            && (prepared.Ok? ==>
                  && Current(tasks, item) && IsSchemaTask(tasks[item.id].payload)
                  && (TakenOver(tasks, item.id, takeover) ==> rows == Reclaimed(tasks, item.id, takeover))
                  && (!TakenOver(tasks, item.id, takeover) ==> rows == FinalizeRows(tasks, item, Done, None, None, at)))
  {
    hide Register, SchemaExtraction.Extract;
  }

  /** The same as steps of the pipeline. */
  lemma StepOnTasks(p: Platform, s: Settings, t: Catalog, item: Item<Task>, takeover: Option<Takeover>, at: int)
    requires Current(t.tasks, item) && IsSchemaTask(t.tasks[item.id].payload)
    ensures TakenOver(t.tasks, item.id, takeover) ==>
              var claim := P.ClaimTasks(takeover.value.now, takeover.value.leaseSeconds, [item.id]);
              P.Enabled(s, t, claim) && P.Next(p, s, t, claim) == t.(tasks := Reclaimed(t.tasks, item.id, takeover))
    ensures var settle := P.SettleTask(item, Done, None, None, at);
            P.Enabled(s, t, settle)
                && P.Next(p, s, t, settle) == t.(tasks := FinalizeRows(t.tasks, item, Done, None, None, at))
  {
  }

  lemma NothingElsewhere(p: Platform, s: Settings, t: Catalog)
    ensures P.Enabled(s, t, P.Elsewhere) && P.Next(p, s, t, P.Elsewhere) == t
  {
  }

  lemma ObserveIsPipelineStep(p: Platform, s: Settings, codec: SchemaExtraction.Codec, y: System, e: Event)
    requires e.Observe?
    ensures P.Enabled(s, y.catalog, PipelineEvent(p, s, codec, y, e))
    ensures Next(p, s, codec, y, e).catalog == P.Next(p, s, y.catalog, PipelineEvent(p, s, codec, y, e))
  {
    hide SourceOf, Process, SchemaRegistry.Prepare, P.Enabled, P.Next;
    var src := SourceOf(p, s, codec, y.catalog);
    ProcessOnTasks(src, y.catalog.tasks, y.registry, e.item, e.takeover, e.at);
    if SchemaRegistry.Prepare(src, y.catalog.tasks, e.item).Ok? {
      StepOnTasks(p, s, y.catalog, e.item, e.takeover, e.at);
    }
    NothingElsewhere(p, s, y.catalog);
  }

  lemma StepIsPipelineStep(p: Platform, s: Settings, codec: SchemaExtraction.Codec, y: System, e: Event)
    requires Enabled(s, y, e)
    ensures P.Enabled(s, y.catalog, PipelineEvent(p, s, codec, y, e))
    ensures Next(p, s, codec, y, e).catalog == P.Next(p, s, y.catalog, PipelineEvent(p, s, codec, y, e))
  {
    hide P.Enabled, P.Next;
    if e.Observe? {
      ObserveIsPipelineStep(p, s, codec, y, e);
    }
  }

  ghost function Catalogs(ys: seq<System>): (ts: seq<Catalog>)
    ensures |ts| == |ys| && forall k :: 0 <= k < |ys| ==> ts[k] == ys[k].catalog
  {
    seq(|ys|, k requires 0 <= k < |ys| => ys[k].catalog)
  }

  ghost function PipelineEvents(p: Platform, s: Settings, codec: SchemaExtraction.Codec, ys: seq<System>,
                                es: seq<Event>): (pes: seq<P.Event>)
    requires |es| <= |ys|
    ensures |pes| == |es| && forall k :: 0 <= k < |es| ==> pes[k] == PipelineEvent(p, s, codec, ys[k], es[k])
  {
    seq(|es|, k requires 0 <= k < |es| => PipelineEvent(p, s, codec, ys[k], es[k]))
  }

  /** Seen from the tables, every run is a run of the pipeline. */
  lemma IsPipelineRun(p: Platform, s: Settings, codec: SchemaExtraction.Codec, ys: seq<System>, es: seq<Event>)
    requires IsRun(p, s, codec, ys, es)
    ensures P.IsRun(p, s, Catalogs(ys), PipelineEvents(p, s, codec, ys, es))
  {
    hide Enabled, Next, PipelineEvent, P.Enabled, P.Next;
    var ts, pes := Catalogs(ys), PipelineEvents(p, s, codec, ys, es);
    forall k | 0 <= k < |es| ensures P.Enabled(s, ts[k], pes[k]) && ts[k + 1] == P.Next(p, s, ts[k], pes[k]) {
      assert Enabled(s, ys[k], es[k]) && ys[k + 1] == Next(p, s, codec, ys[k], es[k]);
      StepIsPipelineStep(p, s, codec, ys[k], es[k]);
    }
  }

  // ---- tasks and registry are a run of the registry ----

  /** A step of the task table, as the registry sees it. */
  function TaskStep(e: LeaseRuns.Event<Task>): R.Event {
    match e
    case Arrive(arrivals) => R.Enqueue(arrivals)
    case Claim(now, lease, sel) => R.Claim(now, lease, sel)
    case Finalize(item, state, when, code, at) => R.Settle(item, state, when, code, at)
    case _ => R.Enqueue([])
  }

  ghost function RegistryEvent(p: Platform, s: Settings, y: System, e: Event): R.Event {
    match e
    case Pipeline(step) => TaskStep(PipelineLeases.TaskEvent(p, s, y.catalog, step))
    case Observe(item, takeover, at) => R.ProcessTask(item, takeover, at)
  }

  ghost function RegistryOf(y: System): R.System { R.System(y.catalog.tasks, y.registry) }

  lemma NoReplays(p: Platform, s: Settings, t: Catalog, step: P.Event)
    ensures !PipelineLeases.TaskEvent(p, s, t, step).Replay?
  {
  }

  /** No projection completes a schema task. */
  lemma CompletesNoSchemaTask(p: Platform, s: Settings, y: System, e: Event)
    requires Enabled(s, y, e) && e.Pipeline?
    ensures var le := PipelineLeases.TaskEvent(p, s, y.catalog, e.step);
            le.Finalize? && IsSchemaRow(y.catalog.tasks, le.item.id) ==> !le.state.Done?
  {
    hide P.Next, FieldValueExtraction.ExtractValues;
  }

  lemma TaskStepIsRegistryStep(src: Source, rows: seq<Row<Task>>, registry: Registry, le: LeaseRuns.Event<Task>)
    requires LeaseRuns.Enabled(src.limit, rows, le) && !le.Replay?
    requires le.Finalize? && IsSchemaRow(rows, le.item.id) ==> !le.state.Done?
    ensures R.Enabled(src, R.System(rows, registry), TaskStep(le))
    ensures R.Next(src, R.System(rows, registry), TaskStep(le)) == R.System(LeaseRuns.Next(rows, le), registry)
  {
    assert rows + [] == rows;
  }

  /** Rows that tasks name do not change, so a transaction may be taken to have read any
      later state of the tables. */
  lemma ReadsTheSameLater(p: Platform, s: Settings, codec: SchemaExtraction.Codec, t: Catalog, u: Catalog,
                          registry: Registry, item: Item<Task>, takeover: Option<Takeover>, at: int)
    requires P.Sound(t) && Grows(t, u)
    ensures Process(SourceOf(p, s, codec, t), t.tasks, registry, item, takeover, at)
         == Process(SourceOf(p, s, codec, u), t.tasks, registry, item, takeover, at)
  {
    hide Register, SchemaExtraction.Extract, Counted, P.JsonQueued, Process;
    ReadiesTheSameLater(p, s, codec, t, u, item);
    ProcessFollowsPrepare(SourceOf(p, s, codec, t), SourceOf(p, s, codec, u), t.tasks, registry, item, takeover, at);
  }

  lemma ReadiesTheSameLater(p: Platform, s: Settings, codec: SchemaExtraction.Codec, t: Catalog, u: Catalog,
                            item: Item<Task>)
    requires P.Sound(t) && Grows(t, u)
    ensures SchemaRegistry.Prepare(SourceOf(p, s, codec, t), t.tasks, item)
            == SchemaRegistry.Prepare(SourceOf(p, s, codec, u), t.tasks, item)
  {
    hide SchemaExtraction.Extract, Counted, P.JsonQueued, DistinctStreams, DistinctRaws, DistinctTasks,
         DistinctDeliveries;
    if Current(t.tasks, item) && t.tasks[item.id].payload.rawId == item.payload.rawId {
      var r := item.payload.rawId;
      assert r < |t.raws| && u.raws[r] == t.raws[r];
      assert Traceable(t, t.raws[r].streamId, t.raws[r].evidenceId);
    }
  }

  lemma ProcessFollowsPrepare(a: Source, b: Source, rows: seq<Row<Task>>, registry: Registry, item: Item<Task>,
                              takeover: Option<Takeover>, at: int)
    requires SchemaRegistry.Prepare(a, rows, item) == SchemaRegistry.Prepare(b, rows, item)
    ensures Process(a, rows, registry, item, takeover, at) == Process(b, rows, registry, item, takeover, at)
  {
    hide SchemaRegistry.Prepare, Register;
  }

  lemma StepIsRegistryStep(p: Platform, s: Settings, codec: SchemaExtraction.Codec, y: System, e: Event, u: Catalog)
    requires Enabled(s, y, e) && P.Sound(y.catalog) && Grows(y.catalog, u)
    ensures var src := SourceOf(p, s, codec, u);
            R.Enabled(src, RegistryOf(y), RegistryEvent(p, s, y, e))
            && RegistryOf(Next(p, s, codec, y, e)) == R.Next(src, RegistryOf(y), RegistryEvent(p, s, y, e))
  {
    hide P.Enabled, P.Next, P.Sound, Grows, Process, PipelineLeases.TaskEvent, TaskStep, LeaseRuns.Enabled,
         LeaseRuns.Next;
    match e
    case Pipeline(step) =>
      hide R.Enabled, R.Next;
      PipelineLeases.TaskStepIsLeaseStep(p, s, y.catalog, step);
      NoReplays(p, s, y.catalog, step);
      CompletesNoSchemaTask(p, s, y, e);
      TaskStepIsRegistryStep(SourceOf(p, s, codec, u), y.catalog.tasks, y.registry,
                             PipelineLeases.TaskEvent(p, s, y.catalog, step));
    case Observe(item, takeover, at) =>
      ReadsTheSameLater(p, s, codec, y.catalog, u, y.registry, item, takeover, at);
  }

  ghost function Registries(ys: seq<System>): (ss: seq<R.System>)
    ensures |ss| == |ys| && forall k :: 0 <= k < |ys| ==> ss[k] == RegistryOf(ys[k])
  {
    seq(|ys|, k requires 0 <= k < |ys| => RegistryOf(ys[k]))
  }

  ghost function RegistryEvents(p: Platform, s: Settings, ys: seq<System>, es: seq<Event>): (res: seq<R.Event>)
    requires |es| <= |ys|
    ensures |res| == |es| && forall k :: 0 <= k < |es| ==> res[k] == RegistryEvent(p, s, ys[k], es[k])
  {
    seq(|es|, k requires 0 <= k < |es| => RegistryEvent(p, s, ys[k], es[k]))
  }

  /** Seen from the schema tasks, every run is a run of the registry over what is stored at
      its end; so everything proved of registry runs holds of the joint tables. */
  lemma IsRegistryRun(p: Platform, s: Settings, codec: SchemaExtraction.Codec, ys: seq<System>, es: seq<Event>)
    requires IsRun(p, s, codec, ys, es)
    ensures R.IsRun(SourceOf(p, s, codec, ys[|es|].catalog), Registries(ys), RegistryEvents(p, s, ys, es))
  {
    hide Enabled, Next, PipelineEvent, RegistryEvent, P.IsRun, P.Sound, Grows, R.Enabled, R.Next, SourceOf;
    var ss, res, src := Registries(ys), RegistryEvents(p, s, ys, es), SourceOf(p, s, codec, ys[|es|].catalog);
    var ts, pes := Catalogs(ys), PipelineEvents(p, s, codec, ys, es);
    IsPipelineRun(p, s, codec, ys, es);
    forall k | 0 <= k < |es| ensures R.Enabled(src, ss[k], res[k]) && ss[k + 1] == R.Next(src, ss[k], res[k]) {
      assert Enabled(s, ys[k], es[k]) && ys[k + 1] == Next(p, s, codec, ys[k], es[k]);
      P.SoundAlways(p, s, ts, pes, k);
      P.GrowsAlong(p, s, ts, pes, k, |es|);
      StepIsRegistryStep(p, s, codec, ys[k], es[k], ys[|es|].catalog);
    }
  }

  // ---- the two extractions of one observation ----

  /** Once both tasks of an observation are completed, a provenance record leads from it to a
      registered schema of its stream, and the observation's outbox rows are exactly one for
      each scalar field of that schema outside arrays. */
  lemma ProjectedFieldsAreTheRegistered(p: Platform, s: Settings, codec: SchemaExtraction.Codec, ys: seq<System>,
                                        es: seq<Event>, i: nat, j: nat)
    returns (k: nat)
    requires ObservationKeys.CollisionFree(p) && ObservationKeys.PlainTexts(p) && R.TellsApart(codec)
             && IsRun(p, s, codec, ys, es)
    requires P.DoneField(ys[|es|].catalog.tasks, i)
    requires var tasks := ys[|es|].catalog.tasks;
             IsSchemaRow(tasks, j) && tasks[j].state.Done? && tasks[j].payload.rawId == tasks[i].payload.rawId
    ensures var y, r := ys[|es|], ys[|es|].catalog.tasks[i].payload.rawId;
            && r < |y.catalog.raws|
            && k < |y.registry.records| && y.registry.records[k].rawId == r
            && y.registry.records[k].schemaId < |y.registry.schemas|
            && var schema := y.registry.schemas[y.registry.records[k].schemaId];
            && schema.streamId == y.catalog.raws[r].streamId
            && forall q :: ProjectionSteps.IsPath(q) ==>
                 (PipelineTheorems.FieldWritten(p, y.catalog, r, q)
                  <==> q in ExtractorTheorems.FieldPaths(schema.fields, ExtractorAgreement.Kept))
  {
    hide Enabled, Next, P.IsRun, R.IsRun, R.TellsApart, R.RecordHolds, ObservationKeys.CollisionFree,
         ObservationKeys.PlainTexts, SchemaExtraction.Extract, PipelineTheorems.FieldWritten, ProjectionSteps.IsPath,
         ExtractorTheorems.FieldPaths, P.DoneField;
    var y, n := ys[|es|], |es|;
    var ts, pes := Catalogs(ys), PipelineEvents(p, s, codec, ys, es);
    var src, ss, res := SourceOf(p, s, codec, y.catalog), Registries(ys), RegistryEvents(p, s, ys, es);
    IsPipelineRun(p, s, codec, ys, es);
    IsRegistryRun(p, s, codec, ys, es);
    R.ReachableCounts(src, ss, res, n, 0);
    assert R.RecordFor(y.registry.records, j);
    k :| 0 <= k < |y.registry.records| && y.registry.records[k].taskId == j;
    RecordOfTask(src, ss[n], k);
    R.RecordsNameTheirSchemas(src, ss, res, n, k);
    TaskIsStored(p, s, ts, pes, n, i);
    PipelineTheorems.ProjectedFieldsAreTheSchemas(p, s, ts, pes, n, i, codec);
  }

  lemma RecordOfTask(src: Source, s: R.System, k: nat)
    requires R.RecordsMatchTasks(src, s) && k < |s.registry.records|
    ensures s.registry.records[k].taskId < |s.rows|
            && s.rows[s.registry.records[k].taskId].payload.rawId == s.registry.records[k].rawId
  {
    assert R.RecordHolds(src, s, s.registry.records[k]);
  }

  lemma TaskIsStored(p: Platform, s: Settings, ts: seq<Catalog>, pes: seq<P.Event>, n: nat, i: nat)
    requires P.IsRun(p, s, ts, pes) && n <= |pes| && P.DoneField(ts[n].tasks, i)
    ensures i < |ts[n].tasks| && ts[n].tasks[i].payload.rawId < |ts[n].raws|
  {
    hide P.IsRun, P.JsonQueued, Counted;
    RunLength(p, s, ts, pes);
    P.SoundAlways(p, s, ts, pes, n);
  }

  lemma RunLength(p: Platform, s: Settings, ts: seq<Catalog>, pes: seq<P.Event>)
    requires P.IsRun(p, s, ts, pes)
    ensures |ts| == |pes| + 1
  {
  }
}
