/** The pipeline with its delivery workers, its writer and the store behind it. */
module EndToEnd {
  import opened Std
  import opened LeaseTable
  import opened Storage
  import opened StreamCatalog
  import opened FieldProjection
  import opened PointMapping
  import opened PipelineRuns
  import opened PipelineLeases
  import D = DeliveryRuns

  /** What a call of the writer comes to, and whether the point has reached the store: after
      a timeout or a network error it may have. */
  datatype Reply = Reply(outcome: D.Outcome, stored: bool)

  /** A row that does not map is refused for good before anything is sent; success means
      that the point is stored. */
  predicate CanReply(p: Platform, d: Delivery, r: Reply) {
    && (r.outcome.Written? ==> r.stored)
    && (Mapping(p, d).Err? ==> r.outcome.Failed? && !r.outcome.retryable && !r.stored)
  }

  datatype Event =
    | Step(step: PipelineRuns.Event)
    | Claim(now: int, leaseSeconds: int, ids: seq<nat>)
    | Write(item: Item<Delivery>, reply: Reply, failedAt: int)
    | Finalize(held: Item<Delivery>, at: int)
    | Crash(lost: set<Item<Delivery>>)

  /** `held` are the items some live worker is busy with, and what it has decided about
      those it has handed to the writer; `sink` are the points in the store. */
  datatype System = System(catalog: Catalog, held: map<Item<Delivery>, Option<Decision>>, sink: set<MappedPoint>)

  ghost predicate Enabled(p: Platform, s: Settings, y: System, e: Event) {
    match e
    case Step(step) => !step.ClaimDeliveries? && !step.SettleDelivery? && PipelineRuns.Enabled(s, y.catalog, step)
    case Claim(now, lease, ids) =>
      Distinct(ids) && forall k :: 0 <= k < |ids| ==>
        ids[k] < |y.catalog.outbox| && Eligible(y.catalog.outbox[ids[k]], now, lease)
    case Write(item, reply, _) => item in y.held && y.held[item].None? && CanReply(p, item.payload, reply)
    case Finalize(item, _) => item in y.held && y.held[item].Some?
    case Crash(_) => true
  }

  /** The step as the pipeline sees it. */
  ghost function PipelineEvent(y: System, e: Event): PipelineRuns.Event {
    match e
    case Step(step) => step
    case Claim(now, lease, ids) => ClaimDeliveries(now, lease, ids)
    case Finalize(item, at) =>
      if item in y.held && y.held[item].Some? then
        var d := y.held[item].value;
        SettleDelivery(item, d.state, d.when, d.code, at)
      else PipelineRuns.Elsewhere
    case _ => PipelineRuns.Elsewhere
  }

  ghost function Next(p: Platform, s: Settings, y: System, e: Event): System {
    var catalog := PipelineRuns.Next(p, s, y.catalog, PipelineEvent(y, e));
    match e
    case Step(_) => y.(catalog := catalog)
    case Claim(now, _, ids) =>
      System(catalog, y.held + (map item | item in Taken(catalog, ids, now) :: None), y.sink)
    case Write(item, reply, at) =>
      System(catalog, y.held[item := Some(D.Decide(s.outbox, item, reply.outcome, at))],
             if reply.stored && Mapping(p, item.payload).Ok? then y.sink + {Mapping(p, item.payload).value} else y.sink)
    case Finalize(item, _) => System(catalog, y.held - {item}, y.sink)
    case Crash(lost) => y.(held := y.held - lost)
  }

  ghost function Taken(t: Catalog, ids: seq<nat>, now: int): seq<Item<Delivery>> {
    if forall k :: 0 <= k < |ids| ==> ids[k] < |t.outbox| then Items(t.outbox, ids, now) else []
  }

  ghost predicate IsRun(p: Platform, s: Settings, ys: seq<System>, es: seq<Event>) {
    && |ys| == |es| + 1
    && ys[0] == System(Catalog([], [], [], [], []), map[], {})
    && forall k :: 0 <= k < |es| ==> Enabled(p, s, ys[k], es[k]) && ys[k + 1] == Next(p, s, ys[k], es[k])
  }

  // ---- the outbox part is a run of the delivery system ----

  ghost function OutboxOf(y: System): D.System<Delivery> { D.System(y.catalog.outbox, y.held) }

  ghost function DeliveryEvent(p: Platform, s: Settings, y: System, e: Event): D.Event<Delivery> {
    match e
    case Step(step) =>
      if step.ReplayDeliveries? then D.Replay(step.ids, step.replayAt)
      else
        var after := PipelineRuns.Next(p, s, y.catalog, step).outbox;
        D.Arrive(if |y.catalog.outbox| <= |after| then after[|y.catalog.outbox|..] else [])
    case Claim(now, lease, ids) => D.Claim(now, lease, ids)
    case Write(item, reply, at) => D.Write(item, reply.outcome, at)
    case Finalize(item, at) => D.Finalize(item, at)
    case Crash(lost) => D.Crash(lost)
  }

  /** The step of the system is one of the delivery system, with the same effect there. */
  ghost predicate IsDeliveryStep(p: Platform, s: Settings, y: System, e: Event) {
    var de := DeliveryEvent(p, s, y, e);
    D.Enabled(OutboxOf(y), de) && OutboxOf(Next(p, s, y, e)) == D.Next(s.outbox, OutboxOf(y), de)
  }

  /** A step of the pipeline proper: arrivals in the outbox, a replay, or nothing there. */
  lemma PipelineStepIsDeliveryStep(p: Platform, s: Settings, y: System, step: PipelineRuns.Event)
    requires Enabled(p, s, y, Step(step))
    ensures IsDeliveryStep(p, s, y, Step(step))
  {
    hide Record, Project, Mapping, D.Decide;
    match step
    case Ingest(c) => IngestAppends(p, s, y.catalog, c);
    case ProjectFields(item, takeover, at) => ProjectAppends(p, s, y.catalog, item, takeover, at);
    case _ =>
  }

  lemma ClaimIsDeliveryStep(p: Platform, s: Settings, y: System, e: Event)
    requires Enabled(p, s, y, e) && e.Claim?
    ensures IsDeliveryStep(p, s, y, e)
  {
    hide Record, Project, Mapping, D.Decide;
  }

  lemma WriteIsDeliveryStep(p: Platform, s: Settings, y: System, e: Event)
    requires Enabled(p, s, y, e) && e.Write?
    ensures IsDeliveryStep(p, s, y, e)
  {
    hide Record, Project, Mapping, D.Decide;
  }

  lemma FinalizeIsDeliveryStep(p: Platform, s: Settings, y: System, e: Event)
    requires Enabled(p, s, y, e) && e.Finalize?
    ensures IsDeliveryStep(p, s, y, e)
  {
    hide Record, Project, Mapping, D.Decide;
  }

  lemma CrashIsDeliveryStep(p: Platform, s: Settings, y: System, e: Event)
    requires Enabled(p, s, y, e) && e.Crash?
    ensures IsDeliveryStep(p, s, y, e)
  {
    hide Record, Project, Mapping, D.Decide;
  }

  lemma StepIsDeliveryStep(p: Platform, s: Settings, y: System, e: Event)
    requires Enabled(p, s, y, e)
    ensures IsDeliveryStep(p, s, y, e)
  {
    hide Enabled, IsDeliveryStep;
    match e
    case Step(step) => PipelineStepIsDeliveryStep(p, s, y, step);
    case Claim(_, _, _) => ClaimIsDeliveryStep(p, s, y, e);
    case Write(_, _, _) => WriteIsDeliveryStep(p, s, y, e);
    case Finalize(_, _) => FinalizeIsDeliveryStep(p, s, y, e);
    case Crash(_) => CrashIsDeliveryStep(p, s, y, e);
  }

  ghost function Outboxes(ys: seq<System>): (ds: seq<D.System<Delivery>>)
    ensures |ds| == |ys| && forall k :: 0 <= k < |ys| ==> ds[k] == OutboxOf(ys[k])
  {
    seq(|ys|, k requires 0 <= k < |ys| => OutboxOf(ys[k]))
  }

  ghost function DeliveryEvents(p: Platform, s: Settings, ys: seq<System>,
                                es: seq<Event>): (des: seq<D.Event<Delivery>>)
    requires |es| <= |ys|
    ensures |des| == |es| && forall k :: 0 <= k < |es| ==> des[k] == DeliveryEvent(p, s, ys[k], es[k])
  {
    seq(|es|, k requires 0 <= k < |es| => DeliveryEvent(p, s, ys[k], es[k]))
  }

  /** Seen from the outbox, every run is a run of the delivery workers. */
  lemma IsDeliveryRun(p: Platform, s: Settings, ys: seq<System>, es: seq<Event>)
    requires IsRun(p, s, ys, es)
    ensures D.IsRun(s.outbox, Outboxes(ys), DeliveryEvents(p, s, ys, es))
  {
    hide Enabled, Next, DeliveryEvent;
    var ds, des := Outboxes(ys), DeliveryEvents(p, s, ys, es);
    forall k | 0 <= k < |es| ensures D.Enabled(ds[k], des[k]) && ds[k + 1] == D.Next(s.outbox, ds[k], des[k]) {
      assert Enabled(p, s, ys[k], es[k]) && ys[k + 1] == Next(p, s, ys[k], es[k]);
      StepIsDeliveryStep(p, s, ys[k], es[k]);
    }
  }

  // ---- the tables are a run of the pipeline ----

  ghost function Catalogs(ys: seq<System>): (ts: seq<Catalog>)
    ensures |ts| == |ys| && forall k :: 0 <= k < |ys| ==> ts[k] == ys[k].catalog
  {
    seq(|ys|, k requires 0 <= k < |ys| => ys[k].catalog)
  }

  ghost function PipelineEvents(ys: seq<System>, es: seq<Event>): (pes: seq<PipelineRuns.Event>)
    requires |es| <= |ys|
    ensures |pes| == |es| && forall k :: 0 <= k < |es| ==> pes[k] == PipelineEvent(ys[k], es[k])
  {
    seq(|es|, k requires 0 <= k < |es| => PipelineEvent(ys[k], es[k]))
  }

  ghost predicate DecisionsInPolicy(s: Settings, y: System) {
    forall item :: item in y.held && y.held[item].Some? ==>
      var d := y.held[item].value;
      (Terminal(d.state) || d.state.Retryable?) && (d.state.Retryable? ==> item.attempts < s.outbox.maxAttempts)
  }

  lemma HeldInPolicy(p: Platform, s: Settings, ys: seq<System>, es: seq<Event>, k: nat)
    requires IsRun(p, s, ys, es) && k <= |es|
    ensures DecisionsInPolicy(s, ys[k])
    ensures forall item :: item in ys[k].held ==>
              item.id < |ys[k].catalog.outbox| && ys[k].catalog.outbox[item.id].payload == item.payload
              && item.attempts <= ys[k].catalog.outbox[item.id].attempts
  {
    hide IsRun, DeliveryEvents;
    IsDeliveryRun(p, s, ys, es);
    RunLength(p, s, ys, es);
    D.RunInv(s.outbox, Outboxes(ys), DeliveryEvents(p, s, ys, es), k);
    assert D.HeldInv(s.outbox, OutboxOf(ys[k]), DeliveryEvents(p, s, ys, es), k);
    forall item | item in ys[k].held
      ensures D.ItemInv(s.outbox, ys[k].catalog.outbox, DeliveryEvents(p, s, ys, es), k, item, ys[k].held[item])
    {
    }
  }

  lemma RunLength(p: Platform, s: Settings, ys: seq<System>, es: seq<Event>)
    requires IsRun(p, s, ys, es)
    ensures |ys| == |es| + 1
  {
  }

  lemma StepIsPipelineStep(p: Platform, s: Settings, y: System, e: Event)
    requires Enabled(p, s, y, e) && DecisionsInPolicy(s, y)
    ensures PipelineRuns.Enabled(s, y.catalog, PipelineEvent(y, e))
    ensures Next(p, s, y, e).catalog == PipelineRuns.Next(p, s, y.catalog, PipelineEvent(y, e))
  {
    hide PipelineRuns.Next, Mapping;
    assert e.Crash? ==> PipelineRuns.Next(p, s, y.catalog, PipelineEvent(y, e)) == y.catalog by {
      ElsewhereIsElsewhere(p, s, y.catalog);
    }
  }

  lemma ElsewhereIsElsewhere(p: Platform, s: Settings, t: Catalog)
    ensures PipelineRuns.Next(p, s, t, PipelineRuns.Elsewhere) == t
  {
  }

  /** Seen from the tables, every run is a run of the pipeline, so everything proved of
      pipeline runs holds with the delivery workers and their writer in place. */
  lemma IsPipelineRun(p: Platform, s: Settings, ys: seq<System>, es: seq<Event>)
    requires IsRun(p, s, ys, es)
    ensures PipelineRuns.IsRun(p, s, Catalogs(ys), PipelineEvents(ys, es))
  {
    hide Enabled, Next, PipelineRuns.Enabled, PipelineRuns.Next, PipelineEvent, DecisionsInPolicy;
    var ts, pes := Catalogs(ys), PipelineEvents(ys, es);
    forall k | 0 <= k < |es|
      ensures PipelineRuns.Enabled(s, ts[k], pes[k]) && ts[k + 1] == PipelineRuns.Next(p, s, ts[k], pes[k])
    {
      assert Enabled(p, s, ys[k], es[k]) && ys[k + 1] == Next(p, s, ys[k], es[k]);
      HeldInPolicy(p, s, ys, es, k);
      StepIsPipelineStep(p, s, ys[k], es[k]);
    }
  }
}
