/** Both work tables of every pipeline run follow the lease protocol. */
module PipelineLeases {
  import opened Std
  import opened Text
  import opened LeaseTable
  import opened Repositories
  import opened Storage
  import opened FieldValueExtraction
  import opened StreamCatalog
  import opened FieldProjection
  import opened PipelineRuns
  import LeaseRuns

  // ---- what steps append ----

  /** The later table is the earlier one with rows appended that nobody has claimed. */
  ghost predicate Appends<P>(before: seq<Row<P>>, after: seq<Row<P>>) {
    before <= after && LeaseRuns.AllNew(after[|before|..])
  }

  lemma AppendsNothing<P>(rows: seq<Row<P>>)
    ensures Appends(rows, rows)
  {
  }

  lemma AppendsMore<P>(a: seq<Row<P>>, b: seq<Row<P>>, c: seq<Row<P>>)
    requires Appends(a, b) && Appends(b, c)
    ensures Appends(a, c)
  {
    assert c[|a|..] == b[|a|..] + c[|b|..];
  }

  lemma AppendsTask(tasks: seq<Row<Task>>, task: Task, at: int)
    ensures Appends(tasks, TasksAfter(tasks, task, at))
  {
  }

  lemma AppendsDelivery(outbox: seq<Row<Delivery>>, d: Delivery, at: int)
    ensures Appends(outbox, OutboxAfter(outbox, d, at))
  {
  }

  lemma {:induction false} AppendsFields(p: Platform, skewSeconds: nat, outbox: seq<Row<Delivery>>, ready: Ready,
                                         stream: Stream, paths: seq<string>, n: nat)
    requires n <= |paths| && forall q :: q in paths ==> q in ready.values
    ensures Appends(outbox, Persisted(p, skewSeconds, outbox, ready, stream, paths, n))
  {
    hide OutboxAfter, FieldDelivery, Appends;
    if n == 0 {
      AppendsNothing(outbox);
    } else {
      AppendsFields(p, skewSeconds, outbox, ready, stream, paths, n - 1);
      assert paths[n - 1] in paths;
      var before := Persisted(p, skewSeconds, outbox, ready, stream, paths, n - 1);
      var d := FieldDelivery(p, skewSeconds, ready.raw, stream, paths[n - 1], ready.values[paths[n - 1]]);
      AppendsDelivery(before, d, ready.raw.receivedAt);
      AppendsMore(outbox, before, OutboxAfter(before, d, ready.raw.receivedAt));
    }
  }

  lemma AcceptedAppends(p: Platform, s: Settings, t: Catalog, c: Command, streamId: nat, evidenceId: nat)
    requires streamId < |t.streams|
    ensures Appends(t.tasks, Accepted(p, s, t, c, streamId, evidenceId).tasks)
    ensures Appends(t.outbox, Accepted(p, s, t, c, streamId, evidenceId).outbox)
  {
    hide TasksAfter, OutboxAfter, PointDelivery, RawOf, RawsAfter, RawFor, Appends;
    var stream := t.streams[streamId];
    var rawId := RawFor(t.raws, RawOf(p, s, c, stream.key, streamId, evidenceId));
    var tasks := TasksAfter(t.tasks, SchemaTask(rawId), c.receivedAt);
    AppendsNothing(t.tasks);
    AppendsNothing(t.outbox);
    AppendsTask(t.tasks, SchemaTask(rawId), c.receivedAt);
    AppendsTask(tasks, FieldTask(rawId), c.receivedAt);
    AppendsMore(t.tasks, tasks, TasksAfter(tasks, FieldTask(rawId), c.receivedAt));
    var point := PointDelivery(p, s, c, stream, streamId, evidenceId);
    if point.Some? {
      AppendsDelivery(t.outbox, point.value, c.receivedAt);
    }
  }

  lemma IngestAppends(p: Platform, s: Settings, t: Catalog, c: Command)
    ensures Appends(t.tasks, Next(p, s, t, Ingest(c)).tasks)
    ensures Appends(t.outbox, Next(p, s, t, Ingest(c)).outbox)
  {
    hide Accepted, Resolve, Classify, Appends;
    AppendsNothing(t.tasks);
    AppendsNothing(t.outbox);
    match Resolve(p, s, c)
    case Ok(Some(target)) =>
      var id := StreamFor(t.streams, target);
      var e := EvidenceOf(p, s, c, Some(id), Classify(p, s, c.payload, c.contentType));
      AcceptedAppends(p, s, t.(streams := StreamsAfter(t.streams, target, c), evidence := t.evidence + [e]), c, id,
                      |t.evidence|);
    case _ =>
  }

  lemma ProjectAppends(p: Platform, s: Settings, t: Catalog, item: Item<Task>, takeover: Option<Takeover>, at: int)
    ensures Appends(t.outbox, Project(p, s.futureSkewSeconds, t, item, takeover, at).catalog.outbox)
  {
    hide Appends, Persisted, ExtractValues;
    AppendsNothing(t.outbox);
    match Prepare(p, t, item)
    case Ok(ready) =>
      var paths := SortedSet(ready.values.Keys);
      AppendsFields(p, s.futureSkewSeconds, t.outbox, ready, t.streams[ready.raw.streamId], paths, |paths|);
    case Err(_) =>
  }

  // ---- the task table ----

  /** What a step does to the task table: a projection either completes its task, or loses
      it to another worker's claim, or leaves it alone. */
  ghost function TaskEvent(p: Platform, s: Settings, t: Catalog, e: Event): LeaseRuns.Event<Task> {
    match e
    case Ingest(_) =>
      var after := Next(p, s, t, e).tasks;
      LeaseRuns.Arrive(if |t.tasks| <= |after| then after[|t.tasks|..] else [])
    case ClaimTasks(now, lease, sel) => LeaseRuns.Claim(now, lease, sel)
    case ProjectFields(item, takeover, at) =>
      if Prepare(p, t, item).Err? then LeaseRuns.Elsewhere
      else if TakenOver(t.tasks, item.id, takeover)
          then LeaseRuns.Claim(takeover.value.now, takeover.value.leaseSeconds, [item.id])
      else LeaseRuns.Finalize(item, Done, None, None, at)
    case SettleTask(item, state, when, code, at) => LeaseRuns.Finalize(item, state, when, code, at)
    case _ => LeaseRuns.Elsewhere
  }

  lemma TaskStepIsLeaseStep(p: Platform, s: Settings, t: Catalog, e: Event)
    requires Enabled(s, t, e)
    ensures LeaseRuns.Enabled(TaskLimit(s), t.tasks, TaskEvent(p, s, t, e))
    ensures Next(p, s, t, e).tasks == LeaseRuns.Next(t.tasks, TaskEvent(p, s, t, e))
  {
    hide Record, PersistedAll, ExtractValues;
    if e.Ingest? {
      IngestAppends(p, s, t, e.command);
    }
  }

  // ---- the outbox ----

  ghost function OutboxEvent(p: Platform, s: Settings, t: Catalog, e: Event): LeaseRuns.Event<Delivery> {
    match e
    case ClaimDeliveries(now, lease, ids) => LeaseRuns.Claim(now, lease, ids)
    case SettleDelivery(item, state, when, code, at) => LeaseRuns.Finalize(item, state, when, code, at)
    case ReplayDeliveries(ids, at) => LeaseRuns.Replay(ids, at)
    case _ =>
      var after := Next(p, s, t, e).outbox;
      LeaseRuns.Arrive(if |t.outbox| <= |after| then after[|t.outbox|..] else [])
  }

  function OutboxLimit(s: Settings): Delivery -> nat { (d: Delivery) => s.outbox.maxAttempts }

  lemma OutboxStepIsLeaseStep(p: Platform, s: Settings, t: Catalog, e: Event)
    requires Enabled(s, t, e)
    ensures LeaseRuns.Enabled(OutboxLimit(s), t.outbox, OutboxEvent(p, s, t, e))
    ensures Next(p, s, t, e).outbox == LeaseRuns.Next(t.outbox, OutboxEvent(p, s, t, e))
  {
    hide Record, Project;
    match e
    case Ingest(c) => IngestAppends(p, s, t, c);
    case ProjectFields(item, takeover, at) => ProjectAppends(p, s, t, item, takeover, at);
    case _ =>
  }

  // ---- runs ----

  ghost function TaskTables(ts: seq<Catalog>): (r: seq<seq<Row<Task>>>)
    ensures |r| == |ts| && forall k :: 0 <= k < |ts| ==> r[k] == ts[k].tasks
  {
    seq(|ts|, k requires 0 <= k < |ts| => ts[k].tasks)
  }

  ghost function OutboxTables(ts: seq<Catalog>): (r: seq<seq<Row<Delivery>>>)
    ensures |r| == |ts| && forall k :: 0 <= k < |ts| ==> r[k] == ts[k].outbox
  {
    seq(|ts|, k requires 0 <= k < |ts| => ts[k].outbox)
  }

  ghost function TaskEvents(p: Platform, s: Settings, ts: seq<Catalog>,
                            es: seq<Event>): (les: seq<LeaseRuns.Event<Task>>)
    requires |es| <= |ts|
    ensures |les| == |es| && forall k :: 0 <= k < |es| ==> les[k] == TaskEvent(p, s, ts[k], es[k])
  {
    seq(|es|, k requires 0 <= k < |es| => TaskEvent(p, s, ts[k], es[k]))
  }

  ghost function OutboxEvents(p: Platform, s: Settings, ts: seq<Catalog>,
                              es: seq<Event>): (les: seq<LeaseRuns.Event<Delivery>>)
    requires |es| <= |ts|
    ensures |les| == |es| && forall k :: 0 <= k < |es| ==> les[k] == OutboxEvent(p, s, ts[k], es[k])
  {
    seq(|es|, k requires 0 <= k < |es| => OutboxEvent(p, s, ts[k], es[k]))
  }

  /** In every run of the pipeline both work tables stay inside the lease protocol, so
      everything proved of lease runs (fresh tokens, fencing, bounded retries, leases) holds
      of the processing tasks and of the outbox. */
  lemma PipelineIsLeaseRun(p: Platform, s: Settings, ts: seq<Catalog>, es: seq<Event>)
    requires IsRun(p, s, ts, es)
    ensures LeaseRuns.IsRun(TaskLimit(s), TaskTables(ts), TaskEvents(p, s, ts, es))
    ensures LeaseRuns.IsRun(OutboxLimit(s), OutboxTables(ts), OutboxEvents(p, s, ts, es))
  {
    hide Enabled, Next, TaskEvent, OutboxEvent;
    forall k | 0 <= k < |es|
      ensures LeaseRuns.Enabled(TaskLimit(s), TaskTables(ts)[k], TaskEvents(p, s, ts, es)[k])
      ensures TaskTables(ts)[k + 1] == LeaseRuns.Next(TaskTables(ts)[k], TaskEvents(p, s, ts, es)[k])
      ensures LeaseRuns.Enabled(OutboxLimit(s), OutboxTables(ts)[k], OutboxEvents(p, s, ts, es)[k])
      ensures OutboxTables(ts)[k + 1] == LeaseRuns.Next(OutboxTables(ts)[k], OutboxEvents(p, s, ts, es)[k])
    {
      assert Enabled(s, ts[k], es[k]) && ts[k + 1] == Next(p, s, ts[k], es[k]);
      TaskStepIsLeaseStep(p, s, ts[k], es[k]);
      OutboxStepIsLeaseStep(p, s, ts[k], es[k]);
    }
  }

  /** Over any run a task's attempts are its claims, those by which another worker took it
      over included; it has a start time exactly in processing, that of its latest claim, and
      a time of completion exactly when done; and it is sent back for a retry less often than its limit. */
  lemma TasksKeepTheLease(p: Platform, s: Settings, ts: seq<Catalog>, es: seq<Event>, k: nat, row: nat)
    requires IsRun(p, s, ts, es) && k <= |es| && row < |ts[k].tasks|
    ensures var les, r := TaskEvents(p, s, ts, es), ts[k].tasks[row];
            && r.attempts == LeaseRuns.ClaimCount(les, k, row)
            && LeaseRuns.ColumnsAgree(r)
            && (r.state.Processing? ==> r.startedAt == LeaseRuns.LastClaim(les, k, row))
            && (TaskLimit(s)(r.payload) >= 1 ==>
                LeaseRuns.RetryCount(TaskTables(ts), k, row) <= TaskLimit(s)(r.payload) - 1)
  {
    hide Enabled, Next, TaskEvent, TaskLimit;
    PipelineIsLeaseRun(p, s, ts, es);
    hide LeaseRuns.ColumnsAgree;
    LeaseRuns.AttemptsCountClaims(TaskLimit(s), TaskTables(ts), TaskEvents(p, s, ts, es), k, row);
    LeaseRuns.ColumnsAlwaysAgree(TaskLimit(s), TaskTables(ts), TaskEvents(p, s, ts, es), k, row);
    LeaseRuns.RetriesAreBounded(TaskLimit(s), TaskTables(ts), TaskEvents(p, s, ts, es), k, row);
  }

  /** A claim projects at most once, and only until its task is claimed again: after a
      success with its token, or after a newer claim, projecting with the token is stale and
      changes nothing at all. */
  lemma ClaimProjectsAtMostOnce(p: Platform, s: Settings, ts: seq<Catalog>, es: seq<Event>, i: nat, j: nat,
                                item: Item<Task>, takeover: Option<Takeover>, at: int)
    requires IsRun(p, s, ts, es) && i < j <= |es|
    requires item.id < |ts[i].tasks| && item.attempts <= ts[i].tasks[item.id].attempts
    requires var le := TaskEvent(p, s, ts[i], es[i]);
             LeaseRuns.Claims(le, item.id) || (le.Finalize? && le.item == item && Current(ts[i].tasks, item))
    ensures Project(p, s.futureSkewSeconds, ts[j], item, takeover, at) == Effect(ts[j], Stale)
  {
    hide Enabled, Next, TaskEvent, TaskLimit, PersistedAll, ExtractValues;
    var tables, les := TaskTables(ts), TaskEvents(p, s, ts, es);
    PipelineIsLeaseRun(p, s, ts, es);
    assert LeaseRuns.Enabled(TaskLimit(s), tables[i], les[i]) && tables[i + 1] == LeaseRuns.Next(tables[i], les[i]);
    assert LeaseRuns.Spent(tables[i + 1], item);
    LeaseRuns.SpentForever(TaskLimit(s), tables, les, i + 1, j, item);
  }
}
