/** The schema tasks of every registry run follow the lease protocol. */
module RegistryLeases {
  import opened Std
  import opened LeaseTable
  import opened Repositories
  import opened SchemaRegistry
  import opened RegistryRuns
  import opened SchemaExtraction
  import LeaseRuns

  ghost function Tasks(ss: seq<System>): (ts: seq<seq<Row<Task>>>)
    ensures |ts| == |ss| && forall k :: 0 <= k < |ss| ==> ts[k] == ss[k].rows
  {
    seq(|ss|, k requires 0 <= k < |ss| => ss[k].rows)
  }

  /** What a step does to the task table: a transaction either completes its task, or loses
      it to another worker's claim, or leaves it alone. */
  ghost function LeaseEvent(src: Source, s: System, e: Event): LeaseRuns.Event<Task> {
    match e
    case Enqueue(arrivals) => LeaseRuns.Arrive(arrivals)
    case Claim(now, lease, sel) => LeaseRuns.Claim(now, lease, sel)
    case ProcessTask(item, takeover, at) =>
      if Prepare(src, s.rows, item).Err? then LeaseRuns.Elsewhere
      else if TakenOver(s.rows, item.id, takeover)
          then LeaseRuns.Claim(takeover.value.now, takeover.value.leaseSeconds, [item.id])
      else LeaseRuns.Finalize(item, Done, None, None, at)
    case Settle(item, state, when, code, at) => LeaseRuns.Finalize(item, state, when, code, at)
  }

  ghost function LeaseEvents(src: Source, ss: seq<System>, es: seq<Event>): (les: seq<LeaseRuns.Event<Task>>)
    requires |es| <= |ss|
    ensures |les| == |es| && forall k :: 0 <= k < |es| ==> les[k] == LeaseEvent(src, ss[k], es[k])
  {
    seq(|es|, k requires 0 <= k < |es| => LeaseEvent(src, ss[k], es[k]))
  }

  lemma StepIsLeaseStep(src: Source, s: System, e: Event)
    requires Enabled(src, s, e)
    ensures LeaseRuns.Enabled(src.limit, s.rows, LeaseEvent(src, s, e))
    ensures Next(src, s, e).rows == LeaseRuns.Next(s.rows, LeaseEvent(src, s, e))
  {
    hide Register, Extract;
  }

  /** The schema workers stay inside the lease protocol, so everything proved of lease runs
      (fresh tokens, fencing, bounded retries, leases) holds of the task table. */
  lemma RegistryIsLeaseRun(src: Source, ss: seq<System>, es: seq<Event>)
    requires IsRun(src, ss, es)
    ensures LeaseRuns.IsRun(src.limit, Tasks(ss), LeaseEvents(src, ss, es))
  {
    hide Enabled, Next, LeaseEvent;
    var ts, les := Tasks(ss), LeaseEvents(src, ss, es);
    forall k | 0 <= k < |es|
      ensures LeaseRuns.Enabled(src.limit, ts[k], les[k]) && ts[k + 1] == LeaseRuns.Next(ts[k], les[k])
    {
      assert Enabled(src, ss[k], es[k]) && ss[k + 1] == Next(src, ss[k], es[k]);
      StepIsLeaseStep(src, ss[k], es[k]);
    }
  }

  /** Over any run a task's attempts are its claims, those by which another worker took it
      over included; it has a start time exactly in processing, that of its latest claim, and
      a time of completion exactly when done; and it is sent back for a retry less often than its limit. */
  lemma SchemaTasksKeepTheLease(src: Source, ss: seq<System>, es: seq<Event>, k: nat, row: nat)
    requires IsRun(src, ss, es) && k <= |es| && row < |ss[k].rows|
    ensures var les, r := LeaseEvents(src, ss, es), ss[k].rows[row];
            && r.attempts == LeaseRuns.ClaimCount(les, k, row)
            && LeaseRuns.ColumnsAgree(r)
            && (r.state.Processing? ==> r.startedAt == LeaseRuns.LastClaim(les, k, row))
            && (src.limit(r.payload) >= 1 ==> LeaseRuns.RetryCount(Tasks(ss), k, row) <= src.limit(r.payload) - 1)
  {
    hide Enabled, Next, LeaseEvent;
    RegistryIsLeaseRun(src, ss, es);
    hide LeaseRuns.ColumnsAgree;
    LeaseRuns.AttemptsCountClaims(src.limit, Tasks(ss), LeaseEvents(src, ss, es), k, row);
    LeaseRuns.ColumnsAlwaysAgree(src.limit, Tasks(ss), LeaseEvents(src, ss, es), k, row);
    LeaseRuns.RetriesAreBounded(src.limit, Tasks(ss), LeaseEvents(src, ss, es), k, row);
  }

  /** A task is taken over in the middle of a transaction only strictly more than one lease
      after its latest claim. */
  lemma TakeoverWaitsForLease(src: Source, ss: seq<System>, es: seq<Event>, k: nat)
    requires IsRun(src, ss, es) && k < |es| && es[k].ProcessTask?
    requires Prepare(src, ss[k].rows, es[k].item).Ok? && TakenOver(ss[k].rows, es[k].item.id, es[k].takeover)
    ensures var last := LeaseRuns.LastClaim(LeaseEvents(src, ss, es), k, es[k].item.id);
            last.Some? && last.value + Seconds(es[k].takeover.value.leaseSeconds) < es[k].takeover.value.now
  {
    hide Enabled, Next, Extract;
    RegistryIsLeaseRun(src, ss, es);
    LeaseRuns.ReclaimWaitsForLease(src.limit, Tasks(ss), LeaseEvents(src, ss, es), k, es[k].item.id);
  }

  /** A claim registers at most once, and only until its task is claimed again: after a
      success with its token, or after a newer claim, processing with the token is stale and
      changes nothing at all. */
  lemma ClaimRegistersAtMostOnce(src: Source, ss: seq<System>, es: seq<Event>, i: nat, j: nat, item: Item<Task>,
                                 takeover: Option<Takeover>, at: int)
    requires IsRun(src, ss, es) && i < j <= |es|
    requires item.id < |ss[i].rows| && item.attempts <= ss[i].rows[item.id].attempts
    requires var le := LeaseEvent(src, ss[i], es[i]);
             LeaseRuns.Claims(le, item.id) || (le.Finalize? && le.item == item && Current(ss[i].rows, item))
    ensures Process(src, ss[j].rows, ss[j].registry, item, takeover, at) == Effect(ss[j].rows, ss[j].registry, Stale)
  {
    hide Enabled, Next, LeaseEvent, Register, Extract;
    var ts, les := Tasks(ss), LeaseEvents(src, ss, es);
    RegistryIsLeaseRun(src, ss, es);
    assert LeaseRuns.Enabled(src.limit, ts[i], les[i]) && ts[i + 1] == LeaseRuns.Next(ts[i], les[i]);
    assert LeaseRuns.Spent(ts[i + 1], item);
    LeaseRuns.SpentForever(src.limit, ts, les, i + 1, j, item);
  }
}
