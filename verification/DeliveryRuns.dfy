/** The outbox together with its workers: items in flight, calls of the writer, crashes. */
module DeliveryRuns {
  import opened Std
  import opened LeaseTable
  import LeaseRuns

  /** What a call of the writer comes to. */
  datatype Outcome = Written | Failed(code: string, retryable: bool)

  /** What the worker does with the outcome of an item. */
  function Decide<P>(policy: Policy, item: Item<P>, outcome: Outcome, now: int): Decision {
    match outcome
    case Written => Decision(Done, None, None)
    case Failed(code, retryable) => Failure(policy, item.attempts, !retryable, code, now)
  }

  datatype Event<P(==)> =
    | Arrive(arrivals: seq<Row<P>>)
    | Claim(now: int, leaseSeconds: int, sel: seq<nat>)
    | Write(item: Item<P>, outcome: Outcome, failedAt: int)
    | Finalize(held: Item<P>, at: int)
    | Crash(lost: set<Item<P>>)
    | Replay(ids: set<nat>, replayAt: int)

  /** `held` are the items some live worker is busy with, and what it has decided about
      those it has already handed to the writer. */
  datatype System<P(==)> = System(rows: seq<Row<P>>, held: map<Item<P>, Option<Decision>>)

  ghost predicate Enabled<P>(s: System<P>, e: Event<P>) {
    match e
    case Arrive(arrivals) => LeaseRuns.AllNew(arrivals)
    case Claim(now, lease, sel) => Distinct(sel) && forall k :: 0 <= k < |sel| ==>
      sel[k] < |s.rows| && Eligible(s.rows[sel[k]], now, lease)
    case Write(item, _, _) => item in s.held && s.held[item].None?
    case Finalize(item, _) => item in s.held && s.held[item].Some?
    case Crash(_) => true
    case Replay(_, _) => true
  }

  ghost function Next<P>(policy: Policy, s: System<P>, e: Event<P>): System<P>
    requires Enabled(s, e)
  {
    match e
    case Arrive(arrivals) => s.(rows := s.rows + arrivals)
    case Claim(now, _, sel) =>
      var rows := ClaimRows(s.rows, sel, now);
      System(rows, s.held + (map item | item in Items(rows, sel, now) :: None))
    case Write(item, outcome, now) => s.(held := s.held[item := Some(Decide(policy, item, outcome, now))])
    case Finalize(item, at) =>
      var d := s.held[item].value;
      System(FinalizeRows(s.rows, item, d.state, d.when, d.code, at), s.held - {item})
    case Crash(lost) => s.(held := s.held - lost)
    case Replay(ids, at) => s.(rows := ReplayRows(s.rows, ids, at))
  }

  ghost predicate IsRun<P>(policy: Policy, ss: seq<System<P>>, es: seq<Event<P>>) {
    && |ss| == |es| + 1
    && ss[0] == System([], map[])
    && forall k :: 0 <= k < |es| ==> Enabled(ss[k], es[k]) && ss[k + 1] == Next(policy, ss[k], es[k])
  }

  // ---- every run of the system is a run of the lease protocol ----

  ghost function Tables<P>(ss: seq<System<P>>): (ts: seq<seq<Row<P>>>)
    ensures |ts| == |ss| && forall k :: 0 <= k < |ss| ==> ts[k] == ss[k].rows
  {
    seq(|ss|, k requires 0 <= k < |ss| => ss[k].rows)
  }

  ghost function LeaseEvent<P>(s: System<P>, e: Event<P>): LeaseRuns.Event<P>
    requires Enabled(s, e)
  {
    match e
    case Arrive(arrivals) => LeaseRuns.Arrive(arrivals)
    case Claim(now, lease, sel) => LeaseRuns.Claim(now, lease, sel)
    case Write(_, _, _) => LeaseRuns.Elsewhere
    case Finalize(item, at) =>
      var d := s.held[item].value;
      LeaseRuns.Finalize(item, d.state, d.when, d.code, at)
    case Crash(_) => LeaseRuns.Elsewhere
    case Replay(ids, at) => LeaseRuns.Replay(ids, at)
  }

  ghost function LeaseEvents<P>(policy: Policy, ss: seq<System<P>>, es: seq<Event<P>>): (les: seq<LeaseRuns.Event<P>>)
    requires IsRun(policy, ss, es)
    ensures |les| == |es| && forall k :: 0 <= k < |es| ==> les[k] == LeaseEvent(ss[k], es[k])
  {
    seq(|es|, k requires 0 <= k < |es| => LeaseEvent(ss[k], es[k]))
  }

  /** The writer took this item in one of the first k events, and reported success. */
  ghost predicate WrittenBefore<P>(es: seq<Event<P>>, k: nat, id: nat, payload: P) {
    exists i :: 0 <= i < k && i < |es| && es[i].Write? && es[i].outcome.Written? && es[i].item.id == id
        && es[i].item.payload == payload
  }

  /** Event j handed the item to the writer, and this was decided of the answer. */
  ghost predicate DecidedAt<P>(policy: Policy, es: seq<Event<P>>, j: nat, item: Item<P>, d: Decision) {
    j < |es| && es[j].Write? && es[j].item == item && d == Decide(policy, item, es[j].outcome, es[j].failedAt)
  }

  /** What holds of an item in flight and of what was decided about it. */
  ghost predicate ItemInv<P>(policy: Policy, rows: seq<Row<P>>, es: seq<Event<P>>, k: nat, item: Item<P>,
                             d: Option<Decision>) {
    && item.id < |rows|
    && item.attempts <= rows[item.id].attempts
    && item.payload == rows[item.id].payload
    && (d.Some? ==> exists j: nat :: j < k && DecidedAt(policy, es, j, item, d.value))
  }

  ghost predicate HeldInv<P>(policy: Policy, s: System<P>, es: seq<Event<P>>, k: nat) {
    forall item :: item in s.held ==> ItemInv(policy, s.rows, es, k, item, s.held[item])
  }

  /** Event j handed the row's payload to the writer, which failed on it; there and then the
      row was out of attempts, or the failure was permanent. */
  ghost predicate GivenUpAt<P>(policy: Policy, es: seq<Event<P>>, j: nat, id: nat, row: Row<P>) {
    && j < |es| && es[j].Write? && es[j].item.id == id && es[j].item.payload == row.payload
    && es[j].outcome.Failed? && row.error == Some(es[j].outcome.code)
    && (!es[j].outcome.retryable || es[j].item.attempts >= policy.maxAttempts)
  }

  /** Event j handed the row's payload to the writer, which failed on it for the time being,
      with attempts left; the row is due when the wait from that failure is over. */
  ghost predicate SentBackAt<P>(policy: Policy, es: seq<Event<P>>, j: nat, id: nat, row: Row<P>) {
    && j < |es| && es[j].Write? && es[j].item.id == id && es[j].item.payload == row.payload
    && es[j].outcome.Failed? && row.error == Some(es[j].outcome.code)
    && es[j].outcome.retryable && es[j].item.attempts == row.attempts < policy.maxAttempts
    && row.availableAt == es[j].failedAt + Seconds(Backoff(row.attempts, policy.base, policy.maximum))
  }

  /** What the writer answered explains the row's state. */
  ghost predicate Explained<P>(policy: Policy, es: seq<Event<P>>, k: nat, id: nat, row: Row<P>) {
    && (row.state.Done? ==> WrittenBefore(es, k, id, row.payload))
    && (row.state.DeadLetter? ==> exists j: nat :: j < k && GivenUpAt(policy, es, j, id, row))
    && (row.state.Retryable? ==> exists j: nat :: j < k && SentBackAt(policy, es, j, id, row))
  }

  ghost predicate RowsInv<P>(policy: Policy, s: System<P>, es: seq<Event<P>>, k: nat) {
    forall r: nat :: r < |s.rows| ==> Explained(policy, es, k, r, s.rows[r])
  }

  lemma HeldStep<P>(policy: Policy, s: System<P>, es: seq<Event<P>>, k: nat)
    requires k < |es| && Enabled(s, es[k]) && HeldInv(policy, s, es, k)
    ensures HeldInv(policy, Next(policy, s, es[k]), es, k + 1)
  {
    hide Decide;
    var t := Next(policy, s, es[k]);
    forall item | item in t.held ensures ItemInv(policy, t.rows, es, k + 1, item, t.held[item]) {
      if item in s.held {
        assert ItemInv(policy, s.rows, es, k, item, s.held[item]);
        if es[k].Write? && es[k].item == item {
          assert DecidedAt(policy, es, k, item, t.held[item].value);
        }
      }
    }
  }

  lemma ExplainedLater<P>(policy: Policy, es: seq<Event<P>>, k: nat, id: nat, row: Row<P>)
    requires Explained(policy, es, k, id, row)
    ensures Explained(policy, es, k + 1, id, row)
  {
    hide GivenUpAt, SentBackAt;
  }

  /** A row finalized as its item's write asks is explained by that write. */
  lemma FinalizedIsExplained<P>(policy: Policy, rows: seq<Row<P>>, es: seq<Event<P>>, k: nat, item: Item<P>,
                                d: Decision, at: int)
    requires ItemInv(policy, rows, es, k, item, Some(d)) && Current(rows, item)
    ensures Explained(policy, es, k + 1, item.id, FinalizeRow(rows[item.id], d.state, d.when, d.code, at))
  {
    hide Backoff;
    var row := FinalizeRow(rows[item.id], d.state, d.when, d.code, at);
    var j: nat :| j < k && DecidedAt(policy, es, j, item, d);
    if row.state.DeadLetter? {
      assert GivenUpAt(policy, es, j, item.id, row);
    } else if row.state.Retryable? {
      assert SentBackAt(policy, es, j, item.id, row);
    }
  }

  lemma RowsStep<P>(policy: Policy, s: System<P>, es: seq<Event<P>>, k: nat)
    requires k < |es| && Enabled(s, es[k]) && HeldInv(policy, s, es, k) && RowsInv(policy, s, es, k)
    ensures RowsInv(policy, Next(policy, s, es[k]), es, k + 1)
  {
    hide Explained, ItemInv;
    var t := Next(policy, s, es[k]);
    forall r: nat | r < |t.rows| ensures Explained(policy, es, k + 1, r, t.rows[r]) {
      if r < |s.rows| && t.rows[r] == s.rows[r] {
        ExplainedLater(policy, es, k, r, s.rows[r]);
      } else if es[k].Finalize? {
        var d := s.held[es[k].held].value;
        FinalizedIsExplained(policy, s.rows, es, k, es[k].held, d, es[k].at);
      } else {
        InFlightIsExplained(policy, es, k + 1, r, t.rows[r]);
      }
    }
  }

  lemma InFlightIsExplained<P>(policy: Policy, es: seq<Event<P>>, k: nat, id: nat, row: Row<P>)
    requires row.state.Pending? || row.state.Processing?
    ensures Explained(policy, es, k, id, row)
  {
  }

  lemma {:induction false} RunInv<P>(policy: Policy, ss: seq<System<P>>, es: seq<Event<P>>, k: nat)
    requires IsRun(policy, ss, es) && k <= |es|
    ensures HeldInv(policy, ss[k], es, k) && RowsInv(policy, ss[k], es, k)
  {
    if k > 0 {
      RunInv(policy, ss, es, k - 1);
      assert Enabled(ss[k - 1], es[k - 1]) && ss[k] == Next(policy, ss[k - 1], es[k - 1]);
      HeldStep(policy, ss[k - 1], es, k - 1);
      RowsStep(policy, ss[k - 1], es, k - 1);
    }
  }

  function Limit<P>(policy: Policy): P -> nat { p => policy.maxAttempts }

  /** The delivery workers stay inside the lease protocol, so everything proved of lease
      runs (fresh tokens, fencing, bounded retries, leases) holds of the outbox. */
  lemma DeliveryIsLeaseRun<P>(policy: Policy, ss: seq<System<P>>, es: seq<Event<P>>)
    requires IsRun(policy, ss, es)
    ensures LeaseRuns.IsRun(Limit(policy), Tables(ss), LeaseEvents(policy, ss, es))
  {
    var ts, les := Tables(ss), LeaseEvents(policy, ss, es);
    forall k | 0 <= k < |es|
      ensures LeaseRuns.Enabled(Limit(policy), ts[k], les[k]) && ts[k + 1] == LeaseRuns.Next(ts[k], les[k])
    {
      RunInv(policy, ss, es, k);
      assert Enabled(ss[k], es[k]) && ss[k + 1] == Next(policy, ss[k], es[k]);
    }
  }

  /** At least once, nothing altered: a row that is delivered at some point was, before,
      handed to the writer with the payload it arrived with, and the writer reported
      success; and it stays delivered, unchanged. */
  lemma DeliveredMeansWritten<P>(policy: Policy, ss: seq<System<P>>, es: seq<Event<P>>, arrived: nat, n: nat, i: nat,
                                 j: nat)
    requires IsRun(policy, ss, es) && arrived < i <= j <= |es|
    requires es[arrived].Arrive? && n < |es[arrived].arrivals|
    ensures var row, payload := |ss[arrived].rows| + n, es[arrived].arrivals[n].payload;
            && row < |ss[i].rows| && row < |ss[j].rows|
            && ss[i].rows[row].payload == payload
            && (ss[i].rows[row].state.Done? ==>
                  && WrittenBefore(es, i, row, payload)
                  && ss[j].rows[row] == ss[i].rows[row])
  {
    var row := |ss[arrived].rows| + n;
    var ts, les := Tables(ss), LeaseEvents(policy, ss, es);
    DeliveryIsLeaseRun(policy, ss, es);
    assert ss[arrived + 1] == Next(policy, ss[arrived], es[arrived]);
    assert ss[arrived + 1].rows[row].payload == es[arrived].arrivals[n].payload;
    LeaseRuns.RowsPersist(Limit(policy), ts, les, arrived + 1, i, row);
    LeaseRuns.RowsPersist(Limit(policy), ts, les, i, j, row);
    RunInv(policy, ss, es, i);
  }

  /** Over any run of the outbox, one row goes back for a retry at most max_attempts - 1 times. */
  lemma DeliveryRetriesAreBounded<P>(policy: Policy, ss: seq<System<P>>, es: seq<Event<P>>, row: nat)
    requires policy.maxAttempts >= 1 && IsRun(policy, ss, es)
    ensures LeaseRuns.RetryCount(Tables(ss), |es|, row) <= policy.maxAttempts - 1
  {
    DeliveryIsLeaseRun(policy, ss, es);
    LeaseRuns.RetriesAreBounded(Limit(policy), Tables(ss), LeaseEvents(policy, ss, es), |es|, row);
  }

  /** In every run, what the writer answered explains every row: delivered rows were written;
      a dead letter failed for good, or with its attempts used up; and a row sent back failed
      for the time being, and is due exactly when its wait is over. */
  lemma RowsAreExplained<P>(policy: Policy, ss: seq<System<P>>, es: seq<Event<P>>, k: nat, row: nat)
    requires IsRun(policy, ss, es) && k <= |es| && row < |ss[k].rows|
    ensures Explained(policy, es, k, row, ss[k].rows[row])
  {
    hide Explained, Enabled, HeldInv;
    RunInv(policy, ss, es, k);
  }

  /** The row after the writer's answer: delivered, or failed as the policy says. */
  ghost predicate Answered<P>(policy: Policy, outcome: Outcome, failedAt: int, at: int, before: Row<P>,
                              after: Row<P>) {
    match outcome
    case Written => after == before.(state := Done, startedAt := None, error := None, doneAt := Some(at))
    case Failed(code, retryable) => FailsAs(policy, before, !retryable, code, failedAt, after)
  }

  lemma DecisionAnswers<P>(policy: Policy, rows: seq<Row<P>>, item: Item<P>, outcome: Outcome, failedAt: int, at: int)
    requires Current(rows, item)
    ensures var d := Decide(policy, item, outcome, failedAt);
            var after := FinalizeRows(rows, item, d.state, d.when, d.code, at);
            after == rows[item.id := after[item.id]]
                && Answered(policy, outcome, failedAt, at, rows[item.id], after[item.id])
  {
    hide Failure, FailsAs;
    if outcome.Failed? {
      FailureFails(policy, rows, item, !outcome.retryable, outcome.code, failedAt, at);
    }
  }

  /** Conversely, the finalize of an item whose token is current gives the row what the
      writer's answer asks for. */
  lemma FinalizedAsAnswered<P>(policy: Policy, ss: seq<System<P>>, es: seq<Event<P>>, k: nat) returns (j: nat)
    requires IsRun(policy, ss, es) && k < |es| && es[k].Finalize? && Current(ss[k].rows, es[k].held)
    ensures j < k && es[j].Write? && es[j].item == es[k].held
    ensures var before, after := ss[k].rows[es[k].held.id], ss[k + 1].rows[es[k].held.id];
            Answered(policy, es[j].outcome, es[j].failedAt, es[k].at, before, after)
  {
    hide Decide, Answered;
    RunInv(policy, ss, es, k);
    var s, item := ss[k], es[k].held;
    assert Enabled(s, es[k]) && ss[k + 1] == Next(policy, s, es[k]);
    assert ItemInv(policy, s.rows, es, k, item, s.held[item]);
    var d := s.held[item].value;
    j :| j < k && DecidedAt(policy, es, j, item, d);
    DecisionAnswers(policy, s.rows, item, es[j].outcome, es[j].failedAt, es[k].at);
  }
}
