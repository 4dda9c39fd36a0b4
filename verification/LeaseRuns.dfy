/** Every run of the lease protocol: any number of workers, any clocks, crashes (an item
    that is simply never finalized), expired leases and replays of dead letters. */
module LeaseRuns {
  import opened Std
  import opened LeaseTable

  /** One committed transaction. Every worker and replay call brings its own clock. */
  datatype Event<P> =
    | Arrive(arrivals: seq<Row<P>>)
    | Claim(now: int, leaseSeconds: int, sel: seq<nat>)
    | Finalize(item: Item<P>, state: State, when: Option<int>, code: Option<string>, at: int)
    | Replay(ids: set<nat>, replayAt: int)
    | Elsewhere  // a step of the system that leaves this table alone

  ghost predicate AllNew<P>(rows: seq<Row<P>>) {
    forall i :: 0 <= i < |rows| ==> rows[i] == NewRow(rows[i].payload, rows[i].availableAt)
  }

  /** Arriving rows have never been claimed. A claim takes different eligible rows. A finalize
      may carry any token at all, but the worker policy asks for a retry only below the
      attempt limit, which may depend on what the row carries. */
  ghost predicate Enabled<P>(limit: P -> nat, rows: seq<Row<P>>, e: Event<P>) {
    match e
    case Arrive(arrivals) => AllNew(arrivals)
    case Claim(now, lease, sel) => Distinct(sel) && forall i :: i in sel ==> i < |rows| && Eligible(rows[i], now, lease)
    case Finalize(item, state, _, _, _) =>
      (Terminal(state) || state.Retryable?)
          && (state.Retryable? && Current(rows, item) ==> item.attempts < limit(rows[item.id].payload))
    case Replay(_, _) => true
    case Elsewhere => true
  }

  ghost function Next<P>(rows: seq<Row<P>>, e: Event<P>): seq<Row<P>> {
    match e
    case Arrive(arrivals) => rows + arrivals
    case Claim(now, _, sel) => ClaimRows(rows, sel, now)
    case Finalize(item, state, when, code, at) => FinalizeRows(rows, item, state, when, code, at)
    case Replay(ids, at) => ReplayRows(rows, ids, at)
    case Elsewhere => rows
  }

  /** A run from the empty table: ts[k] is the table after the first k events. */
  ghost predicate IsRun<P>(limit: P -> nat, ts: seq<seq<Row<P>>>, es: seq<Event<P>>) {
    && |ts| == |es| + 1
    && ts[0] == []
    && forall k :: 0 <= k < |es| ==> Enabled(limit, ts[k], es[k]) && ts[k + 1] == Next(ts[k], es[k])
  }

  ghost predicate Claims<P>(e: Event<P>, row: nat) { e.Claim? && row in e.sel }

  /** How often the row has been claimed by the first k events. */
  ghost function ClaimCount<P>(es: seq<Event<P>>, k: nat, row: nat): nat
    requires k <= |es|
  {
    if k == 0 then 0 else ClaimCount(es, k - 1, row) + if Claims(es[k - 1], row) then 1 else 0
  }

  /** How often the row has gone from processing to retryable in the first k events. */
  ghost function RetryCount<P>(ts: seq<seq<Row<P>>>, k: nat, row: nat): nat
    requires k < |ts|
  {
    if k == 0 then 0
    else RetryCount(ts, k - 1, row) + if ToRetryable(ts[k - 1], ts[k], row) then 1 else 0
  }

  ghost predicate ToRetryable<P>(before: seq<Row<P>>, after: seq<Row<P>>, row: nat) {
    row < |before| && row < |after| && !before[row].state.Retryable? && after[row].state.Retryable?
  }

  /** Clock reading of the row's latest claim among the first k events. */
  ghost function LastClaim<P>(es: seq<Event<P>>, k: nat, row: nat): Option<int>
    requires k <= |es|
  {
    if k == 0 then None
    else if Claims(es[k - 1], row) then Some(es[k - 1].now)
    else LastClaim(es, k - 1, row)
  }

  /** What one step keeps of one row. */
  lemma StepKeeps<P>(limit: P -> nat, rows: seq<Row<P>>, e: Event<P>, row: nat)
    requires Enabled(limit, rows, e) && row < |rows|
    ensures row < |Next(rows, e)|
    ensures Next(rows, e)[row].payload == rows[row].payload
    ensures Next(rows, e)[row].attempts == rows[row].attempts + if Claims(e, row) then 1 else 0
    ensures rows[row].state.Done? ==> Next(rows, e)[row] == rows[row]
    ensures (rows[row].state.Processing? <==> rows[row].startedAt.Some?) ==>
              (Next(rows, e)[row].state.Processing? <==> Next(rows, e)[row].startedAt.Some?)
  {
  }

  /** startedAt is set exactly while processing, and then it is the latest claim's reading;
      attempts count the claims. */
  lemma {:induction false} AttemptsCountClaims<P>(limit: P -> nat, ts: seq<seq<Row<P>>>, es: seq<Event<P>>, k: nat,
                                                  row: nat)
    requires IsRun(limit, ts, es) && k <= |es|
    ensures row < |ts[k]| ==>
              && ts[k][row].attempts == ClaimCount(es, k, row)
              && (ts[k][row].state.Processing? <==> ts[k][row].startedAt.Some?)
              && (ts[k][row].state.Processing? ==> ts[k][row].startedAt == LastClaim(es, k, row))
    ensures row >= |ts[k]| ==> ClaimCount(es, k, row) == 0
  {
    if k > 0 {
      AttemptsCountClaims(limit, ts, es, k - 1, row);
      assert Enabled(limit, ts[k - 1], es[k - 1]) && ts[k] == Next(ts[k - 1], es[k - 1]);
      if row < |ts[k - 1]| {
        StepKeeps(limit, ts[k - 1], es[k - 1], row);
      }
    }
  }

  lemma {:induction false} ClaimCountGrows<P>(es: seq<Event<P>>, i: nat, j: nat, row: nat)
    requires i <= j <= |es|
    ensures ClaimCount(es, i, row) <= ClaimCount(es, j, row)
    decreases j
  {
    if i < j {
      ClaimCountGrows(es, i, j - 1, row);
    }
  }

  /** No two claims in a run issue the same token. */
  lemma TokensAreFresh<P>(limit: P -> nat, ts: seq<seq<Row<P>>>, es: seq<Event<P>>, i: nat, j: nat, row: nat)
    requires IsRun(limit, ts, es) && i < j < |es|
    requires Claims(es[i], row) && Claims(es[j], row)
    ensures row < |ts[i + 1]| && row < |ts[j + 1]|
    ensures ts[i + 1][row].attempts < ts[j + 1][row].attempts
  {
    AttemptsCountClaims(limit, ts, es, i, row);
    AttemptsCountClaims(limit, ts, es, j, row);
    AttemptsCountClaims(limit, ts, es, i + 1, row);
    AttemptsCountClaims(limit, ts, es, j + 1, row);
    ClaimCountGrows(es, i + 1, j, row);
    assert ts[i + 1] == Next(ts[i], es[i]) && ts[j + 1] == Next(ts[j], es[j]);
    assert Enabled(limit, ts[i], es[i]) && Enabled(limit, ts[j], es[j]);
  }

  /** A row keeps its payload, and a finished row is never touched again. */
  lemma {:induction false} RowsPersist<P>(limit: P -> nat, ts: seq<seq<Row<P>>>, es: seq<Event<P>>, i: nat, j: nat,
                                          row: nat)
    requires IsRun(limit, ts, es) && i <= j <= |es| && row < |ts[i]|
    ensures row < |ts[j]|
    ensures ts[j][row].payload == ts[i][row].payload
    ensures ts[j][row].attempts >= ts[i][row].attempts
    ensures ts[i][row].state.Done? ==> ts[j][row] == ts[i][row]
    decreases j
  {
    if i < j {
      RowsPersist(limit, ts, es, i, j - 1, row);
      assert Enabled(limit, ts[j - 1], es[j - 1]) && ts[j] == Next(ts[j - 1], es[j - 1]);
      StepKeeps(limit, ts[j - 1], es[j - 1], row);
    }
  }

  /** The token can never be current again. */
  ghost predicate Spent<P>(rows: seq<Row<P>>, item: Item<P>) {
    && item.id < |rows|
    && item.attempts <= rows[item.id].attempts
    && (item.attempts == rows[item.id].attempts ==> !rows[item.id].state.Processing?)
  }

  lemma {:induction false} SpentForever<P>(limit: P -> nat, ts: seq<seq<Row<P>>>, es: seq<Event<P>>, i: nat, j: nat,
                                           item: Item<P>)
    requires IsRun(limit, ts, es) && i <= j <= |es| && Spent(ts[i], item)
    ensures Spent(ts[j], item)
    decreases j
  {
    if i < j {
      SpentForever(limit, ts, es, i, j - 1, item);
      assert Enabled(limit, ts[j - 1], es[j - 1]) && ts[j] == Next(ts[j - 1], es[j - 1]);
      StepKeeps(limit, ts[j - 1], es[j - 1], item.id);
    }
  }

  /** A token finalizes successfully at most once in a run: after a success, every later
      attempt with it, whoever makes it and whatever it asks for, changes nothing. */
  lemma TokenFinalizesAtMostOnce<P>(limit: P -> nat, ts: seq<seq<Row<P>>>, es: seq<Event<P>>, i: nat, j: nat)
    requires IsRun(limit, ts, es) && i < j < |es|
    requires es[i].Finalize? && es[j].Finalize? && es[i].item == es[j].item
    requires Current(ts[i], es[i].item)
    ensures !Current(ts[j], es[j].item)
    ensures ts[j + 1] == ts[j]
  {
    assert Enabled(limit, ts[i], es[i]) && ts[i + 1] == Next(ts[i], es[i]);
    assert Spent(ts[i + 1], es[i].item);
    SpentForever(limit, ts, es, i + 1, j, es[i].item);
    assert ts[j + 1] == Next(ts[j], es[j]);
  }

  /** Once a row has been claimed again, or its item finalized, no older token works. */
  lemma ReclaimFencesOlderTokens<P>(limit: P -> nat, ts: seq<seq<Row<P>>>, es: seq<Event<P>>, i: nat, j: nat,
                                    item: Item<P>)
    requires IsRun(limit, ts, es) && i < j <= |es|
    requires item.id < |ts[i]| && item.attempts <= ts[i][item.id].attempts
    requires Claims(es[i], item.id)
    ensures !Current(ts[j], item)
    ensures forall state, when, code, at :: FinalizeRows(ts[j], item, state, when, code, at) == ts[j]
  {
    assert Enabled(limit, ts[i], es[i]) && ts[i + 1] == Next(ts[i], es[i]);
    assert Spent(ts[i + 1], item);
    SpentForever(limit, ts, es, i + 1, j, item);
  }

  /** However many crashes, expired leases and replays, a row is sent back for a retry at
      most limit - 1 times, and not at all if its limit is zero. */
  lemma {:induction false} RetriesAreBounded<P>(limit: P -> nat, ts: seq<seq<Row<P>>>, es: seq<Event<P>>, k: nat,
                                                row: nat)
    requires IsRun(limit, ts, es) && k <= |es|
    ensures row >= |ts[k]| ==> RetryCount(ts, k, row) == 0
    ensures row < |ts[k]| ==>
              && RetryCount(ts, k, row) <= (if limit(ts[k][row].payload) == 0 then 0 else limit(ts[k][row].payload) - 1)
              && RetryCount(ts, k, row) <= ts[k][row].attempts - if ts[k][row].state.Processing? then 1 else 0
  {
    if k > 0 {
      RetriesAreBounded(limit, ts, es, k - 1, row);
      assert Enabled(limit, ts[k - 1], es[k - 1]) && ts[k] == Next(ts[k - 1], es[k - 1]);
      if row < |ts[k - 1]| {
        StepKeeps(limit, ts[k - 1], es[k - 1], row);
      }
    }
  }

  /** A row that is still processing is taken again only strictly more than one lease after
      its latest claim. */
  lemma ReclaimWaitsForLease<P>(limit: P -> nat, ts: seq<seq<Row<P>>>, es: seq<Event<P>>, k: nat, row: nat)
    requires IsRun(limit, ts, es) && k < |es|
    requires Claims(es[k], row) && row < |ts[k]| && ts[k][row].state.Processing?
    ensures LastClaim(es, k, row).Some?
    ensures LastClaim(es, k, row).value + Seconds(es[k].leaseSeconds) < es[k].now
  {
    AttemptsCountClaims(limit, ts, es, k, row);
    assert Enabled(limit, ts[k], es[k]);
  }

  /** No row is stranded: each unfinished row is eligible from a time that can be read off it. */
  function EligibleFrom<P>(row: Row<P>, leaseSeconds: int): int
    requires !Terminal(row.state) && (row.state.Processing? ==> row.startedAt.Some?)
  {
    if row.state.Processing? then row.startedAt.value + Seconds(leaseSeconds) + 1 else row.availableAt
  }

  lemma UnfinishedRowsBecomeEligible<P>(limit: P -> nat, ts: seq<seq<Row<P>>>, es: seq<Event<P>>, k: nat, row: nat,
                                        lease: int)
    requires IsRun(limit, ts, es) && k <= |es| && row < |ts[k]|
    ensures Terminal(ts[k][row].state) ==> forall now :: !Eligible(ts[k][row], now, lease)
    ensures !Terminal(ts[k][row].state) ==>
              && (ts[k][row].state.Processing? ==> ts[k][row].startedAt.Some?)
              && forall now :: Eligible(ts[k][row], now, lease) <==> now >= EligibleFrom(ts[k][row], lease)
  {
    AttemptsCountClaims(limit, ts, es, k, row);
  }

  // ---- giving up ----

  /** The finalize gives its row up only when its attempts are used up or the code is fatal. */
  ghost predicate ByPolicy<P>(maxAttempts: nat, fatal: set<string>, e: Event<P>) {
    e.Finalize? && e.state.DeadLetter? ==>
      e.code.Some? && (e.item.attempts >= maxAttempts || e.code.value in fatal)
  }

  ghost predicate Deserved<P>(maxAttempts: nat, fatal: set<string>, row: Row<P>) {
    row.state.DeadLetter? ==> row.error.Some? && (row.attempts >= maxAttempts || row.error.value in fatal)
  }

  /** In a run in which a row is only finalized by policy, it is a dead letter only when its
      attempts are used up or the error it shows is fatal. */
  lemma {:induction false} DeadLettersAreDeserved<P>(limit: P -> nat, maxAttempts: nat, fatal: set<string>,
                                                     ts: seq<seq<Row<P>>>, es: seq<Event<P>>, k: nat, row: nat)
    requires IsRun(limit, ts, es) && k <= |es|
    requires forall j :: 0 <= j < k && es[j].Finalize? && es[j].item.id == row ==> ByPolicy(maxAttempts, fatal, es[j])
    ensures row < |ts[k]| ==> Deserved(maxAttempts, fatal, ts[k][row])
  {
    if k > 0 {
      DeadLettersAreDeserved(limit, maxAttempts, fatal, ts, es, k - 1, row);
      assert Enabled(limit, ts[k - 1], es[k - 1]) && ts[k] == Next(ts[k - 1], es[k - 1]);
    }
  }

  /** What a row's state says of its other columns. */
  ghost predicate ColumnsAgree<P>(row: Row<P>) {
    && (row.state.Processing? <==> row.startedAt.Some?)
    && (row.state.Done? ==> row.doneAt.Some? && row.error.None?)
    && (!row.state.Done? ==> row.doneAt.None?)
  }

  /** In every run: a start time exactly while processing, and a time of completion, and no
      error, exactly when done. */
  lemma {:induction false} ColumnsAlwaysAgree<P>(limit: P -> nat, ts: seq<seq<Row<P>>>, es: seq<Event<P>>, k: nat,
                                                 row: nat)
    requires IsRun(limit, ts, es) && k <= |es|
    ensures row < |ts[k]| ==> ColumnsAgree(ts[k][row])
  {
    if k > 0 {
      ColumnsAlwaysAgree(limit, ts, es, k - 1, row);
      assert Enabled(limit, ts[k - 1], es[k - 1]) && ts[k] == Next(ts[k - 1], es[k - 1]);
    }
  }

  // ---- replay ----

  /** A replay makes exactly the listed dead letters due from its time on, for any claim, with
      their payload and their attempts as they were. */
  lemma ReplayedRowsAreDue<P>(limit: P -> nat, rows: seq<Row<P>>, ids: set<nat>, now: int, row: nat)
    requires row < |rows|
    ensures var before, after := rows[row], Next<P>(rows, Replay(ids, now))[row];
            && (!(row in ids && before.state.DeadLetter?) ==> after == before)
            && (row in ids && before.state.DeadLetter? ==>
                  && after.payload == before.payload && after.attempts == before.attempts
                  && after.state.Pending? && after.error == None && after.startedAt == None
                  && forall at, lease :: Eligible(after, at, lease) <==> at >= now)
  {
  }
}
