/** The delivery worker's cycle, that it is one of the runs of the system, and that
    repeated cycles drain the outbox. */
module DeliveryWorker {
  import opened Std
  import opened LeaseTable
  import opened Repositories
  import opened Draining
  import D = DeliveryRuns

  /** The worker's surroundings during one cycle: what the writer answers for each item, and
      the clock readings for a failure and for the finalizing transaction of each item. */
  datatype Conditions<!P> = Conditions(writer: Item<P> -> D.Outcome, failedAt: Item<P> -> int,
                                       finalizedAt: Item<P> -> int)

  function DecisionFor<P>(policy: Policy, c: Conditions<P>, item: Item<P>): Decision {
    D.Decide(policy, item, c.writer(item), c.failedAt(item))
  }

  function SettleRow<P>(policy: Policy, c: Conditions<P>, item: Item<P>, row: Row<P>): Row<P> {
    var d := DecisionFor(policy, c, item);
    FinalizeRow(row, d.state, d.when, d.code, c.finalizedAt(item))
  }

  /** The table after the first n items have been finalized in turn. */
  ghost function SettleRows<P>(policy: Policy, c: Conditions<P>, items: seq<Item<P>>, n: nat,
                               rows: seq<Row<P>>): seq<Row<P>>
    requires n <= |items|
  {
    if n == 0 then rows
    else
      var d := DecisionFor(policy, c, items[n - 1]);
      FinalizeRows(SettleRows(policy, c, items, n - 1, rows), items[n - 1], d.state, d.when, d.code,
                   c.finalizedAt(items[n - 1]))
  }

  lemma NoneSettled<P>(policy: Policy, c: Conditions<P>, items: seq<Item<P>>, rows: seq<Row<P>>)
    ensures SettleRows(policy, c, items, 0, rows) == rows
  {
  }

  lemma OneMoreSettled<P>(policy: Policy, c: Conditions<P>, items: seq<Item<P>>, n: nat, rows: seq<Row<P>>)
    requires n < |items|
    ensures var before, item := SettleRows(policy, c, items, n, rows), items[n];
            SettleRows(policy, c, items, n + 1, rows)
            == if Current(before, item) then before[item.id := SettleRow(policy, c, item, before[item.id])] else before
  {
  }

  /** When the items' tokens are current, every finalize succeeds: each item's row is
      settled exactly once, and no other row changes. */
  lemma {:induction false} EveryItemSettlesOnce<P>(policy: Policy, c: Conditions<P>, items: seq<Item<P>>, n: nat,
                                                   rows: seq<Row<P>>)
    requires n <= |items| && Distinct(Ids(items))
    requires forall k :: 0 <= k < |items| ==> Current(rows, items[k])
    ensures var after := SettleRows(policy, c, items, n, rows);
            && |after| == |rows|
            && (forall k :: 0 <= k < n ==>
                items[k].id < |rows| && after[items[k].id] == SettleRow(policy, c, items[k], rows[items[k].id]))
            && (forall i: nat :: i < |rows| && (forall k :: 0 <= k < n ==> items[k].id != i) ==> after[i] == rows[i])
  {
    hide SettleRows, SettleRow;
    NoneSettled(policy, c, items, rows);
    if n > 0 {
      EveryItemSettlesOnce(policy, c, items, n - 1, rows);
      OneMoreSettled(policy, c, items, n - 1, rows);
      forall k | 0 <= k < n - 1 ensures items[k].id != items[n - 1].id {
        assert Ids(items)[k] != Ids(items)[n - 1];
      }
    }
  }

  /** One cycle, from the table before to the table after. */
  ghost predicate IsCycle<P>(policy: Policy, c: Conditions<P>, before: seq<Row<P>>, now: int, leaseSeconds: int,
                             limit: nat, locked: set<nat>, items: seq<Item<P>>, after: seq<Row<P>>) {
    var claimed := ClaimRows(before, Ids(items), now);
    && IsClaim(before, Everything(), now, leaseSeconds, limit, locked, items, claimed)
    && after == SettleRows(policy, c, items, |items|, claimed)
  }

  class ObservationDeliveryWorker<!P(==)> {
    const repository: ObservationOutboxRepository<P>
    const batchSize: nat
    const leaseSeconds: int
    const policy: Policy
    var lastSuccessfulCycle: Option<int>

    constructor (repository: ObservationOutboxRepository<P>, batchSize: nat, leaseSeconds: int, policy: Policy)
      ensures this.repository == repository && this.batchSize == batchSize
      ensures this.leaseSeconds == leaseSeconds && this.policy == policy
      ensures lastSuccessfulCycle == None
    {
      this.repository, this.batchSize, this.leaseSeconds, this.policy := repository, batchSize, leaseSeconds, policy;
      lastSuccessfulCycle := None;
    }

    /** Write one item outside any transaction, then finalize it in its own. */
    method Deliver(item: Item<P>, c: Conditions<P>)
      modifies repository
      ensures var d := DecisionFor(policy, c, item);
              repository.rows == FinalizeRows(old(repository.rows), item, d.state, d.when, d.code, c.finalizedAt(item))
      ensures Current(old(repository.rows), item) ==>
                && |repository.rows| == |old(repository.rows)|
                && repository.rows == old(repository.rows)[item.id := repository.rows[item.id]]
                && D.Answered(policy, c.writer(item), c.failedAt(item), c.finalizedAt(item),
                              old(repository.rows)[item.id], repository.rows[item.id])
    {
      if Current(repository.rows, item) {
        D.DecisionAnswers(policy, repository.rows, item, c.writer(item), c.failedAt(item), c.finalizedAt(item));
      }
      var outcome := c.writer(item);
      var state, when, code := Done, None, None;
      if outcome.Failed? {
        code := Some(outcome.code);
        state := if !outcome.retryable || item.attempts >= policy.maxAttempts then DeadLetter else Retryable;
        if state.Retryable? {
          when := Some(c.failedAt(item) + Seconds(Backoff(item.attempts, policy.base, policy.maximum)));
        }
      }
      var ok := repository.Finalize(item, state, when, code, c.finalizedAt(item));
    }

    /** Claim one batch, then deliver item by item. */
    method RunCycle(now: int, locked: set<nat>, c: Conditions<P>, finishedAt: int) returns (ghost items: seq<Item<P>>)
      modifies this, repository
      ensures IsCycle(policy, c, old(repository.rows), now, leaseSeconds, batchSize, locked, items, repository.rows)
      ensures lastSuccessfulCycle == if items != [] then Some(finishedAt) else old(lastSuccessfulCycle)
    {
      var batch := repository.Claim(now, batchSize, leaseSeconds, locked);
      ghost var claimed := repository.rows;
      for k := 0 to |batch|
        invariant repository.rows == SettleRows(policy, c, batch, k, claimed)
        invariant lastSuccessfulCycle == old(lastSuccessfulCycle)
      {
        Deliver(batch[k], c);
      }
      items := batch;
      if batch != [] {
        lastSuccessfulCycle := Some(finishedAt);
      }
    }
  }

  // ---- the cycle is a run of the system ----

  ghost predicate Runs<P>(policy: Policy, s: D.System<P>, es: seq<D.Event<P>>, t: D.System<P>)
    decreases |es|
  {
    if es == [] then s == t
    else D.Enabled(s, es[0]) && Runs(policy, D.Next(policy, s, es[0]), es[1..], t)
  }

  /** Write and then finalize, for each item in turn. */
  ghost function SettleEvents<P>(c: Conditions<P>, items: seq<Item<P>>): seq<D.Event<P>> {
    if items == [] then []
    else [D.Write(items[0], c.writer(items[0]), c.failedAt(items[0])), D.Finalize(items[0], c.finalizedAt(items[0]))]
         + SettleEvents(c, items[1..])
  }

  ghost function InFlight<P>(items: seq<Item<P>>): map<Item<P>, Option<Decision>> {
    map item | item in items :: None
  }

  lemma DeliverSteps<P>(policy: Policy, c: Conditions<P>, item: Item<P>, s: D.System<P>, es: seq<D.Event<P>>,
                        t: D.System<P>)
    requires item in s.held && s.held[item].None?
    requires var d := DecisionFor(policy, c, item);
             Runs(policy, D.System(FinalizeRows(s.rows, item, d.state, d.when, d.code, c.finalizedAt(item)),
                                   s.held - {item}), es, t)
    ensures Runs(policy, s,
                 [D.Write(item, c.writer(item), c.failedAt(item)), D.Finalize(item, c.finalizedAt(item))] + es, t)
  {
    var write, finalize := D.Write(item, c.writer(item), c.failedAt(item)), D.Finalize(item, c.finalizedAt(item));
    var s1 := D.Next(policy, s, write);
    assert s1.held - {item} == s.held - {item};
    var all := [write, finalize] + es;
    assert all[1..] == [finalize] + es && all[1..][1..] == es;
    assert Runs(policy, s1, all[1..], t);
  }

  lemma OneLessInFlight<P>(item: Item<P>, tail: seq<Item<P>>, rest: map<Item<P>, Option<Decision>>)
    requires item !in tail && item !in rest
    ensures var held := rest + InFlight([item] + tail);
            item in held && held[item].None? && held - {item} == rest + InFlight(tail)
  {
  }

  lemma {:induction false} SettlingRuns<P>(policy: Policy, c: Conditions<P>, items: seq<Item<P>>, n: nat,
                                           rows: seq<Row<P>>, rest: map<Item<P>, Option<Decision>>)
    requires n <= |items|
    requires forall i, j :: 0 <= i < j < |items| ==> items[i] != items[j]
    requires forall k :: 0 <= k < |items| ==> items[k] !in rest
    ensures Runs(policy, D.System(SettleRows(policy, c, items, n, rows), rest + InFlight(items[n..])),
                 SettleEvents(c, items[n..]),
                 D.System(SettleRows(policy, c, items, |items|, rows), rest))
    decreases |items| - n
  {
    if n == |items| {
      assert rest + InFlight(items[n..]) == rest;
    } else {
      var item := items[n];
      assert items[n..] == [item] + items[n + 1..];
      OneLessInFlight(item, items[n + 1..], rest);
      SettlingRuns(policy, c, items, n + 1, rows, rest);
      var s := D.System(SettleRows(policy, c, items, n, rows), rest + InFlight(items[n..]));
      DeliverSteps(policy, c, item, s, SettleEvents(c, items[n + 1..]),
                   D.System(SettleRows(policy, c, items, |items|, rows), rest));
    }
  }

  lemma RunsFirst<P>(policy: Policy, s: D.System<P>, e: D.Event<P>, es: seq<D.Event<P>>, t: D.System<P>)
    requires D.Enabled(s, e) && Runs(policy, D.Next(policy, s, e), es, t)
    ensures Runs(policy, s, [e] + es, t)
  {
    assert ([e] + es)[1..] == es;
  }

  /** The claim is a step of the system, and puts its items in flight. */
  lemma ClaimIsStep<P>(policy: Policy, s: D.System<P>, now: int, leaseSeconds: int, limit: nat, locked: set<nat>,
                       items: seq<Item<P>>, claimed: seq<Row<P>>)
    requires IsClaim(s.rows, Everything(), now, leaseSeconds, limit, locked, items, claimed)
    ensures var claim := D.Claim(now, leaseSeconds, Ids(items));
            D.Enabled(s, claim) && D.Next(policy, s, claim) == D.System(claimed, s.held + InFlight(items))
    ensures forall i, j :: 0 <= i < j < |items| ==> items[i] != items[j]
    ensures forall k :: 0 <= k < |items| ==>
              items[k].id < |s.rows| && items[k].attempts == s.rows[items[k].id].attempts + 1
  {
    hide Eligible;
    ClaimedItemsAreCurrent(s.rows, Everything(), now, leaseSeconds, limit, locked, items, claimed);
    forall k | 0 <= k < |items| ensures Ids(items)[k] < |s.rows| && Eligible(s.rows[Ids(items)[k]], now, leaseSeconds) {
      assert Current(claimed, items[k]);
    }
    forall i, j | 0 <= i < j < |items| ensures items[i] != items[j] {
      assert Ids(items)[i] != Ids(items)[j];
    }
  }

  /** A worker's cycle takes no step that the system does not allow: from any state whose
      items in flight were issued earlier, it is the run claim, write, finalize, write, ... */
  lemma CycleIsDeliveryRun<P>(policy: Policy, c: Conditions<P>, s: D.System<P>, now: int, leaseSeconds: int,
                              limit: nat, locked: set<nat>, items: seq<Item<P>>, after: seq<Row<P>>)
    requires IsCycle(policy, c, s.rows, now, leaseSeconds, limit, locked, items, after)
    requires forall item :: item in s.held ==> item.id < |s.rows| && item.attempts <= s.rows[item.id].attempts
    ensures Runs(policy, s, [D.Claim(now, leaseSeconds, Ids(items))] + SettleEvents(c, items), D.System(after, s.held))
  {
    hide IsClaim, ClaimRows, Runs, SettleRows, SettleEvents, InFlight, D.Enabled, D.Next;
    var claimed := ClaimRows(s.rows, Ids(items), now);
    ClaimIsStep(policy, s, now, leaseSeconds, limit, locked, items, claimed);
    assert items[0..] == items;
    SettlingRuns(policy, c, items, 0, claimed, s.held);
    NoneSettled(policy, c, items, claimed);
    RunsFirst(policy, s, D.Claim(now, leaseSeconds, Ids(items)), SettleEvents(c, items), D.System(after, s.held));
  }

  // ---- draining ----

  /** Whatever the writer answers, an item that is not delivered is given up, or sent back
      while it may have another attempt. */
  lemma SettleRowSettles<P>(policy: Policy, c: Conditions<P>, item: Item<P>, row: Row<P>)
    requires item.attempts == row.attempts
    ensures Settled(policy.maxAttempts, row, SettleRow(policy, c, item, row))
  {
  }

  lemma CycleIsRound<P>(policy: Policy, c: Conditions<P>, before: seq<Row<P>>, now: int, leaseSeconds: int,
                        limit: nat, locked: set<nat>, items: seq<Item<P>>, after: seq<Row<P>>)
    requires IsCycle(policy, c, before, now, leaseSeconds, limit, locked, items, after)
    ensures IsRound(Everything(), policy.maxAttempts, before, now, leaseSeconds, limit, locked, items, after)
  {
    hide Settled, SettleRow, IsClaim, SettleRows;
    var claimed := ClaimRows(before, Ids(items), now);
    ClaimedItemsAreCurrent(before, Everything(), now, leaseSeconds, limit, locked, items, claimed);
    EveryItemSettlesOnce(policy, c, items, |items|, claimed);
    forall k | 0 <= k < |items| ensures Settled(policy.maxAttempts, claimed[items[k].id], after[items[k].id]) {
      assert Current(claimed, items[k]);
      SettleRowSettles(policy, c, items[k], claimed[items[k].id]);
    }
  }

  /** Each delivered item takes at least one unit off the load, whatever the writer answers. */
  lemma CycleLowersLoad<P>(policy: Policy, c: Conditions<P>, before: seq<Row<P>>, now: int, leaseSeconds: int,
                           limit: nat, locked: set<nat>, items: seq<Item<P>>, after: seq<Row<P>>)
    requires IsCycle(policy, c, before, now, leaseSeconds, limit, locked, items, after)
    ensures Load(Everything(), policy.maxAttempts, after) + |items| <= Load(Everything(), policy.maxAttempts, before)
  {
    hide IsCycle, IsRound, Load;
    CycleIsRound(policy, c, before, now, leaseSeconds, limit, locked, items, after);
    RoundLowersLoad(Everything(), policy.maxAttempts, before, now, leaseSeconds, limit, locked, items, after);
  }

  /** The settings and surroundings of one cycle in a series. */
  datatype Cycle<!P> = Cycle(now: int, conditions: Conditions<P>, items: seq<Item<P>>)

  /** A series of cycles with nothing in between, each late enough for every unfinished row. */
  ghost predicate LateCycles<P>(policy: Policy, leaseSeconds: int, limit: nat, ts: seq<seq<Row<P>>>,
                                cycles: seq<Cycle<P>>) {
    && |ts| == |cycles| + 1
    && forall k :: 0 <= k < |cycles| ==>
      && IsCycle(policy, cycles[k].conditions, ts[k], cycles[k].now, leaseSeconds, limit, {}, cycles[k].items,
                 ts[k + 1])
      && AllDue(Everything(), ts[k], cycles[k].now, leaseSeconds)
  }

  /** The outbox drains: after as many such cycles as the initial load, every row is
      delivered or a dead letter, whatever the writer answers. */
  lemma CyclesDrainTheOutbox<P>(policy: Policy, leaseSeconds: int, limit: nat, ts: seq<seq<Row<P>>>,
                                cycles: seq<Cycle<P>>)
    requires LateCycles(policy, leaseSeconds, limit, ts, cycles) && limit >= 1
    requires |cycles| >= Load(Everything(), policy.maxAttempts, ts[0])
    ensures forall i: nat :: i < |ts[|cycles|]| ==> Terminal(ts[|cycles|][i].state)
  {
    hide IsCycle, IsRound, Load, AllDue;
    var rounds := seq(|cycles|, k requires 0 <= k < |cycles| => Round(cycles[k].now, cycles[k].items));
    forall k | 0 <= k < |cycles|
      ensures IsRound(Everything(), policy.maxAttempts, ts[k], rounds[k].now, leaseSeconds, limit, {},
                      rounds[k].items, ts[k + 1])
    {
      var c := cycles[k];
      CycleIsRound(policy, c.conditions, ts[k], c.now, leaseSeconds, limit, {}, c.items, ts[k + 1]);
    }
    RoundsDrain(Everything(), policy.maxAttempts, leaseSeconds, limit, ts, rounds);
  }
}
