/** The schema worker: its failure policy, and that it keeps to the registry's protocol. */
module SchemaWorker {
  import opened Std
  import opened JsonValues
  import opened LeaseTable
  import opened Repositories
  import opened Storage
  import opened SchemaExtraction
  import opened SchemaRegistry
  import opened Draining
  import opened TaskWorkers
  import R = RegistryRuns
  import RegistryLeases
  import LeaseRuns

  const TERMINAL_FAILURE_CODES := {
    "raw_observation_missing", "invalid_json", "unsupported_persisted_input", "schema_depth_exceeded",
    "schema_field_limit_exceeded", "schema_node_limit_exceeded", "schema_path_too_long", "schema_document_too_large"}

  lemma {:induction false} WalkFailuresAreTerminal(t: seq<Action>, q: Progress)
    requires Run(t, q).Err?
    ensures Run(t, q).code in TERMINAL_FAILURE_CODES
    decreases |t|
  {
    if Run(t[..|t| - 1], q).Err? {
      WalkFailuresAreTerminal(t[..|t| - 1], q);
    }
  }

  lemma ExtractionFailuresAreTerminal(codec: Codec, document: Option<Json>)
    requires Extract(codec, document).Err?
    ensures Extract(codec, document).code in TERMINAL_FAILURE_CODES
  {
    if document.Some? && Run(Trace(document.value, []), START).Err? {
      WalkFailuresAreTerminal(Trace(document.value, []), START);
    }
  }

  /** Whatever is wrong with a task or its payload itself is never retried. */
  lemma PermanentFailuresAreTerminal(src: Source, rows: seq<Row<Task>>, item: Item<Task>)
    requires Prepare(src, rows, item).Err? && Prepare(src, rows, item).code != STALE
    ensures Prepare(src, rows, item).code in TERMINAL_FAILURE_CODES
  {
    hide Extract;
    if item.payload.rawId in src.raws {
      var document := src.parse(src.raws[item.payload.rawId].payload);
      if Extract(src.codec, document).Err? {
        ExtractionFailuresAreTerminal(src.codec, document);
      }
    }
  }

  function SettleEvents(policy: Policy, item: Item<Task>, code: string, terminal: bool,
                        c: Circumstances): seq<R.Event> {
    if c.unrecorded then []
    else
      var d := Failure(policy, item.attempts, terminal, code, c.failedAt);
      [R.Settle(item, d.state, d.when, d.code, c.settledAt)]
  }

  /** The protocol steps of processing one item. */
  function ItemEvents(src: Source, policy: Policy, s: R.System, item: Item<Task>, c: Circumstances): seq<R.Event> {
    if c.fault.Some? then SettleEvents(policy, item, c.fault.value, false, c)
    else
      var step := R.ProcessTask(item, c.takeover, c.at);
      match Process(src, s.rows, s.registry, item, c.takeover, c.at).outcome
      case Failed(code) => [step] + SettleEvents(policy, item, code, code in TERMINAL_FAILURE_CODES, c)
      case _ => [step]
  }

  /** The registry's protocol. */
  ghost function Rules(src: Source): Protocol<R.System, R.Event> {
    Protocol((s, e) => R.Enabled(src, s, e), (s, e) => R.Next(src, s, e))
  }

  lemma OneStep(src: Source, s: R.System, e: R.Event)
    ensures After(Rules(src), s, [e]) == R.Next(src, s, e)
    ensures Allowed(Rules(src), s, [e]) <==> R.Enabled(src, s, e)
  {
    hide R.Next, R.Enabled;
    StepsOne(Rules(src), s, e);
  }

  /** The item's task, if it is still there, has this policy's attempt limit. */
  ghost predicate Governed(src: Source, policy: Policy, rows: seq<Row<Task>>, item: Item<Task>) {
    item.id < |rows| ==> IsSchemaTask(rows[item.id].payload) && src.limit(rows[item.id].payload) == policy.maxAttempts
  }

  lemma SettleIsAllowed(src: Source, policy: Policy, s: R.System, item: Item<Task>, code: string, terminal: bool,
                        c: Circumstances)
    requires Governed(src, policy, s.rows, item)
    ensures Allowed(Rules(src), s, SettleEvents(policy, item, code, terminal, c))
  {
  }

  lemma SettleEffect(src: Source, policy: Policy, s: R.System, item: Item<Task>, code: string, terminal: bool,
                     c: Circumstances)
    ensures var after := After(Rules(src), s, SettleEvents(policy, item, code, terminal, c));
            && after.registry == s.registry
            && after.rows
               == if c.unrecorded then s.rows
                  else var d := Failure(policy, item.attempts, terminal, code, c.failedAt);
                       FinalizeRows(s.rows, item, d.state, d.when, d.code, c.settledAt)
  {
  }

  lemma ProcessKeepsPayloads(src: Source, s: R.System, item: Item<Task>, takeover: Option<Takeover>, at: int)
    ensures SamePayloads(s.rows, R.Next(src, s, R.ProcessTask(item, takeover, at)).rows)
  {
    hide Register, Extract;
  }

  lemma ProcessIsAllowed(src: Source, s: R.System, step: R.Event)
    requires step.ProcessTask?
    ensures R.Enabled(src, s, step)
  {
  }

  lemma FailureChangesNothing(src: Source, s: R.System, item: Item<Task>, takeover: Option<Takeover>, at: int)
    ensures var effect := Process(src, s.rows, s.registry, item, takeover, at);
            effect.outcome.Failed? ==> effect.rows == s.rows && effect.registry == s.registry
  {
    hide Register, Extract;
  }

  /** Processing one item takes no step the protocol does not allow, whatever goes wrong, and
      no task becomes another. */
  lemma ItemEventsAreAllowed(src: Source, policy: Policy, s: R.System, item: Item<Task>, c: Circumstances)
    ensures Governed(src, policy, s.rows, item) ==> Allowed(Rules(src), s, ItemEvents(src, policy, s, item, c))
    ensures SamePayloads(s.rows, After(Rules(src), s, ItemEvents(src, policy, s, item, c)).rows)
  {
    hide Process, R.Next, R.Enabled, Rules, After, Allowed, SettleEvents;
    if c.fault.Some? {
      SettleEffect(src, policy, s, item, c.fault.value, false, c);
      if Governed(src, policy, s.rows, item) {
        SettleIsAllowed(src, policy, s, item, c.fault.value, false, c);
      }
    } else {
      var step := R.ProcessTask(item, c.takeover, c.at);
      var outcome, next := Process(src, s.rows, s.registry, item, c.takeover, c.at).outcome, R.Next(src, s, step);
      OneStep(src, s, step);
      ProcessIsAllowed(src, s, step);
      ProcessKeepsPayloads(src, s, item, c.takeover, c.at);
      if outcome.Failed? {
        var terminal := outcome.code in TERMINAL_FAILURE_CODES;
        SettleEffect(src, policy, next, item, outcome.code, terminal, c);
        AfterAppend(Rules(src), s, [step], SettleEvents(policy, item, outcome.code, terminal, c));
        if Governed(src, policy, s.rows, item) {
          SettleIsAllowed(src, policy, next, item, outcome.code, terminal, c);
        }
      }
    }
  }

  // ---- a cycle ----

  predicate ItemDone(src: Source, s: R.System, item: Item<Task>, c: Circumstances) {
    c.fault.None? && Process(src, s.rows, s.registry, item, c.takeover, c.at).outcome.Processed?
  }

  /** The item failed, and its failure could be recorded. */
  predicate ItemFailed(src: Source, s: R.System, item: Item<Task>, c: Circumstances) {
    && !c.unrecorded && Current(s.rows, item)
    && (c.fault.Some? || Process(src, s.rows, s.registry, item, c.takeover, c.at).outcome.Failed?)
  }

  ghost function Steps(src: Source, policy: Policy, c: Item<Task> -> Circumstances)
    : (R.System, Item<Task>) -> seq<R.Event>
  {
    (s, item) => ItemEvents(src, policy, s, item, c(item))
  }

  ghost function Succeeds(src: Source, c: Item<Task> -> Circumstances): (R.System, Item<Task>) -> bool {
    (s, item) => ItemDone(src, s, item, c(item))
  }

  ghost function Fails(src: Source, c: Item<Task> -> Circumstances): (R.System, Item<Task>) -> bool {
    (s, item) => ItemFailed(src, s, item, c(item))
  }

  function Wanted(): Task -> bool {
    OfProcessor(SCHEMA_OBSERVATION_PROCESSOR_TYPE, SCHEMA_OBSERVATION_PROCESSOR_VERSION)
  }

  ghost function Claimed(before: R.System, items: seq<Item<Task>>, now: int): R.System {
    R.System(ClaimRows(before.rows, Ids(items), now), before.registry)
  }

  /** One cycle: the items answer a claim of schema tasks, and the steps are that claim and
      then the processing of each item in turn. */
  ghost predicate IsCycle(src: Source, policy: Policy, c: Item<Task> -> Circumstances, before: R.System, now: int,
                          leaseSeconds: int, limit: nat, locked: set<nat>, items: seq<Item<Task>>, es: seq<R.Event>) {
    var claimed := Claimed(before, items, now);
    && IsClaim(before.rows, Wanted(), now, leaseSeconds, limit, locked, items, claimed.rows)
    && es == [R.Claim(now, leaseSeconds, Ids(items))]
       + BatchSteps(Rules(src), Steps(src, policy, c), claimed, items, |items|)
  }

  /** Every kind of task the worker claims has its policy's attempt limit. */
  ghost predicate Governs(src: Source, policy: Policy) {
    forall t: Task :: IsSchemaTask(t) ==> src.limit(t) == policy.maxAttempts
  }

  lemma ClaimStartsCycle(src: Source, policy: Policy, c: Item<Task> -> Circumstances, before: R.System,
                         after: R.System, now: int, leaseSeconds: int, limit: nat, locked: set<nat>,
                         items: seq<Item<Task>>)
    requires IsClaim(before.rows, Wanted(), now, leaseSeconds, limit, locked, items, after.rows)
    requires after.registry == before.registry
    ensures after == Claimed(before, items, now)
    ensures IsCycle(src, policy, c, before, now, leaseSeconds, limit, locked, items,
                    [R.Claim(now, leaseSeconds, Ids(items))]
                        + BatchSteps(Rules(src), Steps(src, policy, c), after, items, |items|))
  {
    hide BatchSteps, ClaimRows, Rules, Steps;
  }

  lemma ClaimIsAllowed(src: Source, s: R.System, now: int, leaseSeconds: int, limit: nat, locked: set<nat>,
                       items: seq<Item<Task>>)
    requires IsClaim(s.rows, Wanted(), now, leaseSeconds, limit, locked, items, Claimed(s, items, now).rows)
    ensures var claim := R.Claim(now, leaseSeconds, Ids(items));
            R.Enabled(src, s, claim) && R.Next(src, s, claim) == Claimed(s, items, now)
    ensures |items| <= limit
  {
    hide Eligible;
    SelectionIsExact(s.rows, Wanted(), now, leaseSeconds, limit, locked, Ids(items));
  }

  lemma ClaimedAreGoverned(src: Source, policy: Policy, s: R.System, now: int, leaseSeconds: int, limit: nat,
                           locked: set<nat>, items: seq<Item<Task>>)
    requires IsClaim(s.rows, Wanted(), now, leaseSeconds, limit, locked, items, Claimed(s, items, now).rows)
             && Governs(src, policy)
    ensures forall k :: 0 <= k < |items| ==> Governed(src, policy, Claimed(s, items, now).rows, items[k])
  {
    hide IsClaim;
    ClaimedItemsAreCurrent(s.rows, Wanted(), now, leaseSeconds, limit, locked, items, Claimed(s, items, now).rows);
  }

  /** The items keep their tasks, and with them their policy. */
  lemma TasksStay(src: Source, policy: Policy, s: R.System, items: seq<Item<Task>>, n: nat,
                  c: Item<Task> -> Circumstances)
    requires n <= |items|
    ensures SamePayloads(s.rows, StateBefore(Rules(src), Steps(src, policy, c), s, items, n).rows)
  {
    hide StateBefore, After, ItemEvents, Rules;
    var rules, steps := Rules(src), Steps(src, policy, c);
    forall k | 0 <= k < n
      ensures var mid := StateBefore(rules, steps, s, items, k);
              SamePayloads(mid.rows, After(rules, mid, steps(mid, items[k])).rows)
    {
      ItemEventsAreAllowed(src, policy, StateBefore(rules, steps, s, items, k), items[k], c(items[k]));
    }
    BatchKeepsPayloads(rules, steps, (t: R.System) => t.rows, s, items, n);
  }

  lemma ItemsAreAllowed(src: Source, policy: Policy, s: R.System, items: seq<Item<Task>>,
                        c: Item<Task> -> Circumstances)
    requires forall k :: 0 <= k < |items| ==> Governed(src, policy, s.rows, items[k])
    ensures Allowed(Rules(src), s, BatchSteps(Rules(src), Steps(src, policy, c), s, items, |items|))
  {
    hide StateBefore, After, Allowed, ItemEvents, Rules, BatchSteps;
    var rules, steps := Rules(src), Steps(src, policy, c);
    forall k | 0 <= k < |items|
      ensures var mid := StateBefore(rules, steps, s, items, k); Allowed(rules, mid, steps(mid, items[k]))
    {
      var mid := StateBefore(rules, steps, s, items, k);
      TasksStay(src, policy, s, items, k, c);
      assert Governed(src, policy, s.rows, items[k]);
      ItemEventsAreAllowed(src, policy, mid, items[k], c(items[k]));
    }
    BatchIsAllowed(rules, steps, s, items, |items|);
  }

  lemma DoneIsNotFailed(src: Source, s: R.System, item: Item<Task>, c: Circumstances)
    ensures !(ItemDone(src, s, item, c) && ItemFailed(src, s, item, c))
  {
    hide Process;
  }

  /** A cycle takes only steps that the protocol allows, whatever goes wrong, and its
      successes and recorded failures stay within the batch. */
  lemma CycleIsAllowed(src: Source, policy: Policy, c: Item<Task> -> Circumstances, before: R.System, now: int,
                       leaseSeconds: int, limit: nat, locked: set<nat>, items: seq<Item<Task>>, es: seq<R.Event>)
    requires Governs(src, policy) && IsCycle(src, policy, c, before, now, leaseSeconds, limit, locked, items, es)
    ensures Allowed(Rules(src), before, es)
    ensures var rules, steps, claimed := Rules(src), Steps(src, policy, c), Claimed(before, items, now);
            && After(rules, before, es) == StateBefore(rules, steps, claimed, items, |items|)
            && CountOf(rules, steps, Succeeds(src, c), claimed, items, |items|)
               + CountOf(rules, steps, Fails(src, c), claimed, items, |items|)
               <= |items| <= limit
  {
    hide R.Next, R.Enabled, Governed, Governs, BatchSteps, CountOf, IsClaim, Rules, After, Allowed, ItemDone,
         ItemFailed, ItemEvents;
    var rules, steps, claimed := Rules(src), Steps(src, policy, c), Claimed(before, items, now);
    var claim := R.Claim(now, leaseSeconds, Ids(items));
    ClaimIsAllowed(src, before, now, leaseSeconds, limit, locked, items);
    ClaimedAreGoverned(src, policy, before, now, leaseSeconds, limit, locked, items);
    OneStep(src, before, claim);
    ItemsAreAllowed(src, policy, claimed, items, c);
    AfterAppend(rules, before, [claim], BatchSteps(rules, steps, claimed, items, |items|));
    forall k | 0 <= k < |items|
      ensures var mid := StateBefore(rules, steps, claimed, items, k);
              !(Succeeds(src, c)(mid, items[k]) && Fails(src, c)(mid, items[k]))
    {
      DoneIsNotFailed(src, StateBefore(rules, steps, claimed, items, k), items[k], c(items[k]));
    }
    CountsWithinBatch(rules, steps, Succeeds(src, c), Fails(src, c), claimed, items, |items|);
  }

  // ---- draining ----

  lemma SettleSettles(src: Source, policy: Policy, s: R.System, item: Item<Task>, code: string, terminal: bool,
                      c: Circumstances)
    requires !c.unrecorded
    ensures SettlesItem(policy.maxAttempts, s.rows,
                        After(Rules(src), s, SettleEvents(policy, item, code, terminal, c)).rows, item)
  {
    hide Rules, After, SettleEvents;
    SettleEffect(src, policy, s, item, code, terminal, c);
  }

  lemma RefusalIsNotStale(src: Source, rows: seq<Row<Task>>, item: Item<Task>)
    requires Held(rows, item) && IsSchemaTask(item.payload) && Prepare(src, rows, item).Err?
    ensures Prepare(src, rows, item).code != STALE
  {
    hide Extract;
    if item.payload.rawId in src.raws {
      var document := src.parse(src.raws[item.payload.rawId].payload);
      if Extract(src.codec, document).Err? {
        ExtractionFailuresAreTerminal(src.codec, document);
      }
    }
  }

  /** A held task that the transaction does not fail on is completed. */
  lemma ProcessSettles(src: Source, maxAttempts: nat, s: R.System, item: Item<Task>, at: int)
    requires Held(s.rows, item) && IsSchemaTask(item.payload)
    ensures Process(src, s.rows, s.registry, item, None, at).outcome.Failed?
            || SettlesItem(maxAttempts, s.rows, R.Next(src, s, R.ProcessTask(item, None, at)).rows, item)
  {
    hide Register, Prepare;
    if Prepare(src, s.rows, item).Err? {
      RefusalIsNotStale(src, s.rows, item);
    }
    assert Reclaimed(s.rows, item.id, None) == s.rows;
  }

  lemma ItemSettles(src: Source, policy: Policy, s: R.System, item: Item<Task>, c: Circumstances)
    requires c.takeover.None? && !c.unrecorded && IsSchemaTask(item.payload)
    ensures SettlesItem(policy.maxAttempts, s.rows, After(Rules(src), s, ItemEvents(src, policy, s, item, c)).rows,
                        item)
  {
    hide Process, R.Next, Rules, After, SettleEvents, Settled;
    if Held(s.rows, item) {
      if c.fault.Some? {
        SettleSettles(src, policy, s, item, c.fault.value, false, c);
      } else {
        var step := R.ProcessTask(item, None, c.at);
        var outcome := Process(src, s.rows, s.registry, item, None, c.at).outcome;
        OneStep(src, s, step);
        ProcessSettles(src, policy.maxAttempts, s, item, c.at);
        if outcome.Failed? {
          var terminal := outcome.code in TERMINAL_FAILURE_CODES;
          FailedIsUnchanged(src, s, step);
          AfterAppend(Rules(src), s, [step], SettleEvents(policy, item, outcome.code, terminal, c));
          SettleSettles(src, policy, s, item, outcome.code, terminal, c);
        }
      }
    }
  }

  lemma FailedIsUnchanged(src: Source, s: R.System, step: R.Event)
    requires step.ProcessTask? && Process(src, s.rows, s.registry, step.item, step.takeover, step.at).outcome.Failed?
    ensures R.Next(src, s, step) == s
  {
    hide Process;
    FailureChangesNothing(src, s, step.item, step.takeover, step.at);
  }

  lemma CycleIsRound(src: Source, policy: Policy, c: Item<Task> -> Circumstances, before: R.System, now: int,
                     leaseSeconds: int, limit: nat, locked: set<nat>, items: seq<Item<Task>>, es: seq<R.Event>)
    requires Undisturbed(c) && IsCycle(src, policy, c, before, now, leaseSeconds, limit, locked, items, es)
    ensures IsRound(Wanted(), policy.maxAttempts, before.rows, now, leaseSeconds, limit, locked, items,
                    After(Rules(src), before, es).rows)
  {
    hide IsClaim, BatchSteps, Rules, After, ItemEvents, SettlesItem, SettlesInTurn, IsRound, R.Next, R.Enabled,
         ClaimRows;
    var rules, steps, claimed := Rules(src), Steps(src, policy, c), Claimed(before, items, now);
    var claim := R.Claim(now, leaseSeconds, Ids(items));
    ClaimIsAllowed(src, before, now, leaseSeconds, limit, locked, items);
    OneStep(src, before, claim);
    AfterAppend(rules, before, [claim], BatchSteps(rules, steps, claimed, items, |items|));
    ClaimedItemsAreCurrent(before.rows, Wanted(), now, leaseSeconds, limit, locked, items, claimed.rows);
    forall k | 0 <= k < |items|
      ensures var mid := StateBefore(rules, steps, claimed, items, k);
              SettlesItem(policy.maxAttempts, mid.rows, After(rules, mid, steps(mid, items[k])).rows, items[k])
    {
      ItemSettles(src, policy, StateBefore(rules, steps, claimed, items, k), items[k], c(items[k]));
    }
    var ts := BatchSettles(rules, steps, (t: R.System) => t.rows, policy.maxAttempts, claimed, items);
    InTurnIsRound(Wanted(), policy.maxAttempts, before.rows, now, leaseSeconds, limit, locked, items, ts);
  }

  /** One cycle in a series: when it claims, what it meets with, and what it does. */
  datatype Cycle = Cycle(now: int, conditions: Item<Task> -> Circumstances, items: seq<Item<Task>>, es: seq<R.Event>)

  /** Undisturbed cycles with nothing in between, each late enough for every unfinished task. */
  ghost predicate LateCycles(src: Source, policy: Policy, leaseSeconds: int, limit: nat, ss: seq<R.System>,
                             cycles: seq<Cycle>) {
    && |ss| == |cycles| + 1
    && forall k :: 0 <= k < |cycles| ==>
      && Undisturbed(cycles[k].conditions)
      && IsCycle(src, policy, cycles[k].conditions, ss[k], cycles[k].now, leaseSeconds, limit, {}, cycles[k].items,
                 cycles[k].es)
      && ss[k + 1] == After(Rules(src), ss[k], cycles[k].es)
      && AllDue(Wanted(), ss[k].rows, cycles[k].now, leaseSeconds)
  }

  /** The schema tasks drain: after as many such cycles as the initial load, each is
      completed or given up, whatever fails in between. */
  lemma CyclesDrainTheTasks(src: Source, policy: Policy, leaseSeconds: int, limit: nat, ss: seq<R.System>,
                            cycles: seq<Cycle>)
    requires LateCycles(src, policy, leaseSeconds, limit, ss, cycles) && limit >= 1
    requires |cycles| >= Load(Wanted(), policy.maxAttempts, ss[0].rows)
    ensures var rows := ss[|cycles|].rows;
            forall i: nat :: i < |rows| && IsSchemaTask(rows[i].payload) ==> Terminal(rows[i].state)
  {
    hide IsCycle, IsRound, Load, AllDue, Undisturbed, Rules, After;
    var ts := seq(|ss|, k requires 0 <= k < |ss| => ss[k].rows);
    var rounds := seq(|cycles|, k requires 0 <= k < |cycles| => Round(cycles[k].now, cycles[k].items));
    forall k | 0 <= k < |cycles|
      ensures IsRound(Wanted(), policy.maxAttempts, ts[k], rounds[k].now, leaseSeconds, limit, {}, rounds[k].items,
                      ts[k + 1])
    {
      var c := cycles[k];
      CycleIsRound(src, policy, c.conditions, ss[k], c.now, leaseSeconds, limit, {}, c.items, c.es);
    }
    RoundsDrain(Wanted(), policy.maxAttempts, leaseSeconds, limit, ts, rounds);
    assert ts[|cycles|] == ss[|cycles|].rows;
    forall i: nat | i < |ts[|cycles|]| && IsSchemaTask(ts[|cycles|][i].payload)
      ensures Terminal(ts[|cycles|][i].state)
    {
      assert Wanted()(ts[|cycles|][i].payload);
    }
  }

  // ---- giving up and retrying ----

  /** A recorded failure changes its own row, as the policy says, and nothing else. */
  lemma SettleFails(src: Source, policy: Policy, s: R.System, item: Item<Task>, code: string, terminal: bool,
                    c: Circumstances)
    requires Current(s.rows, item) && !c.unrecorded
    ensures var after := After(Rules(src), s, SettleEvents(policy, item, code, terminal, c));
            && after.registry == s.registry && |after.rows| == |s.rows|
            && after.rows == s.rows[item.id := after.rows[item.id]]
            && FailsAs(policy, s.rows[item.id], terminal, code, c.failedAt, after.rows[item.id])
  {
    hide Rules, After, SettleEvents, FailsAs, Failure;
    SettleEffect(src, policy, s, item, code, terminal, c);
    FailureFails(policy, s.rows, item, terminal, code, c.failedAt, c.settledAt);
  }

  /** What becomes of a held task whose failure, if there is one, can be recorded: a fault is
      retried while attempts are left; a document that cannot be registered is given up at
      once; and otherwise the task is completed. */
  lemma ItemOutcome(src: Source, policy: Policy, s: R.System, item: Item<Task>, c: Circumstances)
    requires Held(s.rows, item) && IsSchemaTask(item.payload) && c.takeover.None? && !c.unrecorded
    ensures var after, prepared := After(Rules(src), s, ItemEvents(src, policy, s, item, c)),
            Prepare(src, s.rows, item);
            && |after.rows| == |s.rows| && after.rows == s.rows[item.id := after.rows[item.id]]
            && var before, row := s.rows[item.id], after.rows[item.id];
            match (c.fault, prepared)
            case (Some(fault), _) =>
              FailsAs(policy, before, false, fault, c.failedAt, row) && after.registry == s.registry
            case (None, Err(code)) =>
              FailsAs(policy, before, true, code, c.failedAt, row) && after.registry == s.registry
            case (None, Ok(_)) =>
              row == before.(state := Done, startedAt := None, error := None, doneAt := Some(c.at))
  {
    hide R.Next, Rules, After, SettleEvents, FailsAs, Register, Prepare;
    if c.fault.Some? {
      SettleFails(src, policy, s, item, c.fault.value, false, c);
    } else {
      var step := R.ProcessTask(item, None, c.at);
      OneStep(src, s, step);
      assert Reclaimed(s.rows, item.id, None) == s.rows;
      if Prepare(src, s.rows, item).Err? {
        var code := Prepare(src, s.rows, item).code;
        RefusalIsNotStale(src, s.rows, item);
        PermanentFailuresAreTerminal(src, s.rows, item);
        FailedIsUnchanged(src, s, step);
        AfterAppend(Rules(src), s, [step], SettleEvents(policy, item, code, true, c));
        SettleFails(src, policy, s, item, code, true, c);
      } else {
        CompletedRow(src, s, item, c.at);
      }
    }
  }

  lemma CompletedRow(src: Source, s: R.System, item: Item<Task>, at: int)
    requires Held(s.rows, item) && Prepare(src, s.rows, item).Ok?
    ensures var after, before := R.Next(src, s, R.ProcessTask(item, None, at)).rows, s.rows[item.id];
            after == s.rows[item.id := before.(state := Done, startedAt := None, error := None, doneAt := Some(at))]
  {
    hide Register, Prepare;
    assert Reclaimed(s.rows, item.id, None) == s.rows;
  }

  /** The step is one in which a worker settles a failure of its item. */
  ghost predicate WorkerSettles(policy: Policy, e: R.Event) {
    e.Settle? ==> exists code, terminal, c ::
      SettleEvents(policy, e.settled, code, terminal, c) == [e] && (terminal ==> code in TERMINAL_FAILURE_CODES)
  }

  lemma ItemsSettleAsWorkers(src: Source, policy: Policy, s: R.System, item: Item<Task>, c: Circumstances)
    ensures forall e :: e in ItemEvents(src, policy, s, item, c) ==> WorkerSettles(policy, e)
  {
    hide Process, Failure;
  }

  lemma WorkersKeepPolicy(src: Source, policy: Policy, s: R.System, e: R.Event)
    requires WorkerSettles(policy, e)
    ensures e.Settle? ==>
              LeaseRuns.ByPolicy(policy.maxAttempts, TERMINAL_FAILURE_CODES, RegistryLeases.LeaseEvent(src, s, e))
  {
  }

  /** In every run in which failures of a schema task are settled by its workers, the task is a
      dead letter only when its attempts are used up, or when the error it shows is one of a
      document that can never be registered. */
  lemma DeadLettersAreDeserved(src: Source, policy: Policy, ss: seq<R.System>, es: seq<R.Event>, k: nat, row: nat)
    requires R.IsRun(src, ss, es) && k <= |es| && row < |ss[k].rows|
    requires forall j :: 0 <= j < k && es[j].Settle? && es[j].settled.id == row ==> WorkerSettles(policy, es[j])
    ensures LeaseRuns.Deserved(policy.maxAttempts, TERMINAL_FAILURE_CODES, ss[k].rows[row])
  {
    hide R.IsRun, WorkerSettles, Prepare;
    RegistryLeases.RegistryIsLeaseRun(src, ss, es);
    var ts, les := RegistryLeases.Tasks(ss), RegistryLeases.LeaseEvents(src, ss, es);
    forall j | 0 <= j < k && les[j].Finalize? && les[j].item.id == row
      ensures LeaseRuns.ByPolicy(policy.maxAttempts, TERMINAL_FAILURE_CODES, les[j])
    {
      if es[j].Settle? {
        WorkersKeepPolicy(src, policy, ss[j], es[j]);
      }
    }
    LeaseRuns.DeadLettersAreDeserved(src.limit, policy.maxAttempts, TERMINAL_FAILURE_CODES, ts, les, k, row);
  }

  class SchemaObservationWorker {
    const service: SchemaObservationService
    const policy: Policy
    const batchSize: nat
    const leaseSeconds: int
    var processedCount: nat
    var failedCount: nat
    var lastErrorCode: Option<string>
    var lastSuccessfulCycleAt: Option<int>

    constructor (service: SchemaObservationService, policy: Policy, batchSize: nat, leaseSeconds: int)
      ensures this.service == service && this.policy == policy && this.batchSize == batchSize
              && this.leaseSeconds == leaseSeconds
      ensures processedCount == 0 && failedCount == 0 && lastErrorCode == None && lastSuccessfulCycleAt == None
    {
      this.service, this.policy, this.batchSize, this.leaseSeconds := service, policy, batchSize, leaseSeconds;
      processedCount, failedCount, lastErrorCode, lastSuccessfulCycleAt := 0, 0, None, None;
    }

    ghost function Now(): R.System
      reads this, service, service.tasks
    {
      R.System(service.tasks.rows, service.Tables())
    }

    /** Process the item; record a failure in a transaction of its own. */
    method ProcessItem(item: Item<Task>, c: Circumstances) returns (done: bool)
      modifies this`processedCount, this`failedCount, this`lastErrorCode, service, service.tasks
      ensures Now() == After(Rules(service.src), old(Now()), ItemEvents(service.src, policy, old(Now()), item, c))
      ensures done <==> ItemDone(service.src, old(Now()), item, c)
      ensures processedCount == old(processedCount) + (if done then 1 else 0)
      ensures failedCount == old(failedCount) + (if ItemFailed(service.src, old(Now()), item, c) then 1 else 0)
    {
      hide After, Process, SettleEvents, Rules;
      ghost var before := Now();
      if c.fault.Some? {
        FinalizeFailure(item, c.fault.value, false, c);
        return false;
      }
      ghost var step := R.ProcessTask(item, c.takeover, c.at);
      OneStep(service.src, before, step);
      FailureChangesNothing(service.src, before, item, c.takeover, c.at);
      var outcome := service.ProcessClaim(item, c.takeover, c.at);
      match outcome
      case Stale =>
        done := false;
      case Failed(code) =>
        AfterAppend(Rules(service.src), before, [step],
                    SettleEvents(policy, item, code, code in TERMINAL_FAILURE_CODES, c));
        FinalizeFailure(item, code, code in TERMINAL_FAILURE_CODES, c);
        done := false;
      case Processed(_) =>
        processedCount := processedCount + 1;
        done := true;
    }

    /** Send the task back for a retry, or give it up. */
    method FinalizeFailure(item: Item<Task>, code: string, terminal: bool, c: Circumstances)
      modifies this`failedCount, this`lastErrorCode, service.tasks
      ensures Now() == After(Rules(service.src), old(Now()), SettleEvents(policy, item, code, terminal, c))
      ensures var recorded := !c.unrecorded && Current(old(service.tasks.rows), item);
              && failedCount == old(failedCount) + (if recorded then 1 else 0)
              && lastErrorCode == if c.unrecorded then Some("database_error") else if recorded then Some(code)
                 else old(lastErrorCode)
      ensures Current(old(service.tasks.rows), item) && !c.unrecorded ==>
                && |service.tasks.rows| == |old(service.tasks.rows)|
                && service.tasks.rows == old(service.tasks.rows)[item.id := service.tasks.rows[item.id]]
                && FailsAs(policy, old(service.tasks.rows)[item.id], terminal, code, c.failedAt,
                           service.tasks.rows[item.id])
    {
      SettleEffect(service.src, policy, Now(), item, code, terminal, c);
      if Current(service.tasks.rows, item) && !c.unrecorded {
        SettleFails(service.src, policy, Now(), item, code, terminal, c);
      }
      var state := if terminal || item.attempts >= policy.maxAttempts then DeadLetter else Retryable;
      var when := if state.DeadLetter? then None
          else Some(c.failedAt + Seconds(Backoff(item.attempts, policy.base, policy.maximum)));
      if c.unrecorded {
        lastErrorCode := Some("database_error");
        return;
      }
      var finalized := service.tasks.Finalize(item, state, when, Some(code), c.settledAt);
      if finalized {
        failedCount := failedCount + 1;
        lastErrorCode := Some(code);
      }
    }

    /** Claim one batch of schema tasks and process item by item. */
    method RunOnce(now: int, locked: set<nat>, c: Item<Task> -> Circumstances, finishedAt: int)
      returns (completed: nat, ghost items: seq<Item<Task>>, ghost es: seq<R.Event>)
      modifies this, service, service.tasks
      ensures IsCycle(service.src, policy, c, old(Now()), now, leaseSeconds, batchSize, locked, items, es)
      ensures var rules, steps, claimed := Rules(service.src), Steps(service.src, policy, c),
              Claimed(old(Now()), items, now);
              && Now() == StateBefore(rules, steps, claimed, items, |items|)
              && completed == CountOf(rules, steps, Succeeds(service.src, c), claimed, items, |items|)
              && processedCount == old(processedCount) + completed
              && failedCount == old(failedCount) + CountOf(rules, steps, Fails(service.src, c), claimed, items, |items|)
      ensures lastSuccessfulCycleAt == Some(finishedAt)
    {
      hide StateBefore, BatchSteps, ItemEvents, ItemDone, ItemFailed, After, Rules, IsClaim, IsCycle, Claimed;
      var batch := service.tasks.Claim(SCHEMA_OBSERVATION_PROCESSOR_TYPE, SCHEMA_OBSERVATION_PROCESSOR_VERSION, now,
                                       batchSize, leaseSeconds, locked);
      ghost var rules, steps, claimed := Rules(service.src), Steps(service.src, policy, c), Now();
      ClaimStartsCycle(service.src, policy, c, old(Now()), claimed, now, leaseSeconds, batchSize, locked, batch);
      NoItemsYet(rules, steps, claimed, batch);
      completed := 0;
      for k := 0 to |batch|
        invariant Now() == StateBefore(rules, steps, claimed, batch, k)
        invariant completed == CountOf(rules, steps, Succeeds(service.src, c), claimed, batch, k)
        invariant processedCount == old(processedCount) + completed
        invariant failedCount == old(failedCount) + CountOf(rules, steps, Fails(service.src, c), claimed, batch, k)
      {
        OneMoreItem(rules, steps, claimed, batch, k);
        var done := ProcessItem(batch[k], c(batch[k]));
        if done {
          completed := completed + 1;
        }
      }
      items, es := batch, [R.Claim(now, leaseSeconds, Ids(batch))] + BatchSteps(rules, steps, claimed, batch, |batch|);
      lastSuccessfulCycleAt := Some(finishedAt);
    }
  }
}
