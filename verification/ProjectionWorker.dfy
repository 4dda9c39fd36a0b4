/** The field projection worker: its failure policy, and that it keeps to the pipeline's protocol. */
module ProjectionWorker {
  import opened Std
  import opened JsonValues
  import opened LeaseTable
  import opened Repositories
  import opened Storage
  import opened FieldValueExtraction
  import opened StreamCatalog
  import opened FieldProjection
  import opened Draining
  import opened TaskWorkers
  import R = PipelineRuns
  import PipelineLeases
  import LeaseRuns

  const TERMINAL_FAILURE_CODES := {
    "raw_observation_missing", "invalid_json", "root_not_object", "unsupported_persisted_input", "stream_missing",
    "field_depth_exceeded", "field_count_exceeded", "field_node_limit_exceeded", "field_path_too_long",
    "document_too_large", "non_finite_number"}

  lemma {:induction false} WalkFailuresAreTerminal(t: seq<Stop>, q: Tally)
    requires TakeStops(t, q).Err?
    ensures TakeStops(t, q).code in TERMINAL_FAILURE_CODES
    decreases |t|
  {
    if TakeStops(t[..|t| - 1], q).Err? {
      WalkFailuresAreTerminal(t[..|t| - 1], q);
    }
  }

  lemma ExtractionFailuresAreTerminal(size: nat, document: Option<Json>)
    requires ExtractValues(size, document).Err?
    ensures ExtractValues(size, document).code in TERMINAL_FAILURE_CODES
  {
    if document.Some? && document.value.JObject? && TakeStops(Stops(document.value, []), EMPTY_TALLY).Err? {
      WalkFailuresAreTerminal(Stops(document.value, []), EMPTY_TALLY);
    }
  }

  /** Whatever is wrong with a task or its payload itself is never retried. */
  lemma PermanentFailuresAreTerminal(p: Platform, t: Catalog, item: Item<Task>)
    requires Prepare(p, t, item).Err? && Prepare(p, t, item).code != STALE
    ensures Prepare(p, t, item).code in TERMINAL_FAILURE_CODES
  {
    hide ExtractValues;
    if item.payload.rawId < |t.raws| {
      var payload := t.raws[item.payload.rawId].payload;
      if ExtractValues(|payload|, p.parse(payload)).Err? {
        ExtractionFailuresAreTerminal(|payload|, p.parse(payload));
      }
    }
  }

  function SettleEvents(policy: Policy, item: Item<Task>, code: string, terminal: bool,
                        c: Circumstances): seq<R.Event> {
    if c.unrecorded then []
    else
      var d := Failure(policy, item.attempts, terminal, code, c.failedAt);
      [R.SettleTask(item, d.state, d.when, d.code, c.settledAt)]
  }

  /** The protocol steps of processing one item. */
  function ItemEvents(p: Platform, s: Settings, policy: Policy, t: Catalog, item: Item<Task>,
                      c: Circumstances): seq<R.Event> {
    if c.fault.Some? then SettleEvents(policy, item, c.fault.value, false, c)
    else
      var step := R.ProjectFields(item, c.takeover, c.at);
      match Project(p, s.futureSkewSeconds, t, item, c.takeover, c.at).outcome
      case Failed(code) => [step] + SettleEvents(policy, item, code, code in TERMINAL_FAILURE_CODES, c)
      case _ => [step]
  }

  /** The pipeline's protocol. */
  ghost function Rules(p: Platform, s: Settings): Protocol<Catalog, R.Event> {
    Protocol((t, e) => R.Enabled(s, t, e), (t, e) => R.Next(p, s, t, e))
  }

  lemma OneStep(p: Platform, s: Settings, t: Catalog, e: R.Event)
    ensures After(Rules(p, s), t, [e]) == R.Next(p, s, t, e)
    ensures Allowed(Rules(p, s), t, [e]) <==> R.Enabled(s, t, e)
  {
    hide R.Next, R.Enabled;
    StepsOne(Rules(p, s), t, e);
  }

  /** The item's task, if it is still there, is a field task, and the policy has their limit. */
  ghost predicate Governed(s: Settings, policy: Policy, rows: seq<Row<Task>>, item: Item<Task>) {
    policy.maxAttempts == s.projectionMaxAttempts && (item.id < |rows| ==> IsFieldTask(rows[item.id].payload))
  }

  lemma SettleIsAllowed(p: Platform, s: Settings, policy: Policy, t: Catalog, item: Item<Task>, code: string,
                        terminal: bool, c: Circumstances)
    requires Governed(s, policy, t.tasks, item)
    ensures Allowed(Rules(p, s), t, SettleEvents(policy, item, code, terminal, c))
  {
  }

  lemma SettleEffect(p: Platform, s: Settings, policy: Policy, t: Catalog, item: Item<Task>, code: string,
                     terminal: bool, c: Circumstances)
    ensures var after := After(Rules(p, s), t, SettleEvents(policy, item, code, terminal, c));
            && after == t.(tasks := after.tasks)
            && after.tasks
               == if c.unrecorded then t.tasks
                  else var d := Failure(policy, item.attempts, terminal, code, c.failedAt);
                       FinalizeRows(t.tasks, item, d.state, d.when, d.code, c.settledAt)
  {
  }

  lemma ProjectKeepsPayloads(p: Platform, s: Settings, t: Catalog, item: Item<Task>, takeover: Option<Takeover>,
                             at: int)
    ensures SamePayloads(t.tasks, R.Next(p, s, t, R.ProjectFields(item, takeover, at)).tasks)
  {
    hide PersistedAll, ExtractValues;
  }

  lemma ProjectIsAllowed(p: Platform, s: Settings, t: Catalog, step: R.Event)
    requires step.ProjectFields?
    ensures R.Enabled(s, t, step)
  {
  }

  lemma FailureChangesNothing(p: Platform, s: Settings, t: Catalog, item: Item<Task>, takeover: Option<Takeover>,
                              at: int)
    ensures Project(p, s.futureSkewSeconds, t, item, takeover, at).outcome.Failed? ==>
              Project(p, s.futureSkewSeconds, t, item, takeover, at).catalog == t
  {
    hide PersistedAll, ExtractValues;
  }

  /** Processing one item takes no step the pipeline does not allow, whatever goes wrong, and
      no task becomes another. */
  lemma ItemEventsAreAllowed(p: Platform, s: Settings, policy: Policy, t: Catalog, item: Item<Task>, c: Circumstances)
    ensures Governed(s, policy, t.tasks, item) ==> Allowed(Rules(p, s), t, ItemEvents(p, s, policy, t, item, c))
    ensures SamePayloads(t.tasks, After(Rules(p, s), t, ItemEvents(p, s, policy, t, item, c)).tasks)
  {
    hide Project, R.Next, R.Enabled, Rules, After, Allowed, SettleEvents;
    if c.fault.Some? {
      SettleEffect(p, s, policy, t, item, c.fault.value, false, c);
      if Governed(s, policy, t.tasks, item) {
        SettleIsAllowed(p, s, policy, t, item, c.fault.value, false, c);
      }
    } else {
      var step := R.ProjectFields(item, c.takeover, c.at);
      var outcome, next := Project(p, s.futureSkewSeconds, t, item, c.takeover, c.at).outcome, R.Next(p, s, t, step);
      OneStep(p, s, t, step);
      ProjectIsAllowed(p, s, t, step);
      ProjectKeepsPayloads(p, s, t, item, c.takeover, c.at);
      if outcome.Failed? {
        var terminal := outcome.code in TERMINAL_FAILURE_CODES;
        SettleEffect(p, s, policy, next, item, outcome.code, terminal, c);
        AfterAppend(Rules(p, s), t, [step], SettleEvents(policy, item, outcome.code, terminal, c));
        if Governed(s, policy, t.tasks, item) {
          SettleIsAllowed(p, s, policy, next, item, outcome.code, terminal, c);
        }
      }
    }
  }

  // ---- a cycle ----

  predicate ItemDone(p: Platform, s: Settings, t: Catalog, item: Item<Task>, c: Circumstances) {
    c.fault.None? && Project(p, s.futureSkewSeconds, t, item, c.takeover, c.at).outcome.Processed?
  }

  /** The item failed, and its failure could be recorded. */
  predicate ItemFailed(p: Platform, s: Settings, t: Catalog, item: Item<Task>, c: Circumstances) {
    && !c.unrecorded && Current(t.tasks, item)
    && (c.fault.Some? || Project(p, s.futureSkewSeconds, t, item, c.takeover, c.at).outcome.Failed?)
  }

  ghost function Steps(p: Platform, s: Settings, policy: Policy, c: Item<Task> -> Circumstances)
    : (Catalog, Item<Task>) -> seq<R.Event>
  {
    (t, item) => ItemEvents(p, s, policy, t, item, c(item))
  }

  ghost function Succeeds(p: Platform, s: Settings, c: Item<Task> -> Circumstances): (Catalog, Item<Task>) -> bool {
    (t, item) => ItemDone(p, s, t, item, c(item))
  }

  ghost function Fails(p: Platform, s: Settings, c: Item<Task> -> Circumstances): (Catalog, Item<Task>) -> bool {
    (t, item) => ItemFailed(p, s, t, item, c(item))
  }

  function Wanted(): Task -> bool { OfProcessor(FIELD_PROJECTION_PROCESSOR_TYPE, FIELD_PROJECTION_PROCESSOR_VERSION) }

  ghost function Claimed(before: Catalog, items: seq<Item<Task>>, now: int): Catalog {
    before.(tasks := ClaimRows(before.tasks, Ids(items), now))
  }

  /** One cycle: the items answer a claim of field tasks, and the steps are that claim and
      then the processing of each item in turn. */
  ghost predicate IsCycle(p: Platform, s: Settings, policy: Policy, c: Item<Task> -> Circumstances, before: Catalog,
                          now: int, leaseSeconds: int, limit: nat, locked: set<nat>, items: seq<Item<Task>>,
                          es: seq<R.Event>) {
    var claimed := Claimed(before, items, now);
    && IsClaim(before.tasks, Wanted(), now, leaseSeconds, limit, locked, items, claimed.tasks)
    && es == [R.ClaimTasks(now, leaseSeconds, Ids(items))]
       + BatchSteps(Rules(p, s), Steps(p, s, policy, c), claimed, items, |items|)
  }

  lemma ClaimStartsCycle(p: Platform, s: Settings, policy: Policy, c: Item<Task> -> Circumstances, before: Catalog,
                         after: Catalog, now: int, leaseSeconds: int, limit: nat, locked: set<nat>,
                         items: seq<Item<Task>>)
    requires IsClaim(before.tasks, Wanted(), now, leaseSeconds, limit, locked, items, after.tasks)
    requires after == before.(tasks := after.tasks)
    ensures after == Claimed(before, items, now)
    ensures IsCycle(p, s, policy, c, before, now, leaseSeconds, limit, locked, items,
                    [R.ClaimTasks(now, leaseSeconds, Ids(items))]
                        + BatchSteps(Rules(p, s), Steps(p, s, policy, c), after, items, |items|))
  {
    hide BatchSteps, ClaimRows, Rules, Steps;
  }

  lemma ClaimIsAllowed(p: Platform, s: Settings, t: Catalog, now: int, leaseSeconds: int, limit: nat,
                       locked: set<nat>, items: seq<Item<Task>>)
    requires IsClaim(t.tasks, Wanted(), now, leaseSeconds, limit, locked, items, Claimed(t, items, now).tasks)
    ensures var claim := R.ClaimTasks(now, leaseSeconds, Ids(items));
            R.Enabled(s, t, claim) && R.Next(p, s, t, claim) == Claimed(t, items, now)
    ensures |items| <= limit
  {
    hide Eligible;
    SelectionIsExact(t.tasks, Wanted(), now, leaseSeconds, limit, locked, Ids(items));
  }

  lemma ClaimedAreGoverned(s: Settings, policy: Policy, t: Catalog, now: int, leaseSeconds: int, limit: nat,
                           locked: set<nat>, items: seq<Item<Task>>)
    requires IsClaim(t.tasks, Wanted(), now, leaseSeconds, limit, locked, items, Claimed(t, items, now).tasks)
    requires policy.maxAttempts == s.projectionMaxAttempts
    ensures forall k :: 0 <= k < |items| ==> Governed(s, policy, Claimed(t, items, now).tasks, items[k])
  {
    hide IsClaim;
    ClaimedItemsAreCurrent(t.tasks, Wanted(), now, leaseSeconds, limit, locked, items, Claimed(t, items, now).tasks);
  }

  /** The items keep their tasks. */
  lemma TasksStay(p: Platform, s: Settings, policy: Policy, t: Catalog, items: seq<Item<Task>>, n: nat,
                  c: Item<Task> -> Circumstances)
    requires n <= |items|
    ensures SamePayloads(t.tasks, StateBefore(Rules(p, s), Steps(p, s, policy, c), t, items, n).tasks)
  {
    hide StateBefore, After, ItemEvents, Rules;
    var rules, steps := Rules(p, s), Steps(p, s, policy, c);
    forall k | 0 <= k < n
      ensures var mid := StateBefore(rules, steps, t, items, k);
              SamePayloads(mid.tasks, After(rules, mid, steps(mid, items[k])).tasks)
    {
      ItemEventsAreAllowed(p, s, policy, StateBefore(rules, steps, t, items, k), items[k], c(items[k]));
    }
    BatchKeepsPayloads(rules, steps, (u: Catalog) => u.tasks, t, items, n);
  }

  lemma ItemsAreAllowed(p: Platform, s: Settings, policy: Policy, t: Catalog, items: seq<Item<Task>>,
                        c: Item<Task> -> Circumstances)
    requires forall k :: 0 <= k < |items| ==> Governed(s, policy, t.tasks, items[k])
    ensures Allowed(Rules(p, s), t, BatchSteps(Rules(p, s), Steps(p, s, policy, c), t, items, |items|))
  {
    hide StateBefore, After, Allowed, ItemEvents, Rules, BatchSteps;
    var rules, steps := Rules(p, s), Steps(p, s, policy, c);
    forall k | 0 <= k < |items|
      ensures var mid := StateBefore(rules, steps, t, items, k); Allowed(rules, mid, steps(mid, items[k]))
    {
      var mid := StateBefore(rules, steps, t, items, k);
      TasksStay(p, s, policy, t, items, k, c);
      assert Governed(s, policy, t.tasks, items[k]);
      ItemEventsAreAllowed(p, s, policy, mid, items[k], c(items[k]));
    }
    BatchIsAllowed(rules, steps, t, items, |items|);
  }

  lemma DoneIsNotFailed(p: Platform, s: Settings, t: Catalog, item: Item<Task>, c: Circumstances)
    ensures !(ItemDone(p, s, t, item, c) && ItemFailed(p, s, t, item, c))
  {
    hide Project;
  }

  /** A cycle takes only steps that the pipeline allows, whatever goes wrong, and its
      successes and recorded failures stay within the batch. */
  lemma CycleIsAllowed(p: Platform, s: Settings, policy: Policy, c: Item<Task> -> Circumstances, before: Catalog,
                       now: int, leaseSeconds: int, limit: nat, locked: set<nat>, items: seq<Item<Task>>,
                       es: seq<R.Event>)
    requires policy.maxAttempts == s.projectionMaxAttempts
    requires IsCycle(p, s, policy, c, before, now, leaseSeconds, limit, locked, items, es)
    ensures Allowed(Rules(p, s), before, es)
    ensures var rules, steps, claimed := Rules(p, s), Steps(p, s, policy, c), Claimed(before, items, now);
            && After(rules, before, es) == StateBefore(rules, steps, claimed, items, |items|)
            && CountOf(rules, steps, Succeeds(p, s, c), claimed, items, |items|)
               + CountOf(rules, steps, Fails(p, s, c), claimed, items, |items|)
               <= |items| <= limit
  {
    hide R.Next, R.Enabled, Governed, BatchSteps, CountOf, IsClaim, Rules, After, Allowed, ItemDone, ItemFailed,
         ItemEvents;
    var rules, steps, claimed := Rules(p, s), Steps(p, s, policy, c), Claimed(before, items, now);
    var claim := R.ClaimTasks(now, leaseSeconds, Ids(items));
    ClaimIsAllowed(p, s, before, now, leaseSeconds, limit, locked, items);
    ClaimedAreGoverned(s, policy, before, now, leaseSeconds, limit, locked, items);
    OneStep(p, s, before, claim);
    ItemsAreAllowed(p, s, policy, claimed, items, c);
    AfterAppend(rules, before, [claim], BatchSteps(rules, steps, claimed, items, |items|));
    forall k | 0 <= k < |items|
      ensures var mid := StateBefore(rules, steps, claimed, items, k);
              !(Succeeds(p, s, c)(mid, items[k]) && Fails(p, s, c)(mid, items[k]))
    {
      DoneIsNotFailed(p, s, StateBefore(rules, steps, claimed, items, k), items[k], c(items[k]));
    }
    CountsWithinBatch(rules, steps, Succeeds(p, s, c), Fails(p, s, c), claimed, items, |items|);
  }

  // ---- draining ----

  lemma SettleSettles(p: Platform, s: Settings, policy: Policy, t: Catalog, item: Item<Task>, code: string,
                      terminal: bool, c: Circumstances)
    requires !c.unrecorded
    ensures SettlesItem(policy.maxAttempts, t.tasks,
                        After(Rules(p, s), t, SettleEvents(policy, item, code, terminal, c)).tasks, item)
  {
    hide Rules, After, SettleEvents;
    SettleEffect(p, s, policy, t, item, code, terminal, c);
  }

  lemma RefusalIsNotStale(p: Platform, t: Catalog, item: Item<Task>)
    requires Held(t.tasks, item) && IsFieldTask(item.payload) && Prepare(p, t, item).Err?
    ensures Prepare(p, t, item).code != STALE
  {
    hide ExtractValues;
    if item.payload.rawId < |t.raws| {
      var payload := t.raws[item.payload.rawId].payload;
      if ExtractValues(|payload|, p.parse(payload)).Err? {
        ExtractionFailuresAreTerminal(|payload|, p.parse(payload));
      }
    }
  }

  /** A held task that the transaction does not fail on is completed. */
  lemma ProjectSettles(p: Platform, s: Settings, maxAttempts: nat, t: Catalog, item: Item<Task>, at: int)
    requires Held(t.tasks, item) && IsFieldTask(item.payload)
    ensures Project(p, s.futureSkewSeconds, t, item, None, at).outcome.Failed?
            || SettlesItem(maxAttempts, t.tasks, R.Next(p, s, t, R.ProjectFields(item, None, at)).tasks, item)
  {
    hide PersistedAll, Prepare;
    if Prepare(p, t, item).Err? {
      RefusalIsNotStale(p, t, item);
    }
    assert Reclaimed(t.tasks, item.id, None) == t.tasks;
  }

  lemma FailedIsUnchanged(p: Platform, s: Settings, t: Catalog, step: R.Event)
    requires step.ProjectFields?
             && Project(p, s.futureSkewSeconds, t, step.item, step.takeover, step.at).outcome.Failed?
    ensures R.Next(p, s, t, step) == t
  {
    hide Project;
    FailureChangesNothing(p, s, t, step.item, step.takeover, step.at);
  }

  lemma ItemSettles(p: Platform, s: Settings, policy: Policy, t: Catalog, item: Item<Task>, c: Circumstances)
    requires c.takeover.None? && !c.unrecorded && IsFieldTask(item.payload)
    ensures SettlesItem(policy.maxAttempts, t.tasks,
                        After(Rules(p, s), t, ItemEvents(p, s, policy, t, item, c)).tasks, item)
  {
    hide Project, R.Next, Rules, After, SettleEvents, Settled;
    if Held(t.tasks, item) {
      if c.fault.Some? {
        SettleSettles(p, s, policy, t, item, c.fault.value, false, c);
      } else {
        var step := R.ProjectFields(item, None, c.at);
        var outcome := Project(p, s.futureSkewSeconds, t, item, None, c.at).outcome;
        OneStep(p, s, t, step);
        ProjectSettles(p, s, policy.maxAttempts, t, item, c.at);
        if outcome.Failed? {
          var terminal := outcome.code in TERMINAL_FAILURE_CODES;
          FailedIsUnchanged(p, s, t, step);
          AfterAppend(Rules(p, s), t, [step], SettleEvents(policy, item, outcome.code, terminal, c));
          SettleSettles(p, s, policy, t, item, outcome.code, terminal, c);
        }
      }
    }
  }

  lemma CycleIsRound(p: Platform, s: Settings, policy: Policy, c: Item<Task> -> Circumstances, before: Catalog,
                     now: int, leaseSeconds: int, limit: nat, locked: set<nat>, items: seq<Item<Task>>,
                     es: seq<R.Event>)
    requires Undisturbed(c) && IsCycle(p, s, policy, c, before, now, leaseSeconds, limit, locked, items, es)
    ensures IsRound(Wanted(), policy.maxAttempts, before.tasks, now, leaseSeconds, limit, locked, items,
                    After(Rules(p, s), before, es).tasks)
  {
    hide IsClaim, BatchSteps, Rules, After, ItemEvents, SettlesItem, SettlesInTurn, IsRound, R.Next, R.Enabled,
         ClaimRows;
    var rules, steps, claimed := Rules(p, s), Steps(p, s, policy, c), Claimed(before, items, now);
    var claim := R.ClaimTasks(now, leaseSeconds, Ids(items));
    ClaimIsAllowed(p, s, before, now, leaseSeconds, limit, locked, items);
    OneStep(p, s, before, claim);
    AfterAppend(rules, before, [claim], BatchSteps(rules, steps, claimed, items, |items|));
    ClaimedItemsAreCurrent(before.tasks, Wanted(), now, leaseSeconds, limit, locked, items, claimed.tasks);
    forall k | 0 <= k < |items|
      ensures var mid := StateBefore(rules, steps, claimed, items, k);
              SettlesItem(policy.maxAttempts, mid.tasks, After(rules, mid, steps(mid, items[k])).tasks, items[k])
    {
      ItemSettles(p, s, policy, StateBefore(rules, steps, claimed, items, k), items[k], c(items[k]));
    }
    var ts := BatchSettles(rules, steps, (u: Catalog) => u.tasks, policy.maxAttempts, claimed, items);
    InTurnIsRound(Wanted(), policy.maxAttempts, before.tasks, now, leaseSeconds, limit, locked, items, ts);
  }

  /** One cycle in a series: when it claims, what it meets with, and what it does. */
  datatype Cycle = Cycle(now: int, conditions: Item<Task> -> Circumstances, items: seq<Item<Task>>, es: seq<R.Event>)

  /** Undisturbed cycles with nothing in between, each late enough for every unfinished task. */
  ghost predicate LateCycles(p: Platform, s: Settings, policy: Policy, leaseSeconds: int, limit: nat,
                             ts: seq<Catalog>, cycles: seq<Cycle>) {
    && |ts| == |cycles| + 1
    && forall k :: 0 <= k < |cycles| ==>
      && Undisturbed(cycles[k].conditions)
      && IsCycle(p, s, policy, cycles[k].conditions, ts[k], cycles[k].now, leaseSeconds, limit, {}, cycles[k].items,
                 cycles[k].es)
      && ts[k + 1] == After(Rules(p, s), ts[k], cycles[k].es)
      && AllDue(Wanted(), ts[k].tasks, cycles[k].now, leaseSeconds)
  }

  /** The field tasks drain: after as many such cycles as the initial load, each is completed
      or given up, whatever fails in between. */
  lemma CyclesDrainTheTasks(p: Platform, s: Settings, policy: Policy, leaseSeconds: int, limit: nat, ts: seq<Catalog>,
                            cycles: seq<Cycle>)
    requires LateCycles(p, s, policy, leaseSeconds, limit, ts, cycles) && limit >= 1
    requires |cycles| >= Load(Wanted(), policy.maxAttempts, ts[0].tasks)
    ensures var rows := ts[|cycles|].tasks;
            forall i: nat :: i < |rows| && IsFieldTask(rows[i].payload) ==> Terminal(rows[i].state)
  {
    hide IsCycle, IsRound, Load, AllDue, Undisturbed, Rules, After;
    var tables := seq(|ts|, k requires 0 <= k < |ts| => ts[k].tasks);
    var rounds := seq(|cycles|, k requires 0 <= k < |cycles| => Round(cycles[k].now, cycles[k].items));
    forall k | 0 <= k < |cycles|
      ensures IsRound(Wanted(), policy.maxAttempts, tables[k], rounds[k].now, leaseSeconds, limit, {},
                      rounds[k].items, tables[k + 1])
    {
      var c := cycles[k];
      CycleIsRound(p, s, policy, c.conditions, ts[k], c.now, leaseSeconds, limit, {}, c.items, c.es);
    }
    RoundsDrain(Wanted(), policy.maxAttempts, leaseSeconds, limit, tables, rounds);
    assert tables[|cycles|] == ts[|cycles|].tasks;
    forall i: nat | i < |tables[|cycles|]| && IsFieldTask(tables[|cycles|][i].payload)
      ensures Terminal(tables[|cycles|][i].state)
    {
      assert Wanted()(tables[|cycles|][i].payload);
    }
  }

  // ---- giving up and retrying ----

  /** A recorded failure changes its own row, as the policy says, and nothing else. */
  lemma SettleFails(p: Platform, s: Settings, policy: Policy, t: Catalog, item: Item<Task>, code: string,
                    terminal: bool, c: Circumstances)
    requires Current(t.tasks, item) && !c.unrecorded
    ensures var after := After(Rules(p, s), t, SettleEvents(policy, item, code, terminal, c));
            && after == t.(tasks := after.tasks) && |after.tasks| == |t.tasks|
            && after.tasks == t.tasks[item.id := after.tasks[item.id]]
            && FailsAs(policy, t.tasks[item.id], terminal, code, c.failedAt, after.tasks[item.id])
  {
    hide Rules, After, SettleEvents, FailsAs, Failure;
    SettleEffect(p, s, policy, t, item, code, terminal, c);
    FailureFails(policy, t.tasks, item, terminal, code, c.failedAt, c.settledAt);
  }

  /** What becomes of a held task whose failure, if there is one, can be recorded: a fault is
      retried while attempts are left; a payload that cannot be projected is given up at
      once; and otherwise the task is completed. */
  lemma ItemOutcome(p: Platform, s: Settings, policy: Policy, t: Catalog, item: Item<Task>, c: Circumstances)
    requires Held(t.tasks, item) && IsFieldTask(item.payload) && c.takeover.None? && !c.unrecorded
    ensures var after, prepared := After(Rules(p, s), t, ItemEvents(p, s, policy, t, item, c)), Prepare(p, t, item);
            && |after.tasks| == |t.tasks| && after.tasks == t.tasks[item.id := after.tasks[item.id]]
            && var before, row := t.tasks[item.id], after.tasks[item.id];
            match (c.fault, prepared)
            case (Some(fault), _) =>
              FailsAs(policy, before, false, fault, c.failedAt, row) && after.outbox == t.outbox
            case (None, Err(code)) =>
              FailsAs(policy, before, true, code, c.failedAt, row) && after.outbox == t.outbox
            case (None, Ok(_)) =>
              row == before.(state := Done, startedAt := None, error := None, doneAt := Some(c.at))
  {
    hide R.Next, Rules, After, SettleEvents, FailsAs, PersistedAll, Prepare;
    if c.fault.Some? {
      SettleFails(p, s, policy, t, item, c.fault.value, false, c);
    } else {
      var step := R.ProjectFields(item, None, c.at);
      OneStep(p, s, t, step);
      assert Reclaimed(t.tasks, item.id, None) == t.tasks;
      if Prepare(p, t, item).Err? {
        var code := Prepare(p, t, item).code;
        RefusalIsNotStale(p, t, item);
        PermanentFailuresAreTerminal(p, t, item);
        FailedIsUnchanged(p, s, t, step);
        AfterAppend(Rules(p, s), t, [step], SettleEvents(policy, item, code, true, c));
        SettleFails(p, s, policy, t, item, code, true, c);
      } else {
        CompletedRow(p, s, t, item, c.at);
      }
    }
  }

  lemma CompletedRow(p: Platform, s: Settings, t: Catalog, item: Item<Task>, at: int)
    requires Held(t.tasks, item) && Prepare(p, t, item).Ok?
    ensures var after, before := R.Next(p, s, t, R.ProjectFields(item, None, at)).tasks, t.tasks[item.id];
            after == t.tasks[item.id := before.(state := Done, startedAt := None, error := None, doneAt := Some(at))]
  {
    hide PersistedAll, Prepare;
    assert Reclaimed(t.tasks, item.id, None) == t.tasks;
  }

  /** The step is one in which a worker settles a failure of its item. */
  ghost predicate WorkerSettles(policy: Policy, e: R.Event) {
    e.SettleTask? ==> exists code, terminal, c ::
      SettleEvents(policy, e.settled, code, terminal, c) == [e] && (terminal ==> code in TERMINAL_FAILURE_CODES)
  }

  lemma ItemsSettleAsWorkers(p: Platform, s: Settings, policy: Policy, t: Catalog, item: Item<Task>, c: Circumstances)
    ensures forall e :: e in ItemEvents(p, s, policy, t, item, c) ==> WorkerSettles(policy, e)
  {
    hide Project, Failure;
  }

  lemma WorkersKeepPolicy(p: Platform, s: Settings, policy: Policy, t: Catalog, e: R.Event)
    requires WorkerSettles(policy, e)
    ensures e.SettleTask? ==>
              LeaseRuns.ByPolicy(policy.maxAttempts, TERMINAL_FAILURE_CODES, PipelineLeases.TaskEvent(p, s, t, e))
  {
  }

  /** In every run in which failures of a field task are settled by its workers, the task is a
      dead letter only when its attempts are used up, or when the error it shows is one of a
      payload that can never be projected. */
  lemma DeadLettersAreDeserved(p: Platform, s: Settings, policy: Policy, ts: seq<Catalog>, es: seq<R.Event>, k: nat,
                               row: nat)
    requires R.IsRun(p, s, ts, es) && k <= |es| && row < |ts[k].tasks|
    requires forall j :: 0 <= j < k && es[j].SettleTask? && es[j].settled.id == row ==> WorkerSettles(policy, es[j])
    ensures LeaseRuns.Deserved(policy.maxAttempts, TERMINAL_FAILURE_CODES, ts[k].tasks[row])
  {
    hide R.IsRun, R.Next, WorkerSettles, Prepare;
    PipelineLeases.PipelineIsLeaseRun(p, s, ts, es);
    var rows, les := PipelineLeases.TaskTables(ts), PipelineLeases.TaskEvents(p, s, ts, es);
    forall j | 0 <= j < k && les[j].Finalize? && les[j].item.id == row
      ensures LeaseRuns.ByPolicy(policy.maxAttempts, TERMINAL_FAILURE_CODES, les[j])
    {
      if es[j].SettleTask? {
        WorkersKeepPolicy(p, s, policy, ts[j], es[j]);
      }
    }
    LeaseRuns.DeadLettersAreDeserved(R.TaskLimit(s), policy.maxAttempts, TERMINAL_FAILURE_CODES, rows, les, k, row);
  }

  class FieldProjectionWorker {
    const p: Platform
    const settings: Settings
    const session: Database
    const service: FieldProjectionService
    const policy: Policy
    const batchSize: nat
    const leaseSeconds: int
    var processedCount: nat
    var failedCount: nat
    var lastErrorCode: Option<string>
    var lastSuccessfulCycleAt: Option<int>

    constructor (p: Platform, settings: Settings, session: Database, policy: Policy, batchSize: nat, leaseSeconds: int)
      ensures Wired() && fresh(service) && this.p == p && this.settings == settings && this.session == session
      ensures this.policy == policy && this.batchSize == batchSize && this.leaseSeconds == leaseSeconds
      ensures processedCount == 0 && failedCount == 0 && lastErrorCode == None && lastSuccessfulCycleAt == None
    {
      var made := new FieldProjectionService(p, settings.futureSkewSeconds, session);
      this.p, this.settings, this.session, this.service := p, settings, session, made;
      this.policy, this.batchSize, this.leaseSeconds := policy, batchSize, leaseSeconds;
      processedCount, failedCount, lastErrorCode, lastSuccessfulCycleAt := 0, 0, None, None;
    }

    ghost predicate Wired() {
      service.p == p && service.skewSeconds == settings.futureSkewSeconds && service.session == session
    }

    /** Project the item; record a failure in a transaction of its own. */
    method ProcessItem(item: Item<Task>, c: Circumstances) returns (done: bool)
      requires Wired()
      modifies this`processedCount, this`failedCount, this`lastErrorCode, session.tasks, session.outbox
      ensures session.Tables()
              == After(Rules(p, settings), old(session.Tables()),
                       ItemEvents(p, settings, policy, old(session.Tables()), item, c))
      ensures done <==> ItemDone(p, settings, old(session.Tables()), item, c)
      ensures processedCount == old(processedCount) + (if done then 1 else 0)
      ensures failedCount == old(failedCount)
              + (if ItemFailed(p, settings, old(session.Tables()), item, c) then 1 else 0)
    {
      hide After, Project, SettleEvents, Rules;
      ghost var before := session.Tables();
      if c.fault.Some? {
        FinalizeFailure(item, c.fault.value, false, c);
        return false;
      }
      ghost var step := R.ProjectFields(item, c.takeover, c.at);
      OneStep(p, settings, before, step);
      FailureChangesNothing(p, settings, before, item, c.takeover, c.at);
      var outcome := service.ProcessClaim(item, c.takeover, c.at);
      match outcome
      case Stale =>
        done := false;
      case Failed(code) =>
        AfterAppend(Rules(p, settings), before, [step],
                    SettleEvents(policy, item, code, code in TERMINAL_FAILURE_CODES, c));
        FinalizeFailure(item, code, code in TERMINAL_FAILURE_CODES, c);
        done := false;
      case Processed(_) =>
        processedCount := processedCount + 1;
        done := true;
    }

    /** Send the task back for a retry, or give it up. */
    method FinalizeFailure(item: Item<Task>, code: string, terminal: bool, c: Circumstances)
      modifies this`failedCount, this`lastErrorCode, session.tasks
      ensures session.Tables()
              == After(Rules(p, settings), old(session.Tables()), SettleEvents(policy, item, code, terminal, c))
      ensures var recorded := !c.unrecorded && Current(old(session.tasks.rows), item);
              && failedCount == old(failedCount) + (if recorded then 1 else 0)
              && lastErrorCode == if c.unrecorded then Some("database_error") else if recorded then Some(code)
                 else old(lastErrorCode)
      ensures Current(old(session.tasks.rows), item) && !c.unrecorded ==>
                && |session.tasks.rows| == |old(session.tasks.rows)|
                && session.tasks.rows == old(session.tasks.rows)[item.id := session.tasks.rows[item.id]]
                && FailsAs(policy, old(session.tasks.rows)[item.id], terminal, code, c.failedAt,
                           session.tasks.rows[item.id])
    {
      SettleEffect(p, settings, policy, session.Tables(), item, code, terminal, c);
      if Current(session.tasks.rows, item) && !c.unrecorded {
        SettleFails(p, settings, policy, session.Tables(), item, code, terminal, c);
      }
      var state := if terminal || item.attempts >= policy.maxAttempts then DeadLetter else Retryable;
      var when := if state.DeadLetter? then None
          else Some(c.failedAt + Seconds(Backoff(item.attempts, policy.base, policy.maximum)));
      if c.unrecorded {
        lastErrorCode := Some("database_error");
        return;
      }
      var finalized := session.tasks.Finalize(item, state, when, Some(code), c.settledAt);
      if finalized {
        failedCount := failedCount + 1;
        lastErrorCode := Some(code);
      }
    }

    /** Claim one batch of field tasks and process item by item. */
    method RunOnce(now: int, locked: set<nat>, c: Item<Task> -> Circumstances, finishedAt: int)
      returns (completed: nat, ghost items: seq<Item<Task>>, ghost es: seq<R.Event>)
      requires Wired()
      modifies this, session.tasks, session.outbox
      ensures IsCycle(p, settings, policy, c, old(session.Tables()), now, leaseSeconds, batchSize, locked, items, es)
      ensures var rules, steps, claimed := Rules(p, settings), Steps(p, settings, policy, c),
              Claimed(old(session.Tables()), items, now);
              && session.Tables() == StateBefore(rules, steps, claimed, items, |items|)
              && completed == CountOf(rules, steps, Succeeds(p, settings, c), claimed, items, |items|)
              && processedCount == old(processedCount) + completed
              && failedCount == old(failedCount) + CountOf(rules, steps, Fails(p, settings, c), claimed, items, |items|)
      ensures lastSuccessfulCycleAt == Some(finishedAt)
    {
      hide StateBefore, BatchSteps, ItemEvents, ItemDone, ItemFailed, After, Rules, IsClaim, IsCycle, Claimed;
      var batch := session.tasks.Claim(FIELD_PROJECTION_PROCESSOR_TYPE, FIELD_PROJECTION_PROCESSOR_VERSION, now,
                                       batchSize, leaseSeconds, locked);
      ghost var rules, steps, claimed := Rules(p, settings), Steps(p, settings, policy, c), session.Tables();
      ClaimStartsCycle(p, settings, policy, c, old(session.Tables()), claimed, now, leaseSeconds, batchSize, locked,
                       batch);
      NoItemsYet(rules, steps, claimed, batch);
      completed := 0;
      for k := 0 to |batch|
        invariant session.Tables() == StateBefore(rules, steps, claimed, batch, k)
        invariant completed == CountOf(rules, steps, Succeeds(p, settings, c), claimed, batch, k)
        invariant processedCount == old(processedCount) + completed
        invariant failedCount == old(failedCount) + CountOf(rules, steps, Fails(p, settings, c), claimed, batch, k)
      {
        OneMoreItem(rules, steps, claimed, batch, k);
        var done := ProcessItem(batch[k], c(batch[k]));
        if done {
          completed := completed + 1;
        }
      }
      items, es := batch, [R.ClaimTasks(now, leaseSeconds, Ids(batch))]
          + BatchSteps(rules, steps, claimed, batch, |batch|);
      lastSuccessfulCycleAt := Some(finishedAt);
    }
  }
}
