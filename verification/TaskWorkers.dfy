/** What the schema worker and the field projection worker share: the circumstances of an
    item, and the steps of a batch that is worked off item by item. */
module TaskWorkers {
  import opened Std
  import opened LeaseTable
  import opened Repositories
  import opened Draining

  /** What happens around one item: an error of the database or elsewhere that rolls the
      transaction back, another worker's claim, whether the failure can be recorded, and
      the clock. */
  datatype Circumstances = Circumstances(
    fault: Option<string>, takeover: Option<Takeover>, at: int, failedAt: int, unrecorded: bool, settledAt: int)

  /** Nobody else works on the tasks, and failures can be recorded. */
  ghost predicate Undisturbed(c: Item<Task> -> Circumstances) {
    forall item :: c(item).takeover.None? && !c(item).unrecorded
  }

  // ---- steps in a row ----

  /** How a system moves, and which steps it allows. */
  datatype Protocol<!S, !E> = Protocol(enabled: (S, E) -> bool, next: (S, E) -> S)

  ghost function After<S, E>(p: Protocol<S, E>, s: S, es: seq<E>): S
    decreases |es|
  {
    if es == [] then s else After(p, p.next(s, es[0]), es[1..])
  }

  /** Every step is one the protocol allows. */
  ghost predicate Allowed<S, E>(p: Protocol<S, E>, s: S, es: seq<E>)
    decreases |es|
  {
    es == [] || (p.enabled(s, es[0]) && Allowed(p, p.next(s, es[0]), es[1..]))
  }

  lemma {:induction false} AfterAppend<S, E>(p: Protocol<S, E>, s: S, a: seq<E>, b: seq<E>)
    ensures After(p, s, a + b) == After(p, After(p, s, a), b)
    ensures Allowed(p, s, a + b) <==> Allowed(p, s, a) && Allowed(p, After(p, s, a), b)
    decreases |a|
  {
    if a == [] {
      assert a + b == b;
    } else {
      assert (a + b)[1..] == a[1..] + b;
      AfterAppend(p, p.next(s, a[0]), a[1..], b);
    }
  }

  lemma StepsOne<S, E>(p: Protocol<S, E>, s: S, e: E)
    ensures After(p, s, [e]) == p.next(s, e)
    ensures Allowed(p, s, [e]) <==> p.enabled(s, e)
  {
  }

  // ---- a batch ----

  /** The steps of working off the first n items in turn, each from the state the ones before
      it have left. */
  ghost function BatchSteps<S, E, I>(p: Protocol<S, E>, steps: (S, I) -> seq<E>, s: S, items: seq<I>, n: nat): seq<E>
    requires n <= |items|
  {
    if n == 0 then []
    else
      var before := BatchSteps(p, steps, s, items, n - 1);
      before + steps(After(p, s, before), items[n - 1])
  }

  /** The state in which item n is met. */
  ghost function StateBefore<S, E, I>(p: Protocol<S, E>, steps: (S, I) -> seq<E>, s: S, items: seq<I>, n: nat): S
    requires n <= |items|
  {
    After(p, s, BatchSteps(p, steps, s, items, n))
  }

  /** Of how many of the first n items this holds when they are met. */
  ghost function CountOf<S, E, I>(p: Protocol<S, E>, steps: (S, I) -> seq<E>, holds: (S, I) -> bool, s: S,
                                  items: seq<I>, n: nat): nat
    requires n <= |items|
  {
    if n == 0 then 0
    else CountOf(p, steps, holds, s, items, n - 1) + if holds(StateBefore(p, steps, s, items, n - 1), items[n - 1])
        then 1 else 0
  }

  lemma NoItemsYet<S, E, I>(p: Protocol<S, E>, steps: (S, I) -> seq<E>, s: S, items: seq<I>)
    ensures StateBefore(p, steps, s, items, 0) == s
  {
  }

  lemma OneMoreItem<S, E, I>(p: Protocol<S, E>, steps: (S, I) -> seq<E>, s: S, items: seq<I>, n: nat)
    requires n < |items|
    ensures var mid := StateBefore(p, steps, s, items, n);
            StateBefore(p, steps, s, items, n + 1) == After(p, mid, steps(mid, items[n]))
  {
    var before := BatchSteps(p, steps, s, items, n);
    AfterAppend(p, s, before, steps(After(p, s, before), items[n]));
  }

  lemma AllowedSoFar<S, E, I>(p: Protocol<S, E>, steps: (S, I) -> seq<E>, s: S, items: seq<I>, n: nat)
    requires n < |items|
    requires Allowed(p, s, BatchSteps(p, steps, s, items, n))
    requires var mid := StateBefore(p, steps, s, items, n); Allowed(p, mid, steps(mid, items[n]))
    ensures Allowed(p, s, BatchSteps(p, steps, s, items, n + 1))
  {
    hide Allowed, After;
    var before := BatchSteps(p, steps, s, items, n);
    AfterAppend(p, s, before, steps(After(p, s, before), items[n]));
  }

  /** A batch takes only allowed steps when each item does, where in the batch it is met. */
  lemma {:induction false} BatchIsAllowed<S, E, I>(p: Protocol<S, E>, steps: (S, I) -> seq<E>, s: S, items: seq<I>,
                                                   n: nat)
    requires n <= |items|
    requires forall k :: 0 <= k < n ==> var mid := StateBefore(p, steps, s, items, k);
             Allowed(p, mid, steps(mid, items[k]))
    ensures Allowed(p, s, BatchSteps(p, steps, s, items, n))
  {
    hide StateBefore;
    if n > 0 {
      hide Allowed;
      BatchIsAllowed(p, steps, s, items, n - 1);
      AllowedSoFar(p, steps, s, items, n - 1);
    }
  }

  /** No item is counted under two headings that exclude each other. */
  lemma {:induction false} CountsWithinBatch<S, E, I>(p: Protocol<S, E>, steps: (S, I) -> seq<E>, a: (S, I) -> bool,
                                                      b: (S, I) -> bool, s: S, items: seq<I>, n: nat)
    requires n <= |items|
    requires forall k :: 0 <= k < n ==>
               !(a(StateBefore(p, steps, s, items, k), items[k]) && b(StateBefore(p, steps, s, items, k), items[k]))
    ensures CountOf(p, steps, a, s, items, n) + CountOf(p, steps, b, s, items, n) <= n
  {
    if n > 0 {
      CountsWithinBatch(p, steps, a, b, s, items, n - 1);
    }
  }

  // ---- what a batch does to the task table ----

  ghost predicate SamePayloads<P>(a: seq<Row<P>>, b: seq<Row<P>>) {
    |a| == |b| && forall i :: 0 <= i < |a| ==> b[i].payload == a[i].payload
  }

  /** No task becomes another when no item makes it one. */
  lemma {:induction false} BatchKeepsPayloads<S, E, I, P>(p: Protocol<S, E>, steps: (S, I) -> seq<E>,
                                                          rowsOf: S -> seq<Row<P>>, s: S, items: seq<I>, n: nat)
    requires n <= |items|
    requires forall k :: 0 <= k < n ==>
               var mid := StateBefore(p, steps, s, items, k);
                   SamePayloads(rowsOf(mid), rowsOf(After(p, mid, steps(mid, items[k]))))
    ensures SamePayloads(rowsOf(s), rowsOf(StateBefore(p, steps, s, items, n)))
  {
    hide StateBefore;
    NoItemsYet(p, steps, s, items);
    if n > 0 {
      BatchKeepsPayloads(p, steps, rowsOf, s, items, n - 1);
      OneMoreItem(p, steps, s, items, n - 1);
    }
  }

  /** The tables that a batch goes through. */
  lemma BatchSettles<S, E, P>(p: Protocol<S, E>, steps: (S, Item<P>) -> seq<E>, rowsOf: S -> seq<Row<P>>,
                              maxAttempts: nat, s: S, items: seq<Item<P>>) returns (ts: seq<seq<Row<P>>>)
    requires forall k :: 0 <= k < |items| ==>
               var mid := StateBefore(p, steps, s, items, k);
               SettlesItem(maxAttempts, rowsOf(mid), rowsOf(After(p, mid, steps(mid, items[k]))), items[k])
    ensures SettlesInTurn(maxAttempts, ts, items)
    ensures ts[0] == rowsOf(s) && ts[|items|] == rowsOf(StateBefore(p, steps, s, items, |items|))
  {
    hide StateBefore, SettlesItem;
    NoItemsYet(p, steps, s, items);
    ts := seq(|items| + 1, k requires 0 <= k <= |items| => rowsOf(StateBefore(p, steps, s, items, k)));
    forall k | 0 <= k < |items| ensures SettlesItem(maxAttempts, ts[k], ts[k + 1], items[k]) {
      OneMoreItem(p, steps, s, items, k);
    }
  }
}
