/** The work table that the outbox and the processing tasks share: rows that are claimed
    under a lease, worked on outside any lock, and finalized by an optimistic token.
    A row's identifier is its position; rows are only ever appended. Times are
    microseconds in UTC, and every operation is given its own reading of the clock. */
module LeaseTable {
  import opened Std
  import opened Ordering

  datatype State = Pending | Processing | Done | Retryable | DeadLetter

  datatype Row<P> = Row(
    payload: P, state: State, attempts: nat, availableAt: int,
    startedAt: Option<int>, doneAt: Option<int>, error: Option<string>)

  /** What a claim hands to a worker; (id, attempts, startedAt) is the token. */
  datatype Item<P> = Item(id: nat, payload: P, attempts: nat, startedAt: int)

  function Seconds(n: int): int { n * 1_000_000 }

  function NewRow<P>(payload: P, availableAt: int): Row<P> {
    Row(payload, Pending, 0, availableAt, None, None, None)
  }

  predicate Terminal(state: State) { state.Done? || state.DeadLetter? }

  /** The row is waiting and due, or its lease has run out. */
  predicate Eligible<P>(row: Row<P>, now: int, leaseSeconds: int) {
    || ((row.state.Pending? || row.state.Retryable?) && row.availableAt <= now)
    || (row.state.Processing? && row.startedAt.Some? && row.startedAt.value < now - Seconds(leaseSeconds))
  }

  // ---- claim ----

  predicate Claimable<P>(rows: seq<Row<P>>, want: P -> bool, now: int, leaseSeconds: int, locked: set<nat>, i: nat) {
    i < |rows| && i !in locked && want(rows[i].payload) && Eligible(rows[i], now, leaseSeconds)
  }

  /** The rows a claim may take, in table order: eligible ones that no other transaction has locked. */
  function Candidates<P>(rows: seq<Row<P>>, want: P -> bool, now: int, leaseSeconds: int, locked: set<nat>,
                         n: nat): (r: seq<nat>)
    requires n <= |rows|
    ensures forall i: nat :: i in r <==> i < n && Claimable(rows, want, now, leaseSeconds, locked, i)
    ensures forall i, j :: 0 <= i < j < |r| ==> r[i] < r[j]
  {
    if n == 0 then []
    else
      var before := Candidates(rows, want, now, leaseSeconds, locked, n - 1);
      assert forall k :: 0 <= k < |before| ==> before[k] in before;
      if Claimable(rows, want, now, leaseSeconds, locked, n - 1) then before + [n - 1] else before
  }

  function AvailableAt<P>(rows: seq<Row<P>>, i: nat): int {
    if i < |rows| then rows[i].availableAt else 0
  }

  function ByAvailableAt<P>(rows: seq<Row<P>>): (nat, nat) -> bool {
    (i: nat, j: nat) => AvailableAt(rows, i) <= AvailableAt(rows, j)
  }

  /** `sel` answers the claim query: order by available_at, limit, skip locked. */
  ghost predicate IsSelection<P>(rows: seq<Row<P>>, want: P -> bool, now: int, leaseSeconds: int, limit: nat,
                                 locked: set<nat>, sel: seq<nat>) {
    IsSmallest(ByAvailableAt(rows), Candidates(rows, want, now, leaseSeconds, locked, |rows|), limit, sel)
  }

  function Select<P>(rows: seq<Row<P>>, want: P -> bool, now: int, leaseSeconds: int, limit: nat,
                     locked: set<nat>): (sel: seq<nat>)
    ensures IsSelection(rows, want, now, leaseSeconds, limit, locked, sel)
  {
    var candidates := Candidates(rows, want, now, leaseSeconds, locked, |rows|);
    SortThenTake(ByAvailableAt(rows), candidates, limit);
    Take(Sort(ByAvailableAt(rows), candidates), limit)
  }

  ghost predicate Distinct(s: seq<nat>) {
    forall i, j :: 0 <= i < j < |s| ==> s[i] != s[j]
  }

  lemma {:induction false} DistinctMultiplicity(s: seq<nat>, x: nat)
    requires Distinct(s)
    ensures multiset(s)[x] <= 1
  {
    if s != [] {
      assert s == [s[0]] + s[1..];
      assert Distinct(s[1..]);
      DistinctMultiplicity(s[1..], x);
      assert x in s[1..] ==> x != s[0];
    }
  }

  lemma SubMultisetDistinct(s: seq<nat>, r: seq<nat>)
    requires Distinct(s) && multiset(r) <= multiset(s)
    ensures Distinct(r)
  {
    forall i, j | 0 <= i < j < |r| && r[i] == r[j] ensures false {
      var head, tail := r[..j], r[j..];
      assert r == head + tail;
      assert head[i] in multiset(head) && tail[0] in multiset(tail);
      assert multiset(r)[r[i]] >= 2;
      DistinctMultiplicity(s, r[i]);
    }
  }

  /** What a claim takes, said of single rows: exactly min(limit, count) different claimable
      rows, in due order, and every claimable row passed over is due no earlier. */
  lemma SelectionIsExact<P>(rows: seq<Row<P>>, want: P -> bool, now: int, leaseSeconds: int, limit: nat,
                            locked: set<nat>, sel: seq<nat>)
    requires IsSelection(rows, want, now, leaseSeconds, limit, locked, sel)
    ensures Distinct(sel)
    ensures forall i :: i in sel ==> Claimable(rows, want, now, leaseSeconds, locked, i)
    ensures var count := |Candidates(rows, want, now, leaseSeconds, locked, |rows|)|;
            |sel| == if limit < count then limit else count
    ensures forall a, b :: 0 <= a < b < |sel| ==> AvailableAt(rows, sel[a]) <= AvailableAt(rows, sel[b])
    ensures forall i, j :: i in sel && j !in sel && Claimable(rows, want, now, leaseSeconds, locked, j)
              ==> AvailableAt(rows, i) <= AvailableAt(rows, j)
    ensures |sel| < limit ==> forall j :: Claimable(rows, want, now, leaseSeconds, locked, j) ==> j in sel
  {
    var cs := Candidates(rows, want, now, leaseSeconds, locked, |rows|);
    SubMultisetDistinct(cs, sel);
    forall i | i in sel ensures i in cs {
      assert i in multiset(sel);
    }
    forall i, j | i in sel && j in cs && j !in sel ensures AvailableAt(rows, i) <= AvailableAt(rows, j) {
      assert j in multiset(cs) && j !in multiset(sel);
      assert j in multiset(cs) - multiset(sel);
      assert ByAvailableAt(rows)(i, j);
    }
    forall a, b | 0 <= a < b < |sel| ensures AvailableAt(rows, sel[a]) <= AvailableAt(rows, sel[b]) {
      assert ByAvailableAt(rows)(sel[a], sel[b]);
    }
    if |sel| < limit {
      assert |multiset(cs) - multiset(sel)| == 0;
      forall j | j in cs ensures j in sel {
        assert j in multiset(cs);
        assert j !in multiset(cs) - multiset(sel);
        assert multiset(sel)[j] >= 1;
      }
    }
  }

  function ClaimRow<P>(row: Row<P>, now: int): Row<P> {
    row.(state := Processing, startedAt := Some(now), attempts := row.attempts + 1)
  }

  function ClaimRows<P>(rows: seq<Row<P>>, sel: seq<nat>, now: int): (r: seq<Row<P>>)
    ensures |r| == |rows|
    ensures forall i :: 0 <= i < |rows| ==> r[i] == if i in sel then ClaimRow(rows[i], now) else rows[i]
  {
    seq(|rows|, i requires 0 <= i < |rows| => if i in sel then ClaimRow(rows[i], now) else rows[i])
  }

  /** Another worker's attempt to claim a row that a worker is busy with. */
  datatype Takeover = Takeover(now: int, leaseSeconds: int)

  /** The attempt succeeds when the row's lease has run out. */
  predicate TakenOver<P>(rows: seq<Row<P>>, id: nat, takeover: Option<Takeover>) {
    takeover.Some? && id < |rows| && Eligible(rows[id], takeover.value.now, takeover.value.leaseSeconds)
  }

  /** The table after such an attempt, which may commit while a transaction is open. */
  function Reclaimed<P>(rows: seq<Row<P>>, id: nat, takeover: Option<Takeover>): seq<Row<P>> {
    if TakenOver(rows, id, takeover) then rows[id := ClaimRow(rows[id], takeover.value.now)] else rows
  }

  /** The items for the claimed rows, read back after the update. */
  function Items<P>(rows: seq<Row<P>>, sel: seq<nat>, now: int): (items: seq<Item<P>>)
    requires forall k :: 0 <= k < |sel| ==> sel[k] < |rows|
    ensures |items| == |sel|
    ensures forall k :: 0 <= k < |sel| ==> items[k] == Item(sel[k], rows[sel[k]].payload, rows[sel[k]].attempts, now)
  {
    seq(|sel|, k requires 0 <= k < |sel| => Item(sel[k], rows[sel[k]].payload, rows[sel[k]].attempts, now))
  }

  /** Two claims that overlap in time: the second runs its query on the same snapshot but
      skips the rows the first has locked. They take different rows, commit in either order
      to the same table, and the second's answer is also a correct answer to the query made
      after the first has committed. */
  lemma OverlappingClaimsSerialize<P>(
      rows: seq<Row<P>>, wantA: P -> bool, wantB: P -> bool, nowA: int, nowB: int, leaseA: int, leaseB: int,
      limitA: nat, limitB: nat, lockedA: set<nat>, lockedB: set<nat>, selA: seq<nat>, selB: seq<nat>)
    requires IsSelection(rows, wantA, nowA, leaseA, limitA, lockedA, selA)
    requires IsSelection(rows, wantB, nowB, leaseB, limitB, lockedB, selB)
    requires forall i :: i in selA ==> i in lockedB
    ensures forall i :: i in selA ==> i !in selB
    ensures ClaimRows(ClaimRows(rows, selA, nowA), selB, nowB) == ClaimRows(ClaimRows(rows, selB, nowB), selA, nowA)
    ensures IsSelection(ClaimRows(rows, selA, nowA), wantB, nowB, leaseB, limitB, lockedB, selB)
  {
    SelectionIsExact(rows, wantA, nowA, leaseA, limitA, lockedA, selA);
    SelectionIsExact(rows, wantB, nowB, leaseB, limitB, lockedB, selB);
    var after := ClaimRows(rows, selA, nowA);
    CandidatesUnlocked(rows, after, wantB, nowB, leaseB, lockedB, |rows|);
    forall i: nat ensures AvailableAt(rows, i) == AvailableAt(after, i) {
    }
    var cs := Candidates(after, wantB, nowB, leaseB, lockedB, |after|);
    forall i, j | 0 <= i < j < |selB| ensures ByAvailableAt(after)(selB[i], selB[j]) {
      assert ByAvailableAt(rows)(selB[i], selB[j]);
    }
    forall x, y | x in selB && y in multiset(cs) - multiset(selB) ensures ByAvailableAt(after)(x, y) {
      assert ByAvailableAt(rows)(x, y);
    }
  }

  lemma {:induction false} CandidatesUnlocked<P>(rows: seq<Row<P>>, after: seq<Row<P>>, want: P -> bool, now: int,
                                                 lease: int, locked: set<nat>, n: nat)
    requires n <= |rows| == |after|
    requires forall i :: 0 <= i < |rows| && i !in locked ==> rows[i] == after[i]
    ensures Candidates(rows, want, now, lease, locked, n) == Candidates(after, want, now, lease, locked, n)
  {
    if n > 0 {
      CandidatesUnlocked(rows, after, want, now, lease, locked, n - 1);
    }
  }

  // ---- finalize ----

  /** The item's token is still the row's. */
  predicate Current<P>(rows: seq<Row<P>>, item: Item<P>) {
    && item.id < |rows|
    && rows[item.id].state.Processing?
    && rows[item.id].attempts == item.attempts
    && rows[item.id].startedAt == Some(item.startedAt)
  }

  function FinalizeRow<P>(row: Row<P>, state: State, when: Option<int>, code: Option<string>, now: int): Row<P> {
    row.(state := state,
         startedAt := None,
         error := if state.Done? then None else code,
         doneAt := if state.Done? then Some(now) else row.doneAt,
         availableAt := if when.Some? then when.value else row.availableAt)
  }

  function FinalizeRows<P>(rows: seq<Row<P>>, item: Item<P>, state: State, when: Option<int>, code: Option<string>,
                           now: int): seq<Row<P>> {
    if Current(rows, item) then rows[item.id := FinalizeRow(rows[item.id], state, when, code, now)] else rows
  }

  // ---- replay ----

  function ReplayRow<P>(row: Row<P>, now: int): Row<P> {
    row.(state := Pending, availableAt := now, startedAt := None, error := None)
  }

  function ReplayRows<P>(rows: seq<Row<P>>, ids: set<nat>, now: int): (r: seq<Row<P>>)
    ensures |r| == |rows|
    ensures forall i :: 0 <= i < |rows| ==>
      r[i] == if i in ids && rows[i].state.DeadLetter? then ReplayRow(rows[i], now) else rows[i]
  {
    seq(|rows|, i requires 0 <= i < |rows| =>
        if i in ids && rows[i].state.DeadLetter? then ReplayRow(rows[i], now) else rows[i])
  }

  // ---- worker policy ----

  function Pow2(n: nat): nat { if n == 0 then 1 else 2 * Pow2(n - 1) }

  /** Exponential in the attempt, capped. */
  function Backoff(attempt: int, base: nat, maximum: nat): nat {
    var raw := base * Pow2(if attempt - 1 > 0 then attempt - 1 else 0);
    if raw < maximum then raw else maximum
  }

  lemma {:induction false} Pow2Monotone(a: nat, b: nat)
    requires a <= b
    ensures 1 <= Pow2(a) <= Pow2(b)
    decreases b
  {
    if a == b {
      if a > 0 { Pow2Monotone(a - 1, b - 1); }
    } else {
      Pow2Monotone(a, b - 1);
    }
  }

  /** The delay never shrinks as attempts accumulate and stays between base and maximum. */
  lemma BackoffGrows(a: int, b: int, base: nat, maximum: nat)
    requires a <= b && base <= maximum
    ensures base <= Backoff(a, base, maximum) <= Backoff(b, base, maximum) <= maximum
  {
    var m, n := if a - 1 > 0 then a - 1 else 0, if b - 1 > 0 then b - 1 else 0;
    Pow2Monotone(m, n);
    assert base <= base * Pow2(m) by { MulAtLeast(base, Pow2(m)); }
    assert base * Pow2(m) <= base * Pow2(n) by { MulMonotone(base, Pow2(m), Pow2(n)); }
  }

  /** The first retry waits for the base, and each further attempt doubles the wait, up to the
      maximum. */
  lemma BackoffDoubles(attempt: nat, base: nat, maximum: nat)
    requires attempt >= 1
    ensures Backoff(1, base, maximum) == if base < maximum then base else maximum
    ensures var wait := Backoff(attempt, base, maximum);
            Backoff(attempt + 1, base, maximum) == if 2 * wait < maximum then 2 * wait else maximum
  {
    assert Pow2(attempt) == 2 * Pow2(attempt - 1);
    assert base * (2 * Pow2(attempt - 1)) == 2 * (base * Pow2(attempt - 1));
  }

  lemma MulAtLeast(x: nat, k: nat)
    requires k >= 1
    ensures x <= x * k
  {}

  lemma MulMonotone(x: nat, j: nat, k: nat)
    requires j <= k
    ensures x * j <= x * k
  {}

  datatype Policy = Policy(maxAttempts: nat, base: nat, maximum: nat)

  datatype Decision = Decision(state: State, when: Option<int>, code: Option<string>)

  /** What a failed attempt turns the row into. */
  function Failure(policy: Policy, attempts: nat, terminal: bool, code: string, now: int): Decision {
    if terminal || attempts >= policy.maxAttempts then Decision(DeadLetter, None, Some(code))
    else Decision(Retryable, Some(now + Seconds(Backoff(attempts, policy.base, policy.maximum))), Some(code))
  }

  /** What a failed attempt makes of its row: a dead letter if the failure is terminal or the
      attempts are used up; otherwise the row may be retried once the wait is over. */
  ghost predicate FailsAs<P>(policy: Policy, before: Row<P>, terminal: bool, code: string, failedAt: int,
                             after: Row<P>) {
    if terminal || before.attempts >= policy.maxAttempts
    then after == before.(state := DeadLetter, startedAt := None, error := Some(code))
    else
      var wait := Seconds(Backoff(before.attempts, policy.base, policy.maximum));
      after == before.(state := Retryable, startedAt := None, error := Some(code), availableAt := failedAt + wait)
  }

  lemma FailureFails<P>(policy: Policy, rows: seq<Row<P>>, item: Item<P>, terminal: bool, code: string, failedAt: int,
                        at: int)
    requires Current(rows, item)
    ensures var d := Failure(policy, item.attempts, terminal, code, failedAt);
            var after := FinalizeRows(rows, item, d.state, d.when, d.code, at);
            after == rows[item.id := after[item.id]]
                && FailsAs(policy, rows[item.id], terminal, code, failedAt, after[item.id])
  {
    hide Backoff;
  }
}
