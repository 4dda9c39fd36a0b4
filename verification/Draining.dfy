/** Rounds of claiming a batch and settling all of it: they use the table's work up. */
module Draining {
  import opened LeaseTable
  import opened Repositories

  // ---- the load of a table ----

  /** Attempts a row can still cost. */
  function Weight<P>(maxAttempts: nat, row: Row<P>): nat {
    if Terminal(row.state) then 0
    else (if row.attempts < maxAttempts then maxAttempts - row.attempts else 0) + 1
  }

  /** What the wanted rows can cost together. */
  function Load<P>(want: P -> bool, maxAttempts: nat, rows: seq<Row<P>>): nat {
    if rows == [] then 0
    else (if want(rows[0].payload) then Weight(maxAttempts, rows[0]) else 0) + Load(want, maxAttempts, rows[1..])
  }

  /** The row is no heavier than it was, nor another's. */
  ghost predicate NoHeavier<P>(maxAttempts: nat, before: Row<P>, after: Row<P>) {
    after.payload == before.payload && Weight(maxAttempts, after) <= Weight(maxAttempts, before)
  }

  lemma {:induction false} LoadUpdate<P>(want: P -> bool, maxAttempts: nat, rows: seq<Row<P>>, i: nat, row: Row<P>)
    requires i < |rows| && want(row.payload) && row.payload == rows[i].payload
    ensures Load(want, maxAttempts, rows[i := row])
            == Load(want, maxAttempts, rows) - Weight(maxAttempts, rows[i]) + Weight(maxAttempts, row)
  {
    hide Weight;
    if i == 0 {
      assert rows[0 := row][1..] == rows[1..];
    } else {
      assert rows[i := row][1..] == rows[1..][i - 1 := row];
      LoadUpdate(want, maxAttempts, rows[1..], i - 1, row);
    }
  }

  lemma {:induction false} LoadPointwise<P>(want: P -> bool, maxAttempts: nat, before: seq<Row<P>>, after: seq<Row<P>>)
    requires |before| == |after|
    requires forall i: nat :: i < |before| ==> NoHeavier(maxAttempts, before[i], after[i])
    ensures Load(want, maxAttempts, after) <= Load(want, maxAttempts, before)
  {
    hide Weight;
    if before != [] {
      assert NoHeavier(maxAttempts, before[0], after[0]);
      assert forall i: nat :: i < |before[1..]| ==> after[1..][i] == after[i + 1] && before[1..][i] == before[i + 1];
      LoadPointwise(want, maxAttempts, before[1..], after[1..]);
    }
  }

  lemma {:induction false} LoadDrops<P>(want: P -> bool, maxAttempts: nat, before: seq<Row<P>>, after: seq<Row<P>>,
                                        ids: seq<nat>, n: nat)
    requires |before| == |after| && n <= |ids| && Distinct(ids)
    requires forall k :: 0 <= k < n ==>
               && ids[k] < |before| && want(before[ids[k]].payload)
               && Weight(maxAttempts, after[ids[k]]) < Weight(maxAttempts, before[ids[k]])
    requires forall i: nat :: i < |before| ==> NoHeavier(maxAttempts, before[i], after[i])
    ensures Load(want, maxAttempts, after) + n <= Load(want, maxAttempts, before)
    decreases n
  {
    hide Weight, Load;
    if n == 0 {
      LoadPointwise(want, maxAttempts, before, after);
    } else {
      var i := ids[n - 1];
      assert NoHeavier(maxAttempts, before[i], after[i]);
      LoadUpdate(want, maxAttempts, before, i, after[i]);
      LoadDrops(want, maxAttempts, before[i := after[i]], after, ids, n - 1);
    }
  }

  lemma {:induction false} NothingLeft<P>(want: P -> bool, maxAttempts: nat, rows: seq<Row<P>>)
    ensures Load(want, maxAttempts, rows) == 0 <==> forall i: nat :: i < |rows| && want(rows[i].payload) ==>
              Terminal(rows[i].state)
  {
    if rows != [] {
      NothingLeft(want, maxAttempts, rows[1..]);
      if Load(want, maxAttempts, rows) == 0 {
        forall i: nat | i < |rows| && want(rows[i].payload) ensures Terminal(rows[i].state) {
          assert i > 0 ==> rows[i] == rows[1..][i - 1];
        }
      }
    }
  }

  // ---- settling a batch ----

  /** The worker is done with the row, unless it may have another attempt. */
  ghost predicate Settled<P>(maxAttempts: nat, before: Row<P>, after: Row<P>) {
    && after.payload == before.payload && after.attempts == before.attempts
    && (Terminal(after.state) || (after.state.Retryable? && after.attempts < maxAttempts))
  }

  /** The item is one that a claim returned, and its token is current. */
  ghost predicate Held<P>(rows: seq<Row<P>>, item: Item<P>) {
    Current(rows, item) && rows[item.id].payload == item.payload && item.attempts >= 1
  }

  /** A held item's row is settled, and no other changes. */
  ghost predicate SettlesItem<P>(maxAttempts: nat, before: seq<Row<P>>, after: seq<Row<P>>, item: Item<P>) {
    Held(before, item) ==>
      |after| == |before| && Settled(maxAttempts, before[item.id], after[item.id])
          && after == before[item.id := after[item.id]]
  }

  /** `ts[k]` is the table after the first k items have been worked off. */
  ghost predicate SettlesInTurn<P>(maxAttempts: nat, ts: seq<seq<Row<P>>>, items: seq<Item<P>>) {
    |ts| == |items| + 1 && forall k :: 0 <= k < |items| ==> SettlesItem(maxAttempts, ts[k], ts[k + 1], items[k])
  }

  /** Items of different rows do not get in each other's way: if all are held at the start,
      each row is settled once, and no other row changes. */
  lemma {:induction false} EachIsSettled<P>(maxAttempts: nat, ts: seq<seq<Row<P>>>, items: seq<Item<P>>, n: nat)
    requires SettlesInTurn(maxAttempts, ts, items) && Distinct(Ids(items)) && n <= |items|
    requires forall k :: 0 <= k < |items| ==> Held(ts[0], items[k])
    ensures |ts[n]| == |ts[0]|
    ensures forall k :: 0 <= k < n ==>
              items[k].id < |ts[0]| && Settled(maxAttempts, ts[0][items[k].id], ts[n][items[k].id])
    ensures forall i: nat :: i < |ts[0]| && (forall k :: 0 <= k < n ==> items[k].id != i) ==> ts[n][i] == ts[0][i]
  {
    hide Settled;
    if n > 0 {
      var item := items[n - 1];
      EachIsSettled(maxAttempts, ts, items, n - 1);
      assert Held(ts[0], item);
      forall k | 0 <= k < n - 1 ensures items[k].id != item.id {
        assert Ids(items)[k] != Ids(items)[n - 1];
      }
      assert SettlesItem(maxAttempts, ts[n - 1], ts[n], item);
    }
  }

  // ---- rounds ----

  /** A batch of wanted rows is claimed, every one of them is settled, and nothing else
      happens to the table. */
  ghost predicate IsRound<P>(want: P -> bool, maxAttempts: nat, before: seq<Row<P>>, now: int, leaseSeconds: int,
                             limit: nat, locked: set<nat>, items: seq<Item<P>>, after: seq<Row<P>>) {
    var claimed := ClaimRows(before, Ids(items), now);
    && IsClaim(before, want, now, leaseSeconds, limit, locked, items, claimed)
    && |after| == |before|
    && (forall k :: 0 <= k < |items| ==> Settled(maxAttempts, claimed[items[k].id], after[items[k].id]))
    && (forall i: nat :: i < |before| && (forall k :: 0 <= k < |items| ==> items[k].id != i) ==> after[i] == claimed[i])
  }

  /** A batch that is worked off item by item makes a round. */
  lemma InTurnIsRound<P>(want: P -> bool, maxAttempts: nat, before: seq<Row<P>>, now: int, leaseSeconds: int,
                         limit: nat, locked: set<nat>, items: seq<Item<P>>, ts: seq<seq<Row<P>>>)
    requires IsClaim(before, want, now, leaseSeconds, limit, locked, items, ClaimRows(before, Ids(items), now))
    requires SettlesInTurn(maxAttempts, ts, items) && ts[0] == ClaimRows(before, Ids(items), now)
    ensures IsRound(want, maxAttempts, before, now, leaseSeconds, limit, locked, items, ts[|items|])
  {
    hide Settled, IsClaim;
    ClaimedItemsAreCurrent(before, want, now, leaseSeconds, limit, locked, items, ts[0]);
    EachIsSettled(maxAttempts, ts, items, |items|);
  }

  lemma SettlingLightens<P>(maxAttempts: nat, before: Row<P>, after: Row<P>, now: int, leaseSeconds: int)
    requires Eligible(before, now, leaseSeconds) && Settled(maxAttempts, ClaimRow(before, now), after)
    ensures Weight(maxAttempts, after) < Weight(maxAttempts, before) && NoHeavier(maxAttempts, before, after)
  {
  }

  /** Each item takes at least one unit off the load. */
  lemma RoundLowersLoad<P>(want: P -> bool, maxAttempts: nat, before: seq<Row<P>>, now: int, leaseSeconds: int,
                           limit: nat, locked: set<nat>, items: seq<Item<P>>, after: seq<Row<P>>)
    requires IsRound(want, maxAttempts, before, now, leaseSeconds, limit, locked, items, after)
    ensures Load(want, maxAttempts, after) + |items| <= Load(want, maxAttempts, before)
  {
    hide Load, Settled, Weight, Eligible, IsClaim;
    var claimed := ClaimRows(before, Ids(items), now);
    ClaimedItemsAreCurrent(before, want, now, leaseSeconds, limit, locked, items, claimed);
    forall k | 0 <= k < |items|
      ensures items[k].id < |before| && want(before[items[k].id].payload)
      ensures Weight(maxAttempts, after[items[k].id]) < Weight(maxAttempts, before[items[k].id])
      ensures NoHeavier(maxAttempts, before[items[k].id], after[items[k].id])
    {
      assert Ids(items)[k] in Ids(items);
      SettlingLightens(maxAttempts, before[items[k].id], after[items[k].id], now, leaseSeconds);
    }
    forall i: nat | i < |before| ensures NoHeavier(maxAttempts, before[i], after[i]) {
      if i in Ids(items) {
        var k :| 0 <= k < |items| && Ids(items)[k] == i;
      } else {
        assert forall k :: 0 <= k < |items| ==> Ids(items)[k] in Ids(items);
      }
    }
    LoadDrops(want, maxAttempts, before, after, Ids(items), |items|);
  }

  /** Every wanted row that is not finished is due. */
  ghost predicate AllDue<P>(want: P -> bool, rows: seq<Row<P>>, now: int, leaseSeconds: int) {
    forall i: nat :: i < |rows| && want(rows[i].payload) && !Terminal(rows[i].state) ==>
      Eligible(rows[i], now, leaseSeconds)
  }

  /** A claim with nobody else holding locks, once everything is due, takes a row if any is left. */
  lemma LateRoundTakesWork<P>(want: P -> bool, maxAttempts: nat, before: seq<Row<P>>, now: int, leaseSeconds: int,
                              limit: nat, items: seq<Item<P>>, after: seq<Row<P>>)
    requires IsClaim(before, want, now, leaseSeconds, limit, {}, items, after) && limit >= 1
    requires AllDue(want, before, now, leaseSeconds)
    ensures items == [] ==> Load(want, maxAttempts, before) == 0
  {
    if items == [] {
      SelectionIsExact(before, want, now, leaseSeconds, limit, {}, Ids(items));
      forall i: nat | i < |before| && want(before[i].payload) ensures Terminal(before[i].state) {
        assert !Claimable(before, want, now, leaseSeconds, {}, i);
      }
      NothingLeft(want, maxAttempts, before);
    }
  }

  datatype Round<P> = Round(now: int, items: seq<Item<P>>)

  /** Rounds with nothing in between, each late enough for every unfinished row. */
  ghost predicate LateRounds<P>(want: P -> bool, maxAttempts: nat, leaseSeconds: int, limit: nat,
                                ts: seq<seq<Row<P>>>, rounds: seq<Round<P>>) {
    && |ts| == |rounds| + 1
    && forall k :: 0 <= k < |rounds| ==>
      && IsRound(want, maxAttempts, ts[k], rounds[k].now, leaseSeconds, limit, {}, rounds[k].items, ts[k + 1])
      && AllDue(want, ts[k], rounds[k].now, leaseSeconds)
  }

  lemma {:induction false} LoadAfter<P>(want: P -> bool, maxAttempts: nat, leaseSeconds: int, limit: nat,
                                        ts: seq<seq<Row<P>>>, rounds: seq<Round<P>>, k: nat)
    requires LateRounds(want, maxAttempts, leaseSeconds, limit, ts, rounds) && limit >= 1 && k <= |rounds|
    ensures Load(want, maxAttempts, ts[k]) == 0 || Load(want, maxAttempts, ts[k]) + k <= Load(want, maxAttempts, ts[0])
  {
    hide IsRound, Load, AllDue;
    if k > 0 {
      LoadAfter(want, maxAttempts, leaseSeconds, limit, ts, rounds, k - 1);
      var r := rounds[k - 1];
      RoundLowersLoad(want, maxAttempts, ts[k - 1], r.now, leaseSeconds, limit, {}, r.items, ts[k]);
      RoundClaims(want, maxAttempts, ts[k - 1], r.now, leaseSeconds, limit, {}, r.items, ts[k]);
      LateRoundTakesWork(want, maxAttempts, ts[k - 1], r.now, leaseSeconds, limit, r.items,
                         ClaimRows(ts[k - 1], Ids(r.items), r.now));
    }
  }

  lemma RoundClaims<P>(want: P -> bool, maxAttempts: nat, before: seq<Row<P>>, now: int, leaseSeconds: int,
                       limit: nat, locked: set<nat>, items: seq<Item<P>>, after: seq<Row<P>>)
    requires IsRound(want, maxAttempts, before, now, leaseSeconds, limit, locked, items, after)
    ensures IsClaim(before, want, now, leaseSeconds, limit, locked, items, ClaimRows(before, Ids(items), now))
  {
  }

  /** As many such rounds as the initial load leave every wanted row finished. */
  lemma RoundsDrain<P>(want: P -> bool, maxAttempts: nat, leaseSeconds: int, limit: nat, ts: seq<seq<Row<P>>>,
                       rounds: seq<Round<P>>)
    requires LateRounds(want, maxAttempts, leaseSeconds, limit, ts, rounds) && limit >= 1
    requires |rounds| >= Load(want, maxAttempts, ts[0])
    ensures forall i: nat :: i < |ts[|rounds|]| && want(ts[|rounds|][i].payload) ==> Terminal(ts[|rounds|][i].state)
  {
    LoadAfter(want, maxAttempts, leaseSeconds, limit, ts, rounds, |rounds|);
    NothingLeft(want, maxAttempts, ts[|rounds|]);
  }
}
