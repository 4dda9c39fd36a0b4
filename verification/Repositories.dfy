/** The two repositories, updating their tables in place. */
module Repositories {
  import opened Std
  import opened LeaseTable

  function Ids<P>(items: seq<Item<P>>): (ids: seq<nat>)
    ensures |ids| == |items|
    ensures forall k :: 0 <= k < |ids| ==> ids[k] == items[k].id
  {
    seq(|items|, k requires 0 <= k < |items| => items[k].id)
  }

  /** `items` is what a claim may return, and `after` the table it leaves. */
  ghost predicate IsClaim<P>(before: seq<Row<P>>, want: P -> bool, now: int, leaseSeconds: int, limit: nat,
                             locked: set<nat>, items: seq<Item<P>>, after: seq<Row<P>>) {
    && IsSelection(before, want, now, leaseSeconds, limit, locked, Ids(items))
    && after == ClaimRows(before, Ids(items), now)
    && (forall k :: 0 <= k < |items| ==> items[k].id < |after|)
    && items == Items(after, Ids(items), now)
  }

  function Everything<P>(): P -> bool { p => true }

  /** The rows the claim query selected, marked one after the other. */
  method MarkClaimed<P>(rows: seq<Row<P>>, sel: seq<nat>, now: int) returns (marked: seq<Row<P>>)
    requires Distinct(sel) && forall i :: i in sel ==> i < |rows|
    ensures marked == ClaimRows(rows, sel, now)
  {
    marked := rows;
    for k := 0 to |sel|
      invariant |marked| == |rows|
      invariant forall i :: 0 <= i < |rows| ==> marked[i] == if i in sel[..k] then ClaimRow(rows[i], now) else rows[i]
    {
      var i := sel[k];
      assert i in sel && i !in sel[..k];
      assert sel[..k + 1] == sel[..k] + [i];
      marked := marked[i :=
                       marked[i].(state := Processing, startedAt := Some(now), attempts := marked[i].attempts + 1)];
    }
    assert sel[..|sel|] == sel;
  }

  lemma SelectionMakesClaim<P>(rows: seq<Row<P>>, want: P -> bool, now: int, leaseSeconds: int, limit: nat,
                               locked: set<nat>, sel: seq<nat>)
    requires IsSelection(rows, want, now, leaseSeconds, limit, locked, sel)
    ensures Distinct(sel) && forall i :: i in sel ==> i < |rows|
    ensures forall k :: 0 <= k < |sel| ==> sel[k] < |rows|
    ensures var after := ClaimRows(rows, sel, now);
            IsClaim(rows, want, now, leaseSeconds, limit, locked, Items(after, sel, now), after)
  {
    SelectionIsExact(rows, want, now, leaseSeconds, limit, locked, sel);
    assert forall k :: 0 <= k < |sel| ==> sel[k] in sel;
    var after := ClaimRows(rows, sel, now);
    assert Ids(Items(after, sel, now)) == sel;
  }

  class ObservationOutboxRepository<P(==)> {
    var rows: seq<Row<P>>

    constructor ()
      ensures rows == []
    {
      rows := [];
    }

    /** `locked` are the rows other transactions hold; skip_locked passes over them. */
    method Claim(now: int, limit: nat, leaseSeconds: int, locked: set<nat>) returns (items: seq<Item<P>>)
      modifies this
      ensures IsClaim(old(rows), Everything(), now, leaseSeconds, limit, locked, items, rows)
    {
      var sel := Select(rows, Everything(), now, leaseSeconds, limit, locked);
      SelectionMakesClaim(rows, Everything(), now, leaseSeconds, limit, locked, sel);
      rows := MarkClaimed(rows, sel, now);
      items := Items(rows, sel, now);
    }

    method Finalize(item: Item<P>, state: State, when: Option<int>, code: Option<string>, now: int) returns (ok: bool)
      modifies this
      ensures ok <==> Current(old(rows), item)
      ensures ok ==> rows == old(rows)[item.id := FinalizeRow(old(rows)[item.id], state, when, code, now)]
      ensures !ok ==> rows == old(rows)
    {
      ok := Current(rows, item);
      if ok {
        var row := rows[item.id].(state := state, startedAt := None, error := code);
        if state.Done? {
          row := row.(doneAt := Some(now), error := None);
        }
        if when.Some? {
          row := row.(availableAt := when.value);
        }
        rows := rows[item.id := row];
      }
    }

    method ReplayDeadLetters(ids: set<nat>, now: int) returns (count: nat)
      modifies this
      ensures rows == ReplayRows(old(rows), ids, now)
      ensures count == |set i: nat | i in ids && i < |old(rows)| && old(rows)[i].state.DeadLetter?|
    {
      var dead := set i: nat | i in ids && i < |rows| && rows[i].state.DeadLetter?;
      rows := ReplayRows(rows, ids, now);
      count := |dead|;
    }
  }

  datatype Task = Task(rawId: nat, processorType: string, processorVersion: string)

  function OfProcessor(processorType: string, processorVersion: string): Task -> bool {
    (t: Task) => t.processorType == processorType && t.processorVersion == processorVersion
  }

  class ProcessingTaskRepository {
    var rows: seq<Row<Task>>

    constructor ()
      ensures rows == []
    {
      rows := [];
    }

    method Claim(processorType: string, processorVersion: string, now: int, limit: nat, leaseSeconds: int,
                 locked: set<nat>)
      returns (items: seq<Item<Task>>)
      modifies this
      ensures IsClaim(old(rows), OfProcessor(processorType, processorVersion), now, leaseSeconds, limit, locked,
                      items, rows)
    {
      var want := OfProcessor(processorType, processorVersion);
      var sel := Select(rows, want, now, leaseSeconds, limit, locked);
      SelectionMakesClaim(rows, want, now, leaseSeconds, limit, locked, sel);
      rows := MarkClaimed(rows, sel, now);
      items := Items(rows, sel, now);
    }

    method Finalize(item: Item<Task>, state: State, when: Option<int>, code: Option<string>, now: int)
      returns (ok: bool)
      modifies this
      ensures ok <==> Current(old(rows), item)
      ensures ok ==> rows == old(rows)[item.id := FinalizeRow(old(rows)[item.id], state, when, code, now)]
      ensures !ok ==> rows == old(rows)
    {
      ok := Current(rows, item);
      if ok {
        var row := rows[item.id].(state := state, startedAt := None, error := code);
        if state.Done? {
          row := row.(doneAt := Some(now), error := None);
        }
        if when.Some? {
          row := row.(availableAt := when.value);
        }
        rows := rows[item.id := row];
      }
    }
  }

  /** What the claim contract says of a claim's items: their tokens are current, their
      payloads are the rows', and no other row moved. */
  lemma ClaimedItemsAreCurrent<P>(before: seq<Row<P>>, want: P -> bool, now: int, leaseSeconds: int, limit: nat,
                                  locked: set<nat>, items: seq<Item<P>>, after: seq<Row<P>>)
    requires IsClaim(before, want, now, leaseSeconds, limit, locked, items, after)
    ensures |after| == |before| && Distinct(Ids(items))
    ensures forall k :: 0 <= k < |items| ==>
              && Current(after, items[k])
              && Eligible(before[items[k].id], now, leaseSeconds)
              && want(items[k].payload)
              && items[k].payload == before[items[k].id].payload
              && items[k].attempts == before[items[k].id].attempts + 1
    ensures forall i :: 0 <= i < |before| && i !in Ids(items) ==> after[i] == before[i]
  {
    SelectionIsExact(before, want, now, leaseSeconds, limit, locked, Ids(items));
    forall k | 0 <= k < |items|
      ensures Current(after, items[k]) && Claimable(before, want, now, leaseSeconds, locked, items[k].id)
      ensures items[k].payload == before[items[k].id].payload && items[k].attempts == before[items[k].id].attempts + 1
    {
      assert Ids(items)[k] in Ids(items);
      assert items[k] == Items(after, Ids(items), now)[k];
    }
  }
}
