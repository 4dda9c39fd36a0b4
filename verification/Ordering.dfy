/** Sorting by an arbitrary total preorder, and "order by ... limit n" as a relation
    that leaves the order of ties open, as a database does. */
module Ordering {

  ghost predicate TotalPreorder<T(!new)>(le: (T, T) -> bool) {
    && (forall x, y :: le(x, y) || le(y, x))
    && (forall x, y, z :: le(x, y) && le(y, z) ==> le(x, z))
  }

  ghost predicate SortedBy<T>(le: (T, T) -> bool, s: seq<T>) {
    forall i, j :: 0 <= i < j < |s| ==> le(s[i], s[j])
  }

  /** `r` is a possible answer to "order s by le, limit n". */
  ghost predicate IsSmallest<T(!new)>(le: (T, T) -> bool, s: seq<T>, n: nat, r: seq<T>) {
    && |r| == (if n < |s| then n else |s|)
    && multiset(r) <= multiset(s)
    && SortedBy(le, r)
    && (forall x, y :: x in r && y in multiset(s) - multiset(r) ==> le(x, y))
  }

  function Insert<T>(le: (T, T) -> bool, x: T, s: seq<T>): (r: seq<T>)
    ensures multiset(r) == multiset(s) + multiset{x}
    ensures |r| == |s| + 1
  {
    if s == [] then [x]
    else if le(x, s[0]) then [x] + s
    else
      assert s == [s[0]] + s[1..];
      [s[0]] + Insert(le, x, s[1..])
  }

  function Sort<T>(le: (T, T) -> bool, s: seq<T>): (r: seq<T>)
    ensures multiset(r) == multiset(s)
    ensures |r| == |s|
  {
    if s == [] then []
    else
      assert s == [s[0]] + s[1..];
      Insert(le, s[0], Sort(le, s[1..]))
  }

  lemma {:induction false} InsertSorted<T(!new)>(le: (T, T) -> bool, x: T, s: seq<T>)
    requires TotalPreorder(le) && SortedBy(le, s)
    ensures SortedBy(le, Insert(le, x, s))
  {
    if s == [] {
    } else if le(x, s[0]) {
    } else {
      InsertSorted(le, x, s[1..]);
      var r := Insert(le, x, s[1..]);
      forall j | 0 <= j < |r| ensures le(s[0], r[j]) {
        assert r[j] in multiset(r);
        assert r[j] == x || r[j] in s[1..];
      }
    }
  }

  lemma {:induction false} SortSorted<T(!new)>(le: (T, T) -> bool, s: seq<T>)
    requires TotalPreorder(le)
    ensures SortedBy(le, Sort(le, s))
  {
    if s != [] {
      SortSorted(le, s[1..]);
      InsertSorted(le, s[0], Sort(le, s[1..]));
    }
  }

  lemma WithoutOne<T>(s: seq<T>, i: nat)
    requires i < |s|
    ensures multiset(s[..i] + s[i + 1..]) == multiset(s) - multiset{s[i]}
  {
    assert s == s[..i] + ([s[i]] + s[i + 1..]);
  }

  function Take<T>(s: seq<T>, n: nat): seq<T> {
    if n < |s| then s[..n] else s
  }

  /** Sorting and then cutting answers the query. */
  lemma SortThenTake<T(!new)>(le: (T, T) -> bool, s: seq<T>, n: nat)
    requires TotalPreorder(le)
    ensures IsSmallest(le, s, n, Take(Sort(le, s), n))
  {
    hide TotalPreorder, SortedBy, Sort;
    var t := Sort(le, s);
    SortSorted(le, s);
    var r := Take(t, n);
    var rest := t[|r|..];
    PrefixPrecedes(le, t, |r|);
    assert multiset(s) - multiset(r) == multiset(rest) by {
      assert t == r + rest;
    }
    forall x, y | x in r && y in multiset(s) - multiset(r) ensures le(x, y) {
      assert y in multiset(rest);
    }
  }

  lemma PrefixPrecedes<T>(le: (T, T) -> bool, t: seq<T>, k: nat)
    requires SortedBy(le, t) && k <= |t|
    ensures SortedBy(le, t[..k])
    ensures forall x, y :: x in t[..k] && y in t[k..] ==> le(x, y)
  {
  }

  /** Number of elements that satisfy p. */
  function Count<T>(p: T -> bool, s: seq<T>): nat {
    if s == [] then 0 else (if p(s[0]) then 1 else 0) + Count(p, s[1..])
  }

  lemma {:induction false} CountAppend<T>(p: T -> bool, a: seq<T>, b: seq<T>)
    ensures Count(p, a + b) == Count(p, a) + Count(p, b)
  {
    if a == [] {
      assert a + b == b;
    } else {
      assert (a + b)[1..] == a[1..] + b;
      CountAppend(p, a[1..], b);
    }
  }

  lemma {:induction false} CountUpdate<T>(p: T -> bool, s: seq<T>, i: nat, x: T)
    requires i < |s|
    ensures Count(p, s[i := x]) == Count(p, s) - (if p(s[i]) then 1 else 0) + (if p(x) then 1 else 0)
  {
    if i > 0 {
      assert s[i := x][1..] == s[1..][i - 1 := x];
      CountUpdate(p, s[1..], i - 1, x);
    } else {
      assert s[0 := x][1..] == s[1..];
    }
  }
}
