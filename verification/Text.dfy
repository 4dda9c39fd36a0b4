/** Strings in code point order. */
module Text {

  predicate Le(a: string, b: string) {
    a == "" || (b != "" && (a[0] < b[0] || (a[0] == b[0] && Le(a[1..], b[1..]))))
  }

  /** The texts agree up to position i, where the first is over or has the lesser character. */
  ghost predicate DiffersAt(a: string, b: string, i: nat) {
    i <= |a| && i <= |b| && a[..i] == b[..i] && (i == |a| || (i < |b| && a[i] < b[i]))
  }

  /** Texts are ordered by the first character in which they differ, and a prefix comes first. */
  lemma {:induction false} LeIff(a: string, b: string)
    ensures Le(a, b) <==> exists i: nat :: DiffersAt(a, b, i)
  {
    if a == "" {
      assert DiffersAt(a, b, 0);
    } else if b != "" {
      LeIff(a[1..], b[1..]);
      if a[0] < b[0] {
        assert DiffersAt(a, b, 0);
      } else if Le(a, b) {
        var i: nat :| DiffersAt(a[1..], b[1..], i);
        assert a[..i + 1] == [a[0]] + a[1..][..i] && b[..i + 1] == [b[0]] + b[1..][..i];
        assert DiffersAt(a, b, i + 1);
      }
      if i: nat :| DiffersAt(a, b, i) {
        if i > 0 {
          assert a[..i][0] == a[0] && b[..i][0] == b[0];
          assert a[1..][..i - 1] == a[..i][1..] && b[1..][..i - 1] == b[..i][1..];
          assert DiffersAt(a[1..], b[1..], i - 1);
        }
      }
    }
  }

  lemma {:induction false} LeTotal(a: string, b: string)
    ensures Le(a, b) || Le(b, a)
  {
    if a != "" && b != "" && a[0] == b[0] {
      LeTotal(a[1..], b[1..]);
    }
  }

  lemma {:induction false} LeAntisymmetric(a: string, b: string)
    requires Le(a, b) && Le(b, a)
    ensures a == b
  {
    if a != "" {
      LeAntisymmetric(a[1..], b[1..]);
      assert a == [a[0]] + a[1..] && b == [b[0]] + b[1..];
    }
  }

  lemma {:induction false} LeTransitive(a: string, b: string, c: string)
    requires Le(a, b) && Le(b, c)
    ensures Le(a, c)
  {
    if a != "" && a[0] == b[0] == c[0] {
      LeTransitive(a[1..], b[1..], c[1..]);
    }
  }

  lemma {:induction false} LeastExists(s: set<string>) returns (x: string)
    requires s != {}
    ensures x in s && forall y :: y in s ==> Le(x, y)
    decreases |s|
  {
    var z :| z in s;
    LeTotal(z, z);
    if s == {z} {
      x := z;
    } else {
      x := LeastExists(s - {z});
      LeTotal(x, z);
      if !Le(x, z) {
        forall y | y in s ensures Le(z, y) {
          if y != z { LeTransitive(z, x, y); }
        }
        x := z;
      }
    }
  }

  ghost predicate StrictlySorted(s: seq<string>) {
    forall i, j :: 0 <= i < j < |s| ==> Le(s[i], s[j]) && s[i] != s[j]
  }

  /** sorted(s) of a set of strings. */
  function SortedSet(s: set<string>): (r: seq<string>)
    ensures StrictlySorted(r)
    ensures |r| == |s| && forall x :: x in r <==> x in s
    decreases |s|
  {
    if s == {} then []
    else
      var least := Least(s);
      var rest := SortedSet(s - {least});
      assert forall j :: 0 <= j < |rest| ==> rest[j] in rest;
      [least] + rest
  }

  function Least(s: set<string>): (x: string)
    requires s != {}
    ensures x in s && forall y :: y in s ==> Le(x, y)
  {
    assert exists x :: x in s && forall y :: y in s ==> Le(x, y) by {
      var x := LeastExists(s);
    }
    assert forall x, z :: x in s && z in s && Le(x, z) && Le(z, x) ==> x == z by {
      forall x, z | x in s && z in s && Le(x, z) && Le(z, x) ensures x == z { LeAntisymmetric(x, z); }
    }
    var x :| x in s && forall y :: y in s ==> Le(x, y);
    x
  }
}
