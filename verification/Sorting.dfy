/** Python's `sorted` on a set of integer keys, and the facts about it the models rely on. */
module Sorting {
  import opened Prelude

  ghost predicate StrictlySorted(s: seq<int>) {
    forall i, j :: 0 <= i < j < |s| ==> s[i] < s[j]
  }

  lemma LeastOfTwo(s: set<int>, a: int, m: int)
    requires a in s && m in s && forall x :: x in s - {a} ==> m <= x
    ensures exists least :: least in s && forall x :: x in s ==> least <= x
  {
    var least := if a <= m then a else m;
    forall x | x in s ensures least <= x {
      assert x == a || x in s - {a};
    }
  }

  lemma {:induction false} MinExists(s: set<int>)
    requires s != {}
    ensures exists m :: m in s && forall x :: x in s ==> m <= x
  {
    var a := PickKey(s);
    var rest := s - {a};
    if rest != {} {
      MinExists(rest);
      var m :| m in rest && forall x :: x in rest ==> m <= x;
      LeastOfTwo(s, a, m);
    } else {
      assert forall x :: x in s ==> x == a || x in rest;
    }
  }

  lemma PrependLeast(s: set<int>, m: int, rest: seq<int>)
    requires m in s && (forall x :: x in s ==> m <= x)
    requires StrictlySorted(rest) && (forall x :: x in rest <==> x in s - {m}) && |rest| == |s - {m}|
    ensures StrictlySorted([m] + rest)
    ensures forall x :: x in [m] + rest <==> x in s
    ensures |[m] + rest| == |s|
  {
    forall i | 0 <= i < |rest| ensures m < rest[i] {
      assert rest[i] in rest;
    }
    forall x ensures x in [m] + rest <==> x in s {
      assert x in [m] + rest <==> x == m || x in rest;
    }
  }

  function Sorted(s: set<int>): (r: seq<int>)
    ensures StrictlySorted(r)
    ensures forall x :: x in r <==> x in s
    ensures |r| == |s|
  {
    if s == {} then []
    else
      MinExists(s);
      var m :| m in s && forall x :: x in s ==> m <= x;
      var rest := Sorted(s - {m});
      PrependLeast(s, m, rest);
      [m] + rest
  }

  lemma SameEmptiness(a: seq<int>, b: seq<int>)
    requires forall x :: x in a <==> x in b
    ensures a == [] <==> b == []
  {
    if a != [] {
      var x := a[0];
      assert x in b;
    }
    if b != [] {
      var x := b[0];
      assert x in a;
    }
  }

  /** Two ways of listing the same keys in order are the same list. */
  lemma {:induction false} SortedUnique(a: seq<int>, b: seq<int>)
    requires StrictlySorted(a) && StrictlySorted(b)
    requires forall x :: x in a <==> x in b
    ensures a == b
  {
    SameEmptiness(a, b);
    if a != [] {
      assert a[0] in a && a[0] in b;
      assert b[0] in b && b[0] in a;
      assert a[0] == b[0];
      forall x ensures x in a[1..] <==> x in b[1..] {
        assert x in a[1..] ==> x in a && x != a[0];
        assert x in b[1..] ==> x in b && x != b[0];
        assert x in a && x != a[0] ==> x in a[1..];
        assert x in b && x != b[0] ==> x in b[1..];
      }
      SortedUnique(a[1..], b[1..]);
      assert a == [a[0]] + a[1..] && b == [b[0]] + b[1..];
    }
  }

  /** Sorting the keys up to a bound gives a prefix of sorting all of them. */
  lemma SortedPrefix(s: set<int>, bound: int, n: nat)
    requires n <= |s|
    requires forall i :: 0 <= i < |s| ==> (Sorted(s)[i] <= bound <==> i < n)
    ensures Sorted(set x | x in s && x <= bound) == Sorted(s)[..n]
  {
    hide Sorted;
    var small := set x | x in s && x <= bound;
    var all := Sorted(s);
    forall x ensures x in Sorted(small) <==> x in all[..n] {
      if x in small {
        assert x in all;
        var i :| 0 <= i < |all| && all[i] == x;
        assert all[..n][i] == x;
      }
      if x in all[..n] {
        var i :| 0 <= i < n && all[..n][i] == x;
        assert all[i] == x && x in s;
      }
    }
    SortedUnique(Sorted(small), all[..n]);
  }
}
