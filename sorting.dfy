/**
 * `Array.prototype.sort` with a comparator, as the listing handlers call it.
 *
 * The sort is stable, so for a consistent comparator its result is the one
 * an insertion sort gives: each element goes in front of the first later
 * element it does not have to follow. `SortBy` is that insertion sort.
 */
module Sorting {

  /** Put `x` in front of the first element of `s` it is not greater than. */
  function Insert<T>(x: T, s: seq<T>, cmp: (T, T) -> int): (r: seq<T>)
    ensures multiset(r) == multiset(s) + multiset{x}
  {
    if s == [] then [x]
    else if cmp(x, s[0]) <= 0 then [x] + s
    else
      assert s == [s[0]] + s[1..];
      [s[0]] + Insert(x, s[1..], cmp)
  }

  /** `s.sort(cmp)`. */
  function SortBy<T>(s: seq<T>, cmp: (T, T) -> int): (r: seq<T>)
    ensures multiset(r) == multiset(s)
  {
    if s == [] then []
    else
      assert s == [s[0]] + s[1..];
      Insert(s[0], SortBy(s[1..], cmp), cmp)
  }

  /** `cmp` orders the elements of `s` consistently: any two compare, and "not after" is transitive. */
  ghost predicate Consistent<T>(s: seq<T>, cmp: (T, T) -> int) {
    && (forall x, y {:trigger cmp(x, y), cmp(y, x)} :: x in s && y in s ==> cmp(x, y) <= 0 || cmp(y, x) <= 0)
    && (forall x, y, z {:trigger cmp(x, y), cmp(y, z), cmp(x, z)} ::
          x in s && y in s && z in s && cmp(x, y) <= 0 && cmp(y, z) <= 0 ==> cmp(x, z) <= 0)
  }

  predicate SortedBy<T>(s: seq<T>, cmp: (T, T) -> int) {
    forall i, j :: 0 <= i < j < |s| ==> cmp(s[i], s[j]) <= 0
  }

  lemma ConsistentTail<T>(s: seq<T>, cmp: (T, T) -> int)
    requires s != [] && Consistent(s, cmp)
    ensures Consistent(s[1..], cmp)
  {
    forall x | x in s[1..] ensures x in s {
      assert x in s[1..];
    }
  }

  lemma {:induction false} InsertSorted<T>(x: T, s: seq<T>, cmp: (T, T) -> int, all: seq<T>)
    requires SortedBy(s, cmp) && Consistent(all, cmp)
    requires x in all && forall y :: y in s ==> y in all
    ensures SortedBy(Insert(x, s, cmp), cmp)
  {
    if s != [] && cmp(x, s[0]) > 0 {
      assert s[0] in s;
      forall y | y in s[1..] ensures y in all {
        assert y in s;
      }
      InsertSorted(x, s[1..], cmp, all);
      InsertAfterHead(x, s, cmp, all);
    } else if s != [] {
      InsertAtHead(x, s, cmp, all);
    }
  }

  lemma InsertAtHead<T>(x: T, s: seq<T>, cmp: (T, T) -> int, all: seq<T>)
    requires SortedBy(s, cmp) && Consistent(all, cmp)
    requires x in all && forall y :: y in s ==> y in all
    requires s != [] && cmp(x, s[0]) <= 0
    ensures SortedBy([x] + s, cmp)
  {
    forall k | 0 <= k < |s| ensures cmp(x, s[k]) <= 0 {
      assert s[0] in s && s[k] in s;
      assert cmp(s[0], s[k]) <= 0 || k == 0;
    }
    ConsSorted(x, s, cmp);
  }

  lemma InsertAfterHead<T>(x: T, s: seq<T>, cmp: (T, T) -> int, all: seq<T>)
    requires SortedBy(s, cmp) && Consistent(all, cmp)
    requires s != [] && x in all && s[0] in all
    requires cmp(x, s[0]) > 0
    requires SortedBy(Insert(x, s[1..], cmp), cmp)
    ensures SortedBy(Insert(x, s, cmp), cmp)
  {
    var t := Insert(x, s[1..], cmp);
    assert cmp(s[0], x) <= 0;
    forall k | 0 <= k < |s[1..]| ensures cmp(s[0], s[1..][k]) <= 0 {
      assert s[1..][k] == s[k + 1];
    }
    InsertBelow(s[0], x, s[1..], cmp);
    ConsSorted(s[0], t, cmp);
  }

  lemma ConsSorted<T>(h: T, t: seq<T>, cmp: (T, T) -> int)
    requires SortedBy(t, cmp) && forall k :: 0 <= k < |t| ==> cmp(h, t[k]) <= 0
    ensures SortedBy([h] + t, cmp)
  {
    var r := [h] + t;
    forall i, j | 0 <= i < j < |r| ensures cmp(r[i], r[j]) <= 0 {
      if i == 0 {
        assert r[j] == t[j - 1];
      } else {
        assert r[i] == t[i - 1] && r[j] == t[j - 1];
      }
    }
  }

  /** What every element of `s` and `x` may follow, every element of the insertion may follow. */
  lemma {:induction false} InsertBelow<T>(b: T, x: T, s: seq<T>, cmp: (T, T) -> int)
    requires cmp(b, x) <= 0 && forall k :: 0 <= k < |s| ==> cmp(b, s[k]) <= 0
    ensures forall k :: 0 <= k < |Insert(x, s, cmp)| ==> cmp(b, Insert(x, s, cmp)[k]) <= 0
  {
    if s != [] && cmp(x, s[0]) > 0 {
      InsertBelow(b, x, s[1..], cmp);
      var t := Insert(x, s[1..], cmp);
      var r := Insert(x, s, cmp);
      assert r == [s[0]] + t;
      forall k | 1 <= k < |r| ensures cmp(b, r[k]) <= 0 {
        assert r[k] == t[k - 1];
      }
    }
  }

  /** Under a consistent comparator the result is in order. */
  lemma {:induction false} SortBySorted<T>(s: seq<T>, cmp: (T, T) -> int)
    requires Consistent(s, cmp)
    ensures SortedBy(SortBy(s, cmp), cmp)
  {
    if s != [] {
      ConsistentTail(s, cmp);
      SortBySorted(s[1..], cmp);
      var t := SortBy(s[1..], cmp);
      forall y | y in t ensures y in s {
        assert y in multiset(t);
        assert y in multiset(s[1..]);
        assert y in s[1..];
      }
      InsertSorted(s[0], t, cmp, s);
    }
  }

  /** The elements of `s` that `cmp` ranks equal to `x`, in order. */
  function Ties<T>(s: seq<T>, x: T, cmp: (T, T) -> int): (r: seq<T>)
    ensures |r| <= |s|
  {
    if s == [] then []
    else if cmp(s[0], x) == 0 && cmp(x, s[0]) == 0 then [s[0]] + Ties(s[1..], x, cmp)
    else Ties(s[1..], x, cmp)
  }

  lemma {:induction false} InsertTies<T>(y: T, s: seq<T>, x: T, cmp: (T, T) -> int, all: seq<T>)
    requires Consistent(all, cmp) && x in all && y in all && forall z :: z in s ==> z in all
    ensures Ties(Insert(y, s, cmp), x, cmp) == Ties([y] + s, x, cmp)
  {
    var ys := [y] + s;
    assert ys[0] == y && ys[1..] == s;
    if s != [] && cmp(y, s[0]) > 0 {
      assert s[0] in s;
      forall z | z in s[1..] ensures z in all {
        assert z in s;
      }
      InsertTies(y, s[1..], x, cmp, all);
      var r := Insert(y, s, cmp);
      assert r[0] == s[0] && r[1..] == Insert(y, s[1..], cmp);
      var ys1 := [y] + s[1..];
      assert ys1[0] == y && ys1[1..] == s[1..];
      // s[0] and y cannot both tie with x: then y would not have to follow s[0].
      if cmp(s[0], x) == 0 && cmp(x, s[0]) == 0 {
        assert !(cmp(y, x) == 0 && cmp(x, y) == 0);
      }
    }
  }

  /**
   * Stability: the elements that tie with any `x` come out in the order they
   * went in.
   */
  lemma {:induction false} SortByStable<T>(s: seq<T>, x: T, cmp: (T, T) -> int)
    requires Consistent(s + [x], cmp)
    ensures Ties(SortBy(s, cmp), x, cmp) == Ties(s, x, cmp)
  {
    if s != [] {
      var all := s + [x];
      assert s[1..] + [x] == all[1..];
      ConsistentTail(all, cmp);
      SortByStable(s[1..], x, cmp);
      var t := SortBy(s[1..], cmp);
      forall z | z in t ensures z in all {
        assert z in multiset(t);
        assert z in multiset(s[1..]);
        assert z in s[1..];
        assert z == all[1..][IndexOf(s[1..], z)];
      }
      assert all[0] == s[0] && all[|s|] == x;
      InsertTies(s[0], t, x, cmp, all);
      var st := [s[0]] + t;
      assert st[0] == s[0] && st[1..] == t;
      assert s[0] == s[0] && s[1..] == s[1..];
    }
  }

  ghost function IndexOf<T>(s: seq<T>, z: T): (i: nat)
    requires z in s
    ensures i < |s| && s[i] == z
  {
    if s[0] == z then 0 else 1 + IndexOf(s[1..], z)
  }
}
