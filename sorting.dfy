/** Stable sorting by an integer key. This is the order that Python's
    `sorted` gives (it is stable) and the order the views rely on when the
    database sorts rows by a `Meta.ordering` field: rows with equal keys keep
    their relative order. */
module Sorting {

  /** `s` is in non-decreasing key order */
  ghost predicate Sorted<T>(s: seq<T>, key: T -> int) {
    forall i, j :: 0 <= i < j < |s| ==> key(s[i]) <= key(s[j])
  }

  /** Among elements of equal key, `rank` strictly increases: the tie order */
  ghost predicate TiesRanked<T>(s: seq<T>, key: T -> int, rank: T -> int) {
    forall i, j :: 0 <= i < j < |s| && key(s[i]) == key(s[j]) ==> rank(s[i]) < rank(s[j])
  }

  /** `rank` strictly increases along `s` */
  ghost predicate Ranked<T>(s: seq<T>, rank: T -> int) {
    forall i, j :: 0 <= i < j < |s| ==> rank(s[i]) < rank(s[j])
  }

  /** Places `x` in front of the first element whose key is not smaller. */
  function Insert<T>(x: T, s: seq<T>, key: T -> int): (r: seq<T>)
    ensures |r| == |s| + 1
    ensures multiset(r) == multiset(s) + multiset{x}
  {
    if s == [] || key(x) <= key(s[0]) then [x] + s
    else
      assert s == [s[0]] + s[1..];
      [s[0]] + Insert(x, s[1..], key)
  }

  /** Insertion sort: the first element goes in front of every later
      element of equal key, so the sort is stable. */
  function SortBy<T>(s: seq<T>, key: T -> int): (r: seq<T>)
    ensures |r| == |s|
    ensures multiset(r) == multiset(s)
  {
    if s == [] then []
    else
      assert s == [s[0]] + s[1..];
      Insert(s[0], SortBy(s[1..], key), key)
  }

  /** Membership after an insertion */
  lemma InsertMember<T>(x: T, s: seq<T>, key: T -> int, y: T)
    ensures y in Insert(x, s, key) <==> y == x || y in s
  {
    assert y in Insert(x, s, key) <==> y in multiset(Insert(x, s, key));
    assert y in s <==> y in multiset(s);
  }

  /** Sorting keeps exactly the elements it was given. */
  lemma SortByMember<T>(s: seq<T>, key: T -> int, y: T)
    ensures y in SortBy(s, key) <==> y in s
  {
    assert y in SortBy(s, key) <==> y in multiset(SortBy(s, key));
    assert y in s <==> y in multiset(s);
  }

  lemma {:induction false} InsertSorted<T>(x: T, s: seq<T>, key: T -> int)
    requires Sorted(s, key)
    ensures Sorted(Insert(x, s, key), key)
  {
    if s == [] || key(x) <= key(s[0]) {
    } else {
      InsertSorted(x, s[1..], key);
      var r := Insert(x, s, key);
      forall i, j | 0 <= i < j < |r| ensures key(r[i]) <= key(r[j]) {
        if i == 0 {
          assert r[j] in Insert(x, s[1..], key);
          InsertMember(x, s[1..], key, r[j]);
        }
      }
    }
  }

  /** The result of the sort is in key order. */
  lemma {:induction false} SortBySorted<T>(s: seq<T>, key: T -> int)
    ensures Sorted(SortBy(s, key), key)
  {
    if s != [] {
      SortBySorted(s[1..], key);
      InsertSorted(s[0], SortBy(s[1..], key), key);
    }
  }

  lemma {:induction false} InsertTiesRanked<T>(x: T, s: seq<T>, key: T -> int, rank: T -> int)
    requires Sorted(s, key) && TiesRanked(s, key, rank)
    requires forall y :: y in s ==> rank(x) < rank(y)
    ensures TiesRanked(Insert(x, s, key), key, rank)
  {
    if s == [] || key(x) <= key(s[0]) {
      var r := Insert(x, s, key);
      forall i, j | 0 <= i < j < |r| && key(r[i]) == key(r[j]) ensures rank(r[i]) < rank(r[j]) {
        if i == 0 {
          assert r[j] in s;
        }
      }
    } else {
      InsertTiesRanked(x, s[1..], key, rank);
      InsertSorted(x, s[1..], key);
      var r := Insert(x, s, key);
      forall i, j | 0 <= i < j < |r| && key(r[i]) == key(r[j]) ensures rank(r[i]) < rank(r[j]) {
        if i == 0 {
          assert r[j] in Insert(x, s[1..], key);
          InsertMember(x, s[1..], key, r[j]);
          if r[j] == x {
            assert false;
          } else {
            assert r[j] in s[1..];
            var k :| 0 <= k < |s[1..]| && s[1..][k] == r[j];
            assert s[1 + k] == r[j];
          }
        }
      }
    }
  }

  /** Stability: when the input is in `rank` order, elements of equal key
      leave the sort still in `rank` order. */
  lemma {:induction false} SortByStable<T>(s: seq<T>, key: T -> int, rank: T -> int)
    requires Ranked(s, rank)
    ensures TiesRanked(SortBy(s, key), key, rank)
  {
    if s != [] {
      assert Ranked(s[1..], rank);
      SortByStable(s[1..], key, rank);
      SortBySorted(s[1..], key);
      forall y | y in SortBy(s[1..], key) ensures rank(s[0]) < rank(y) {
        SortByMember(s[1..], key, y);
        var k :| 0 <= k < |s[1..]| && s[1..][k] == y;
        assert s[1 + k] == y;
      }
      InsertTiesRanked(s[0], SortBy(s[1..], key), key, rank);
    }
  }

  /** No element occurs twice */
  ghost predicate Distinct<T>(s: seq<T>) {
    forall i, j :: 0 <= i < j < |s| ==> s[i] != s[j]
  }

  lemma {:induction false} InsertDistinct<T>(x: T, s: seq<T>, key: T -> int)
    requires Distinct(s) && x !in s
    ensures Distinct(Insert(x, s, key))
  {
    if s == [] || key(x) <= key(s[0]) {
    } else {
      InsertDistinct(x, s[1..], key);
      var r := Insert(x, s, key);
      forall i, j | 0 <= i < j < |r| ensures r[i] != r[j] {
        if i == 0 {
          assert r[j] in Insert(x, s[1..], key);
          InsertMember(x, s[1..], key, r[j]);
          if r[j] != x {
            assert r[j] in s[1..];
            var k :| 0 <= k < |s[1..]| && s[1..][k] == r[j];
            assert s[1 + k] == r[j];
          }
        }
      }
    }
  }

  /** Sorting neither loses nor duplicates an element. */
  lemma {:induction false} SortByDistinct<T>(s: seq<T>, key: T -> int)
    requires Distinct(s)
    ensures Distinct(SortBy(s, key))
  {
    if s != [] {
      assert Distinct(s[1..]);
      SortByDistinct(s[1..], key);
      SortByMember(s[1..], key, s[0]);
      assert s[0] !in s[1..];
      InsertDistinct(s[0], SortBy(s[1..], key), key);
    }
  }

  /** Sum of `f` over a sequence */
  function SumBy<T>(s: seq<T>, f: T -> int): int {
    if s == [] then 0 else f(s[0]) + SumBy(s[1..], f)
  }

  lemma {:induction false} SumByAppend<T>(s: seq<T>, x: T, f: T -> int)
    ensures SumBy(s + [x], f) == SumBy(s, f) + f(x)
  {
    if s == [] {
      assert [x][1..] == [];
    } else {
      assert (s + [x])[1..] == s[1..] + [x];
      SumByAppend(s[1..], x, f);
    }
  }

  lemma {:induction false} InsertSum<T>(x: T, s: seq<T>, key: T -> int, f: T -> int)
    ensures SumBy(Insert(x, s, key), f) == f(x) + SumBy(s, f)
  {
    if s == [] || key(x) <= key(s[0]) {
    } else {
      InsertSum(x, s[1..], key, f);
    }
  }

  /** Sorting keeps every sum over the elements. */
  lemma {:induction false} SortBySum<T>(s: seq<T>, key: T -> int, f: T -> int)
    ensures SumBy(SortBy(s, key), f) == SumBy(s, f)
  {
    if s != [] {
      SortBySum(s[1..], key, f);
      InsertSum(s[0], SortBy(s[1..], key), key, f);
    }
  }
}
