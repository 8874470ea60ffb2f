/** Python's `collections.Counter` built from a list of tags, and its
    `most_common`. A Counter remembers its keys in the order they first
    occur; `most_common()` sorts its (key, count) items by decreasing count
    with a stable sort, so equal counts stay in first-occurrence order, and
    `most_common(n)` is the first `n` items of that order. */
module Tally {
  import opened Sorting

  /** Number of occurrences of `x` in `s` */
  function Count<T(==)>(s: seq<T>, x: T): (n: nat)
    ensures n <= |s|
    ensures n > 0 <==> x in s
  {
    if s == [] then 0
    else
      assert s == s[..|s| - 1] + [s[|s| - 1]];
      Count(s[..|s| - 1], x) + (if s[|s| - 1] == x then 1 else 0)
  }

  /** Position of the first occurrence of `x` in `s`, or `|s|` when absent */
  function FirstIndex<T(==)>(s: seq<T>, x: T): (i: nat)
    ensures i <= |s|
    ensures i < |s| <==> x in s
    ensures i < |s| ==> s[i] == x
    ensures forall j :: 0 <= j < i && j < |s| ==> s[j] != x
  {
    if s == [] then 0
    else
      assert s == s[..|s| - 1] + [s[|s| - 1]];
      if x in s[..|s| - 1] then FirstIndex(s[..|s| - 1], x)
      else if s[|s| - 1] == x then |s| - 1
      else |s|
  }

  /** The keys of `Counter(s)`, in the order they were first seen */
  function Keys<T(==)>(s: seq<T>): (ks: seq<T>)
    ensures forall i :: 0 <= i < |ks| ==> ks[i] in s
  {
    if s == [] then []
    else
      var p := s[..|s| - 1];
      assert s == p + [s[|s| - 1]];
      var ks := Keys(p);
      if s[|s| - 1] in ks then ks else ks + [s[|s| - 1]]
  }

  /** The keys come in first-occurrence order, so none is repeated. */
  lemma {:induction false} KeysRanked<T>(s: seq<T>)
    ensures Ranked(Keys(s), k => FirstIndex(s, k))
    ensures Distinct(Keys(s))
  {
    if s != [] {
      var p := s[..|s| - 1];
      var x := s[|s| - 1];
      assert s == p + [x];
      KeysRanked(p);
      var ks := Keys(p);
      assert forall i :: 0 <= i < |ks| ==> FirstIndex(s, ks[i]) == FirstIndex(p, ks[i]) < |p|;
      if x !in ks {
        assert x !in p by {
          if x in p { KeysComplete(p, x); }
        }
        assert FirstIndex(s, x) == |p|;
      }
    }
  }

  /** Every tag of `s` is a key of the Counter. */
  lemma {:induction false} KeysComplete<T>(s: seq<T>, x: T)
    requires x in s
    ensures x in Keys(s)
  {
    var p := s[..|s| - 1];
    assert s == p + [s[|s| - 1]];
    if x in p {
      KeysComplete(p, x);
    }
  }

  /** One item of a Counter: a key and its number of occurrences */
  datatype Entry<T> = Entry(key: T, count: nat)

  function EntriesFor<T(==)>(s: seq<T>, ks: seq<T>): seq<Entry<T>> {
    seq(|ks|, i requires 0 <= i < |ks| => Entry(ks[i], Count(s, ks[i])))
  }

  /** The items of `Counter(s)` in insertion order */
  function Counter<T(==)>(s: seq<T>): seq<Entry<T>> {
    EntriesFor(s, Keys(s))
  }

  function EntryCount<T>(e: Entry<T>): int { e.count }

  function NegCount<T>(e: Entry<T>): int { -(e.count as int) }

  /** `Counter(s).most_common()` */
  function MostCommon<T(==)>(s: seq<T>): seq<Entry<T>> {
    SortBy(Counter(s), NegCount)
  }

  /** `Counter(s).most_common(n)` */
  function MostCommonN<T(==)>(s: seq<T>, n: nat): (r: seq<Entry<T>>)
    ensures |r| <= n
    ensures r <= MostCommon(s)
    ensures |r| == n || r == MostCommon(s)
  {
    var all := MostCommon(s);
    all[..if n < |all| then n else |all|]
  }

  lemma {:induction false} EntriesForStep<T>(s: seq<T>, x: T, ks: seq<T>)
    requires Distinct(ks)
    ensures SumBy(EntriesFor(s + [x], ks), EntryCount)
            == SumBy(EntriesFor(s, ks), EntryCount) + (if x in ks then 1 else 0)
  {
    assert (s + [x])[..|s + [x]| - 1] == s;
    if ks != [] {
      var q := ks[..|ks| - 1];
      var k := ks[|ks| - 1];
      assert ks == q + [k];
      assert Distinct(q);
      EntriesForStep(s, x, q);
      assert EntriesFor(s + [x], ks) == EntriesFor(s + [x], q) + [Entry(k, Count(s + [x], k))];
      assert EntriesFor(s, ks) == EntriesFor(s, q) + [Entry(k, Count(s, k))];
      SumByAppend(EntriesFor(s + [x], q), Entry(k, Count(s + [x], k)), EntryCount);
      SumByAppend(EntriesFor(s, q), Entry(k, Count(s, k)), EntryCount);
      assert x in ks <==> x in q || x == k;
      assert x == k ==> x !in q;
    }
  }

  /** The counts of a Counter add up to the length of the list it counted. */
  lemma {:induction false} CounterTotal<T>(s: seq<T>)
    ensures SumBy(Counter(s), EntryCount) == |s|
  {
    if s != [] {
      var p := s[..|s| - 1];
      var x := s[|s| - 1];
      assert s == p + [x];
      CounterTotal(p);
      KeysRanked(p);
      EntriesForStep(p, x, Keys(p));
      if x in Keys(p) {
        assert Keys(s) == Keys(p);
      } else {
        assert x !in p by {
          if x in p { KeysComplete(p, x); }
        }
        assert Keys(s) == Keys(p) + [x];
        assert Counter(s) == EntriesFor(s, Keys(p)) + [Entry(x, Count(s, x))];
        SumByAppend(EntriesFor(s, Keys(p)), Entry(x, Count(s, x)), EntryCount);
        assert Count(s, x) == Count(p, x) + 1;
      }
    }
  }

  /** Each item of `most_common()` is a tag of the list with its exact count. */
  lemma MostCommonExact<T>(s: seq<T>, i: nat)
    requires i < |MostCommon(s)|
    ensures MostCommon(s)[i].key in s
    ensures MostCommon(s)[i].count == Count(s, MostCommon(s)[i].key)
  {
    SortByMember(Counter(s), NegCount, MostCommon(s)[i]);
  }

  /** Every tag of the list has an item in `most_common()`. */
  lemma {:induction false} MostCommonComplete<T>(s: seq<T>, x: T)
    requires x in s
    ensures Entry(x, Count(s, x)) in MostCommon(s)
  {
    KeysComplete(s, x);
    var ks := Keys(s);
    var j :| 0 <= j < |ks| && ks[j] == x;
    assert Counter(s)[j] == Entry(x, Count(s, x));
    SortByMember(Counter(s), NegCount, Entry(x, Count(s, x)));
  }

  /** No tag has two items in `most_common()`. */
  lemma {:induction false} MostCommonKeysDistinct<T>(s: seq<T>)
    ensures forall i, j :: 0 <= i < j < |MostCommon(s)| ==> MostCommon(s)[i].key != MostCommon(s)[j].key
  {
    var c := Counter(s);
    KeysRanked(s);
    assert Distinct(c);
    SortByDistinct(c, NegCount);
    forall i, j | 0 <= i < j < |MostCommon(s)| ensures MostCommon(s)[i].key != MostCommon(s)[j].key {
      MostCommonExact(s, i);
      MostCommonExact(s, j);
    }
  }

  /** `most_common()` lists counts from the largest down. */
  lemma {:induction false} MostCommonDescending<T>(s: seq<T>)
    ensures forall i, j :: 0 <= i < j < |MostCommon(s)| ==> MostCommon(s)[i].count >= MostCommon(s)[j].count
  {
    SortBySorted(Counter(s), NegCount);
  }

  /** Equal counts stay in the order their tags first occur. */
  lemma {:induction false} MostCommonTies<T>(s: seq<T>)
    ensures forall i, j :: 0 <= i < j < |MostCommon(s)| && MostCommon(s)[i].count == MostCommon(s)[j].count
              ==> FirstIndex(s, MostCommon(s)[i].key) < FirstIndex(s, MostCommon(s)[j].key)
  {
    var rank := (e: Entry<T>) => FirstIndex(s, e.key);
    var ks := Keys(s);
    KeysRanked(s);
    assert Ranked(Counter(s), rank) by {
      assert Ranked(ks, k => FirstIndex(s, k));
      forall i, j | 0 <= i < j < |ks| ensures rank(Counter(s)[i]) < rank(Counter(s)[j]) {
        assert (k => FirstIndex(s, k))(ks[i]) < (k => FirstIndex(s, k))(ks[j]);
      }
    }
    SortByStable(Counter(s), NegCount, rank);
    var r := MostCommon(s);
    forall i, j | 0 <= i < j < |r| && r[i].count == r[j].count
      ensures FirstIndex(s, r[i].key) < FirstIndex(s, r[j].key)
    {
      assert NegCount(r[i]) == NegCount(r[j]);
      assert rank(r[i]) < rank(r[j]);
    }
  }

  /** The counts of `most_common()` add up to the length of the list. */
  lemma MostCommonTotal<T>(s: seq<T>)
    ensures SumBy(MostCommon(s), EntryCount) == |s|
  {
    CounterTotal(s);
    SortBySum(Counter(s), NegCount, EntryCount);
  }

  /** `most_common()` is empty exactly when the list is. */
  lemma MostCommonEmpty<T>(s: seq<T>)
    ensures MostCommon(s) == [] <==> s == []
  {
    if s != [] {
      MostCommonComplete(s, s[0]);
    }
  }

  /** No tag left out of `most_common(n)` occurs more often than a tag
      kept in it. */
  lemma {:induction false} MostCommonNTop<T>(s: seq<T>, n: nat, x: T)
    requires x in s
    requires forall i :: 0 <= i < |MostCommonN(s, n)| ==> MostCommonN(s, n)[i].key != x
    ensures forall i :: 0 <= i < |MostCommonN(s, n)| ==> Count(s, x) <= MostCommonN(s, n)[i].count
  {
    var all := MostCommon(s);
    var top := MostCommonN(s, n);
    MostCommonComplete(s, x);
    var j :| 0 <= j < |all| && all[j] == Entry(x, Count(s, x));
    assert j >= |top|;
    MostCommonDescending(s);
    forall i | 0 <= i < |top| ensures Count(s, x) <= top[i].count {
      assert top[i] == all[i];
    }
  }

  /** The tag `most_common(1)` returns for a non-empty list */
  function Plurality<T(==)>(s: seq<T>): T
    requires s != []
  {
    MostCommonEmpty(s);
    MostCommon(s)[0].key
  }

  /** The plurality vote: the chosen tag occurs in the list, no tag occurs
      more often, and among tags that occur as often it is the one that
      occurs first. */
  lemma {:induction false} PluralityIsFirstMaximum<T>(s: seq<T>, x: T)
    requires s != [] && x in s
    ensures Plurality(s) in s
    ensures Count(s, x) <= Count(s, Plurality(s))
    ensures Count(s, x) == Count(s, Plurality(s)) ==> FirstIndex(s, Plurality(s)) <= FirstIndex(s, x)
  {
    var r := MostCommon(s);
    MostCommonEmpty(s);
    MostCommonExact(s, 0);
    MostCommonComplete(s, x);
    var j :| 0 <= j < |r| && r[j] == Entry(x, Count(s, x));
    if j > 0 {
      MostCommonDescending(s);
      MostCommonTies(s);
    }
  }
}
