/**
 * LINQ `OrderBy(key)` on an integer key: a stable sort (equal keys keep their
 * input order). The core orders Discogs track lists by position and search hits
 * by year, and playlist rows by creation date.
 */
module Sorting {

  /** Non-decreasing by `key`. */
  ghost predicate SortedBy<T>(s: seq<T>, key: T -> int) {
    forall i, j :: 0 <= i < j < |s| ==> key(s[i]) <= key(s[j])
  }

  /** Puts `x` after every element whose key is at most its own, so equal keys keep their order. */
  function Insert<T>(x: T, s: seq<T>, key: T -> int): (r: seq<T>)
    ensures |r| == |s| + 1
  {
    if |s| == 0 then [x]
    else if key(s[|s| - 1]) <= key(x) then s + [x]
    else Insert(x, s[..|s| - 1], key) + [s[|s| - 1]]
  }

  /** `s.OrderBy(key)`: each element in turn is inserted into the sorted prefix. */
  function SortBy<T>(s: seq<T>, key: T -> int): (r: seq<T>)
    ensures |r| == |s|
  {
    if |s| == 0 then [] else Insert(s[|s| - 1], SortBy(s[..|s| - 1], key), key)
  }

  lemma {:induction false} InsertMultiset<T>(x: T, s: seq<T>, key: T -> int)
    ensures multiset(Insert(x, s, key)) == multiset(s) + multiset{x}
  {
    if |s| > 0 && key(s[|s| - 1]) > key(x) {
      InsertMultiset(x, s[..|s| - 1], key);
      assert s == s[..|s| - 1] + [s[|s| - 1]];
    }
  }

  lemma {:induction false} InsertElements<T>(x: T, s: seq<T>, key: T -> int)
    ensures forall k :: 0 <= k < |Insert(x, s, key)| ==> Insert(x, s, key)[k] == x || Insert(x, s, key)[k] in s
  {
    if |s| > 0 && key(s[|s| - 1]) > key(x) {
      InsertElements(x, s[..|s| - 1], key);
    }
  }

  lemma {:induction false} InsertSorted<T>(x: T, s: seq<T>, key: T -> int)
    requires SortedBy(s, key)
    ensures SortedBy(Insert(x, s, key), key)
  {
    if |s| > 0 && key(s[|s| - 1]) > key(x) {
      var last := s[|s| - 1];
      var init := s[..|s| - 1];
      InsertSorted(x, init, key);
      InsertElements(x, init, key);
      var r := Insert(x, init, key);
      forall k | 0 <= k < |r|
        ensures key(r[k]) <= key(last)
      {
        if r[k] != x {
          var i :| 0 <= i < |init| && init[i] == r[k];
          assert key(s[i]) <= key(s[|s| - 1]);
        }
      }
    }
  }

  /** The result of `SortBy` is ordered by the key. */
  lemma {:induction false} SortBySorted<T>(s: seq<T>, key: T -> int)
    ensures SortedBy(SortBy(s, key), key)
  {
    if |s| > 0 {
      SortBySorted(s[..|s| - 1], key);
      InsertSorted(s[|s| - 1], SortBy(s[..|s| - 1], key), key);
    }
  }

  /** The result of `SortBy` is a permutation of its input: same elements with the same multiplicities. */
  lemma {:induction false} SortByPermutation<T>(s: seq<T>, key: T -> int)
    ensures multiset(SortBy(s, key)) == multiset(s)
  {
    if |s| > 0 {
      var init := s[..|s| - 1];
      SortByPermutation(init, key);
      InsertMultiset(s[|s| - 1], SortBy(init, key), key);
      assert s == init + [s[|s| - 1]];
    }
  }

  /** Index of the first element with the least key. */
  function FirstMinIndex<T>(s: seq<T>, key: T -> int): (m: nat)
    requires |s| > 0
    ensures m < |s|
    ensures forall j :: 0 <= j < |s| ==> key(s[m]) <= key(s[j])
    ensures forall j :: 0 <= j < m ==> key(s[j]) > key(s[m])
  {
    if |s| == 1 then 0
    else
      var m := FirstMinIndex(s[..|s| - 1], key);
      if key(s[|s| - 1]) < key(s[m]) then |s| - 1 else m
  }

  /** Inserting into a sorted sequence keeps its head unless `x` has a smaller key. */
  lemma {:induction false} InsertHead<T>(x: T, s: seq<T>, key: T -> int)
    requires |s| > 0 && SortedBy(s, key)
    ensures Insert(x, s, key)[0] == if key(s[0]) <= key(x) then s[0] else x
  {
    if key(s[|s| - 1]) > key(x) && |s| > 1 {
      var init := s[..|s| - 1];
      assert SortedBy(init, key);
      InsertHead(x, init, key);
    }
  }

  /**
   * Stability at the head: `OrderBy(key).First()` is the first element of the
   * input whose key is least.
   */
  lemma {:induction false} SortByHead<T>(s: seq<T>, key: T -> int)
    requires |s| > 0
    ensures SortBy(s, key)[0] == s[FirstMinIndex(s, key)]
  {
    if |s| > 1 {
      var init := s[..|s| - 1];
      SortByHead(init, key);
      SortBySorted(init, key);
      InsertHead(s[|s| - 1], SortBy(init, key), key);
    }
  }
}
