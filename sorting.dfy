/** `Array.prototype.sort` with a numeric comparator `(a, b) => key(a) - key(b)`,
    as the analytics service calls it on a copy. The engine's sort is
    stable, so it is modelled by a stable insertion sort. */
module Sorting {
  predicate SortedBy<T>(s: seq<T>, key: T -> int) {
    forall i, j :: 0 <= i < j < |s| ==> key(s[i]) <= key(s[j])
  }

  /** `x` placed before the first element whose key is not smaller. */
  function InsertBy<T>(x: T, s: seq<T>, key: T -> int): (r: seq<T>)
    ensures |r| == |s| + 1
  {
    if s == [] || key(x) <= key(s[0]) then [x] + s else [s[0]] + InsertBy(x, s[1..], key)
  }

  function SortBy<T>(s: seq<T>, key: T -> int): (r: seq<T>)
    ensures |r| == |s|
  {
    if s == [] then [] else InsertBy(s[0], SortBy(s[1..], key), key)
  }

  lemma {:induction false} InsertByPermutes<T>(x: T, s: seq<T>, key: T -> int)
    ensures multiset(InsertBy(x, s, key)) == multiset{x} + multiset(s)
  {
    if s != [] && key(x) > key(s[0]) {
      InsertByPermutes(x, s[1..], key);
      assert s == [s[0]] + s[1..];
    }
  }

  lemma {:induction false} InsertBySorted<T>(x: T, s: seq<T>, key: T -> int)
    requires SortedBy(s, key)
    ensures SortedBy(InsertBy(x, s, key), key)
  {
    if s != [] && key(x) > key(s[0]) {
      InsertBySorted(x, s[1..], key);
      InsertByPermutes(x, s[1..], key);
      var r := InsertBy(x, s[1..], key);
      forall k | 0 <= k < |r| ensures key(s[0]) <= key(r[k]) {
        assert r[k] in multiset(r);
        if r[k] != x {
          assert r[k] in multiset(s[1..]);
          var j :| 0 <= j < |s[1..]| && s[1..][j] == r[k];
          assert s[1..][j] == s[j + 1];
        }
      }
    }
  }

  /** The result is ordered by the key. */
  lemma {:induction false} SortBySorted<T>(s: seq<T>, key: T -> int)
    ensures SortedBy(SortBy(s, key), key)
  {
    if s != [] {
      SortBySorted(s[1..], key);
      InsertBySorted(s[0], SortBy(s[1..], key), key);
    }
  }

  /** The result holds the same elements, each as often. */
  lemma {:induction false} SortByPermutes<T>(s: seq<T>, key: T -> int)
    ensures multiset(SortBy(s, key)) == multiset(s)
  {
    if s != [] {
      SortByPermutes(s[1..], key);
      InsertByPermutes(s[0], SortBy(s[1..], key), key);
      assert s == [s[0]] + s[1..];
    }
  }

  /** An ordered list is returned as it is. */
  lemma {:induction false} SortBySortedInput<T>(s: seq<T>, key: T -> int)
    requires SortedBy(s, key)
    ensures SortBy(s, key) == s
  {
    if s != [] {
      SortBySortedInput(s[1..], key);
      assert s == [s[0]] + s[1..];
    }
  }

  /** The elements whose key is `k`, in the order they appear. */
  function KeyRun<T>(s: seq<T>, key: T -> int, k: int): (r: seq<T>)
    ensures |r| <= |s| && forall i :: 0 <= i < |r| ==> key(r[i]) == k
  {
    if s == [] then [] else (if key(s[0]) == k then [s[0]] else []) + KeyRun(s[1..], key, k)
  }

  /** Insertion puts `x` ahead of the elements of equal key. */
  lemma {:induction false} InsertByRun<T>(x: T, s: seq<T>, key: T -> int, k: int)
    ensures KeyRun(InsertBy(x, s, key), key, k) == (if key(x) == k then [x] else []) + KeyRun(s, key, k)
  {
    if s == [] || key(x) <= key(s[0]) {
      assert ([x] + s)[1..] == s;
    } else {
      InsertByRun(x, s[1..], key, k);
      assert ([s[0]] + InsertBy(x, s[1..], key))[1..] == InsertBy(x, s[1..], key);
    }
  }

  /** The sort is stable: the elements of any one key keep their input
      order. */
  lemma {:induction false} SortByStable<T>(s: seq<T>, key: T -> int, k: int)
    ensures KeyRun(SortBy(s, key), key, k) == KeyRun(s, key, k)
  {
    if s != [] {
      SortByStable(s[1..], key, k);
      InsertByRun(s[0], SortBy(s[1..], key), key, k);
    }
  }

  predicate IntsSorted(s: seq<int>) {
    forall i, j :: 0 <= i < j < |s| ==> s[i] <= s[j]
  }

  /** Numbers in ascending order: `[...values].sort((a, b) => a - b)`. */
  function SortInts(s: seq<int>): (r: seq<int>)
    ensures |r| == |s|
  {
    SortBy(s, x => x)
  }

  /** The ascending result is ordered, a permutation of the input, and the
      identity on ordered input. */
  lemma SortIntsSpec(s: seq<int>)
    ensures IntsSorted(SortInts(s)) && multiset(SortInts(s)) == multiset(s)
    ensures IntsSorted(s) ==> SortInts(s) == s
  {
    var id := (x: int) => x;
    SortBySorted(s, id);
    SortByPermutes(s, id);
    assert SortedBy(s, id) <==> IntsSorted(s);
    if IntsSorted(s) {
      SortBySortedInput(s, id);
    }
  }

  /** The first and last elements of an ordered list bound all the others. */
  lemma SortedBounds(s: seq<int>, x: int)
    requires IntsSorted(s) && x in s
    ensures s[0] <= x <= s[|s| - 1]
  {
    var i :| 0 <= i < |s| && s[i] == x;
  }
}
