/**
 Python's list `sort(key=...)` (stable, ascending) and slice `s[:n]`, as the
 ranking and final-selection phases use them.
 */
module Sorting {

  predicate SortedBy<T>(s: seq<T>, key: T -> real) {
    forall i, j :: 0 <= i < j < |s| ==> key(s[i]) <= key(s[j])
  }

  /** The elements of `s` whose key is exactly `k`, in their order in `s`. */
  function WithKey<T>(s: seq<T>, key: T -> real, k: real): seq<T> {
    if |s| == 0 then []
    else WithKey(s[..|s| - 1], key, k) + (if key(s[|s| - 1]) == k then [s[|s| - 1]] else [])
  }

  lemma WithKeySnoc<T>(s: seq<T>, x: T, key: T -> real, k: real)
    ensures WithKey(s + [x], key, k) == WithKey(s, key, k) + (if key(x) == k then [x] else [])
  {
    assert (s + [x])[..|s|] == s;
  }

  /** Places `x` right after the last element whose key is at most x's. */
  function Insert<T>(x: T, s: seq<T>, key: T -> real): seq<T> {
    if |s| == 0 || key(s[|s| - 1]) <= key(x) then s + [x]
    else Insert(x, s[..|s| - 1], key) + [s[|s| - 1]]
  }

  /** A stable insertion sort by ascending key. */
  function SortBy<T>(s: seq<T>, key: T -> real): seq<T> {
    if |s| == 0 then []
    else Insert(s[|s| - 1], SortBy(s[..|s| - 1], key), key)
  }

  lemma {:induction false} InsertKeepsElements<T>(x: T, s: seq<T>, key: T -> real)
    ensures multiset(Insert(x, s, key)) == multiset(s) + multiset{x}
  {
    if |s| > 0 && key(s[|s| - 1]) > key(x) {
      var init := s[..|s| - 1];
      InsertKeepsElements(x, init, key);
      assert s == init + [s[|s| - 1]];
    }
  }

  /** An upper bound on every key, the inserted one included, bounds the result. */
  lemma {:induction false} InsertBounded<T>(x: T, s: seq<T>, key: T -> real, bound: real)
    requires forall i :: 0 <= i < |s| ==> key(s[i]) <= bound
    requires key(x) <= bound
    ensures forall i :: 0 <= i < |Insert(x, s, key)| ==> key(Insert(x, s, key)[i]) <= bound
  {
    if |s| > 0 && key(s[|s| - 1]) > key(x) {
      var init := s[..|s| - 1];
      assert forall i :: 0 <= i < |init| ==> init[i] == s[i];
      InsertBounded(x, init, key, bound);
    }
  }

  lemma {:induction false} InsertSorted<T>(x: T, s: seq<T>, key: T -> real)
    requires SortedBy(s, key)
    ensures SortedBy(Insert(x, s, key), key)
  {
    var r := Insert(x, s, key);
    if |s| == 0 || key(s[|s| - 1]) <= key(x) {
      forall i, j | 0 <= i < j < |r| ensures key(r[i]) <= key(r[j]) {
        if j == |s| {
          assert key(s[i]) <= key(s[|s| - 1]) || i == |s| - 1;
        }
      }
    } else {
      var init := s[..|s| - 1];
      var last := s[|s| - 1];
      var front := Insert(x, init, key);
      assert forall i :: 0 <= i < |init| ==> init[i] == s[i];
      InsertSorted(x, init, key);
      InsertBounded(x, init, key, key(last));
      assert r == front + [last];
      forall i, j | 0 <= i < j < |r| ensures key(r[i]) <= key(r[j]) {
        assert r[i] == front[i];
        if j < |front| {
          assert r[j] == front[j];
        }
      }
    }
  }

  lemma {:induction false} InsertIsStable<T>(x: T, s: seq<T>, key: T -> real, k: real)
    requires SortedBy(s, key)
    ensures WithKey(Insert(x, s, key), key, k) == WithKey(s, key, k) + (if key(x) == k then [x] else [])
  {
    if |s| == 0 || key(s[|s| - 1]) <= key(x) {
      WithKeySnoc(s, x, key, k);
    } else {
      var init := s[..|s| - 1];
      var last := s[|s| - 1];
      assert SortedBy(init, key);
      InsertIsStable(x, init, key, k);
      WithKeySnoc(Insert(x, init, key), last, key, k);
      assert s == init + [last];
      WithKeySnoc(init, last, key, k);
      var before := WithKey(init, key, k);
      if key(x) == k {
        assert key(last) != k;
        assert WithKey(Insert(x, s, key), key, k) == before + [x];
        assert WithKey(s, key, k) == before;
      } else {
        assert WithKey(Insert(x, init, key), key, k) == before;
      }
    }
  }

  /**
   The sort is a stable ascending sort: its output is ordered by key, is a
   permutation of the input, and lists the elements of every key value in
   their input order.
   */
  lemma {:induction false} SortByCorrect<T>(s: seq<T>, key: T -> real)
    ensures SortedBy(SortBy(s, key), key)
    ensures multiset(SortBy(s, key)) == multiset(s)
    ensures forall k :: WithKey(SortBy(s, key), key, k) == WithKey(s, key, k)
  {
    if |s| > 0 {
      var init := s[..|s| - 1];
      var last := s[|s| - 1];
      SortByCorrect(init, key);
      var sorted := SortBy(init, key);
      InsertSorted(last, sorted, key);
      InsertKeepsElements(last, sorted, key);
      assert s == init + [last];
      forall k ensures WithKey(SortBy(s, key), key, k) == WithKey(s, key, k) {
        InsertIsStable(last, sorted, key, k);
        WithKeySnoc(init, last, key, k);
      }
    }
  }

  /** Python's slice `s[:n]`, negative `n` counting from the end. */
  function Take<T>(s: seq<T>, n: int): (r: seq<T>)
    ensures r <= s
    ensures n >= 0 ==> |r| == (if n < |s| then n else |s|)
    ensures n < 0 ==> |r| == (if |s| + n > 0 then |s| + n else 0)
  {
    if n >= 0 then (if n < |s| then s[..n] else s)
    else if |s| + n > 0 then s[..|s| + n] else []
  }

  /**
   Cutting a sorted list keeps the best: any element of `s` strictly better
   than some kept element is itself kept.
   */
  lemma TakeKeepsSmaller<T>(s: seq<T>, n: int, key: T -> real)
    requires SortedBy(s, key)
    ensures forall i, x :: 0 <= i < |Take(s, n)| && x in s && key(x) < key(Take(s, n)[i]) ==> x in Take(s, n)
  {
    var r := Take(s, n);
    forall i, x | 0 <= i < |r| && x in s && key(x) < key(r[i]) ensures x in r {
      var p :| 0 <= p < |s| && s[p] == x;
      assert r[i] == s[i];
      assert r[p] == s[p];
    }
  }
}
