/**
 * Python's `list.sort(key=...)` and `sorted(..., key=...)`: a stable sort by
 * a numeric key. `reverse=True` keeps equal elements in their original order
 * too, so it is the same sort on the negated key.
 */
module Sorting {
  predicate SortedBy<T>(s: seq<T>, key: T -> real) {
    forall i, j :: 0 <= i < j < |s| ==> key(s[i]) <= key(s[j])
  }

  /** The elements of `s` whose key is `k`, in their order in `s`. */
  function WithKey<T>(s: seq<T>, key: T -> real, k: real): seq<T> {
    if s == [] then [] else (if key(s[0]) == k then [s[0]] else []) + WithKey(s[1..], key, k)
  }

  /** `x` goes before the first element whose key is not smaller than its own. */
  function Insert<T>(x: T, s: seq<T>, key: T -> real): seq<T> {
    if s == [] || key(x) <= key(s[0]) then [x] + s else [s[0]] + Insert(x, s[1..], key)
  }

  /** Stable insertion sort: each element is inserted into the sorted rest of the list. */
  function SortBy<T>(xs: seq<T>, key: T -> real): seq<T> {
    if xs == [] then [] else Insert(xs[0], SortBy(xs[1..], key), key)
  }

  lemma {:induction false} InsertPermutation<T>(x: T, s: seq<T>, key: T -> real)
    ensures multiset(Insert(x, s, key)) == multiset{x} + multiset(s)
    ensures |Insert(x, s, key)| == |s| + 1
  {
    if s != [] && key(x) > key(s[0]) {
      InsertPermutation(x, s[1..], key);
      assert s == [s[0]] + s[1..];
    }
  }

  lemma {:induction false} InsertLowerBound<T>(x: T, s: seq<T>, key: T -> real, m: real)
    requires m <= key(x)
    requires forall i :: 0 <= i < |s| ==> m <= key(s[i])
    ensures forall i :: 0 <= i < |Insert(x, s, key)| ==> m <= key(Insert(x, s, key)[i])
  {
    if s != [] && key(x) > key(s[0]) {
      InsertLowerBound(x, s[1..], key, m);
      var r := Insert(x, s[1..], key);
      forall i | 0 <= i < |[s[0]] + r| ensures m <= key(([s[0]] + r)[i]) {
        if i > 0 { assert ([s[0]] + r)[i] == r[i - 1]; }
      }
    }
  }

  lemma {:induction false} InsertSorted<T>(x: T, s: seq<T>, key: T -> real)
    requires SortedBy(s, key)
    ensures SortedBy(Insert(x, s, key), key)
  {
    if s != [] && key(x) > key(s[0]) {
      InsertSorted(x, s[1..], key);
      InsertLowerBound(x, s[1..], key, key(s[0]));
      var r := Insert(x, s[1..], key);
      forall i, j | 0 <= i < j < |[s[0]] + r| ensures key(([s[0]] + r)[i]) <= key(([s[0]] + r)[j]) {
        if i == 0 { assert ([s[0]] + r)[j] == r[j - 1]; }
        else { assert ([s[0]] + r)[i] == r[i - 1] && ([s[0]] + r)[j] == r[j - 1]; }
      }
    } else {
      forall i, j | 0 <= i < j < |[x] + s| ensures key(([x] + s)[i]) <= key(([x] + s)[j]) {
        if i > 0 { assert ([x] + s)[i] == s[i - 1]; }
        assert ([x] + s)[j] == s[j - 1];
      }
    }
  }

  /** The result is sorted, a permutation of the input, and as long. */
  lemma {:induction false} SortBySortedPermutation<T>(xs: seq<T>, key: T -> real)
    ensures SortedBy(SortBy(xs, key), key)
    ensures multiset(SortBy(xs, key)) == multiset(xs)
    ensures |SortBy(xs, key)| == |xs|
  {
    SortBySorted(xs, key);
    SortByPermutation(xs, key);
  }

  lemma {:induction false} SortBySorted<T>(xs: seq<T>, key: T -> real)
    ensures SortedBy(SortBy(xs, key), key)
  {
    if xs != [] {
      SortBySorted(xs[1..], key);
      InsertSorted(xs[0], SortBy(xs[1..], key), key);
    }
  }

  lemma {:induction false} SortByPermutation<T>(xs: seq<T>, key: T -> real)
    ensures multiset(SortBy(xs, key)) == multiset(xs)
    ensures |SortBy(xs, key)| == |xs|
  {
    if xs != [] {
      SortByPermutation(xs[1..], key);
      InsertPermutation(xs[0], SortBy(xs[1..], key), key);
      assert xs == [xs[0]] + xs[1..];
    }
  }

  lemma {:induction false} InsertWithKey<T>(x: T, s: seq<T>, key: T -> real, k: real)
    requires SortedBy(s, key)
    ensures WithKey(Insert(x, s, key), key, k) == (if key(x) == k then [x] else []) + WithKey(s, key, k)
  {
    if s == [] || key(x) <= key(s[0]) {
      assert ([x] + s)[1..] == s;
    } else {
      var rest := s[1..];
      assert SortedBy(rest, key);
      InsertWithKey(x, rest, key, k);
      var ins := Insert(x, rest, key);
      var head := if key(s[0]) == k then [s[0]] else [];
      assert ([s[0]] + ins)[1..] == ins;
      assert WithKey(Insert(x, s, key), key, k) == head + WithKey(ins, key, k);
      assert WithKey(s, key, k) == head + WithKey(rest, key, k);
      if key(x) == k {
        assert head == [];
        assert WithKey(ins, key, k) == [x] + WithKey(rest, key, k);
      } else {
        assert WithKey(ins, key, k) == WithKey(rest, key, k);
      }
    }
  }

  /** Stability: among elements with equal keys the input order is kept. */
  lemma {:induction false} SortByStable<T>(xs: seq<T>, key: T -> real, k: real)
    ensures WithKey(SortBy(xs, key), key, k) == WithKey(xs, key, k)
  {
    if xs != [] {
      SortByStable(xs[1..], key, k);
      SortBySorted(xs[1..], key);
      InsertWithKey(xs[0], SortBy(xs[1..], key), key, k);
    }
  }
}
