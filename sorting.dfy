/**
 * Python's `sorted(xs, key=f)` and `list.sort(key=f)`: a stable sort.
 * `reverse=True` keeps stability too (equal keys stay in input order), so a
 * descending sort is the ascending sort on the negated key.
 */
module Sorting {

  predicate SortedBy<T>(s: seq<T>, key: T -> real) {
    forall i, j :: 0 <= i < j < |s| ==> key(s[i]) <= key(s[j])
  }

  /** The elements of `s` whose key is `k`, in order. */
  function WithKey<T>(s: seq<T>, key: T -> real, k: real): (r: seq<T>)
    ensures |r| <= |s|
  {
    if s == [] then [] else (if key(s[0]) == k then [s[0]] else []) + WithKey(s[1..], key, k)
  }

  /** Puts `x` in front of the first element whose key is not smaller than its own. */
  function Insert<T>(x: T, s: seq<T>, key: T -> real): (r: seq<T>)
    ensures |r| == |s| + 1
  {
    if s == [] || key(x) <= key(s[0]) then [x] + s else [s[0]] + Insert(x, s[1..], key)
  }

  /** `sorted(s, key=key)` */
  function SortBy<T>(s: seq<T>, key: T -> real): (r: seq<T>)
    ensures |r| == |s|
  {
    if s == [] then [] else Insert(s[0], SortBy(s[1..], key), key)
  }

  /** The key that orders descending. */
  function Negated<T>(key: T -> real): T -> real {
    x => -key(x)
  }

  /** `sorted(s, key=key, reverse=True)` */
  function SortByDescending<T>(s: seq<T>, key: T -> real): (r: seq<T>)
    ensures |r| == |s|
  {
    SortBy(s, Negated(key))
  }

  lemma {:induction false} InsertPermutes<T>(x: T, s: seq<T>, key: T -> real)
    ensures multiset(Insert(x, s, key)) == multiset{x} + multiset(s)
  {
    if s != [] && key(x) > key(s[0]) {
      InsertPermutes(x, s[1..], key);
      assert s == [s[0]] + s[1..];
    }
  }

  lemma {:induction false} InsertSorted<T>(x: T, s: seq<T>, key: T -> real)
    requires SortedBy(s, key)
    ensures SortedBy(Insert(x, s, key), key)
  {
    if s != [] && key(x) > key(s[0]) {
      InsertBounded(x, s[1..], key, key(s[0]));
      InsertSorted(x, s[1..], key);
      var r := Insert(x, s, key);
      assert r == [s[0]] + Insert(x, s[1..], key);
    }
  }

  /** Inserting an element above a lower bound keeps every key above it. */
  lemma {:induction false} InsertBounded<T>(x: T, s: seq<T>, key: T -> real, low: real)
    requires low <= key(x) && forall i :: 0 <= i < |s| ==> low <= key(s[i])
    ensures forall i :: 0 <= i < |Insert(x, s, key)| ==> low <= key(Insert(x, s, key)[i])
  {
    if s != [] && key(x) > key(s[0]) {
      InsertBounded(x, s[1..], key, low);
      var r := Insert(x, s, key);
      assert forall i :: 1 <= i < |r| ==> r[i] == Insert(x, s[1..], key)[i - 1];
    }
  }

  lemma {:induction false} InsertWithKey<T>(x: T, s: seq<T>, key: T -> real, k: real)
    requires SortedBy(s, key)
    ensures WithKey(Insert(x, s, key), key, k) == (if key(x) == k then [x] else []) + WithKey(s, key, k)
  {
    if s != [] && key(x) > key(s[0]) {
      InsertWithKey(x, s[1..], key, k);
      var r := Insert(x, s, key);
      assert r[1..] == Insert(x, s[1..], key);
      if key(x) == k {
        assert key(s[0]) != k;
      }
    }
  }

  /** The sort returns a permutation of its input. */
  lemma {:induction false} SortPermutes<T>(s: seq<T>, key: T -> real)
    ensures multiset(SortBy(s, key)) == multiset(s)
  {
    if s != [] {
      SortPermutes(s[1..], key);
      InsertPermutes(s[0], SortBy(s[1..], key), key);
      assert s == [s[0]] + s[1..];
    }
  }

  /** The sort's output is in non-decreasing key order. */
  lemma {:induction false} SortSorted<T>(s: seq<T>, key: T -> real)
    ensures SortedBy(SortBy(s, key), key)
  {
    if s != [] {
      SortSorted(s[1..], key);
      InsertSorted(s[0], SortBy(s[1..], key), key);
    }
  }

  /** Stability: elements with equal keys keep their input order. */
  lemma {:induction false} SortStable<T>(s: seq<T>, key: T -> real, k: real)
    ensures WithKey(SortBy(s, key), key, k) == WithKey(s, key, k)
  {
    if s != [] {
      SortStable(s[1..], key, k);
      SortSorted(s[1..], key);
      InsertWithKey(s[0], SortBy(s[1..], key), key, k);
    }
  }

  /** The three facts together for the descending sort. */
  lemma SortByDescendingSpec<T>(s: seq<T>, key: T -> real)
    ensures multiset(SortByDescending(s, key)) == multiset(s)
    ensures forall i, j :: 0 <= i < j < |s| ==> key(SortByDescending(s, key)[i]) >= key(SortByDescending(s, key)[j])
    ensures forall k :: WithKey(SortByDescending(s, key), Negated(key), k) == WithKey(s, Negated(key), k)
  {
    var neg := Negated(key);
    SortPermutes(s, neg);
    SortSorted(s, neg);
    forall k ensures WithKey(SortByDescending(s, key), neg, k) == WithKey(s, neg, k) {
      SortStable(s, neg, k);
    }
  }

  /** `[f(x) for x in s]` */
  function Project<T, U>(s: seq<T>, f: T -> U): (r: seq<U>)
    ensures |r| == |s| && forall i :: 0 <= i < |s| ==> r[i] == f(s[i])
  {
    if s == [] then [] else [f(s[0])] + Project(s[1..], f)
  }

  lemma {:induction false} ProjectInsert<T, U>(x: T, s: seq<T>, key: T -> real, f: T -> U)
    ensures multiset(Project(Insert(x, s, key), f)) == multiset{f(x)} + multiset(Project(s, f))
  {
    if s != [] && key(x) > key(s[0]) {
      ProjectInsert(x, s[1..], key, f);
      assert Project(s, f) == [f(s[0])] + Project(s[1..], f);
    }
  }

  /** Sorting permutes any projection of the elements as well. */
  lemma {:induction false} ProjectSort<T, U>(s: seq<T>, key: T -> real, f: T -> U)
    ensures multiset(Project(SortBy(s, key), f)) == multiset(Project(s, f))
  {
    if s != [] {
      ProjectSort(s[1..], key, f);
      ProjectInsert(s[0], SortBy(s[1..], key), key, f);
      assert Project(s, f) == [f(s[0])] + Project(s[1..], f);
    }
  }

  lemma {:induction false} WithKeyAppend<T>(a: seq<T>, b: seq<T>, key: T -> real, k: real)
    ensures WithKey(a + b, key, k) == WithKey(a, key, k) + WithKey(b, key, k)
  {
    if a == [] {
      assert a + b == b;
    } else {
      var h := if key(a[0]) == k then [a[0]] else [];
      assert (a + b)[0] == a[0] && (a + b)[1..] == a[1..] + b;
      WithKeyAppend(a[1..], b, key, k);
      calc {
        WithKey(a + b, key, k);
        h + WithKey(a[1..] + b, key, k);
        h + (WithKey(a[1..], key, k) + WithKey(b, key, k));
        (h + WithKey(a[1..], key, k)) + WithKey(b, key, k);
      }
    }
  }

  lemma {:induction false} WithKeyNegated<T>(s: seq<T>, key: T -> real, k: real)
    ensures WithKey(s, Negated(key), -k) == WithKey(s, key, k)
  {
    if s != [] {
      WithKeyNegated(s[1..], key, k);
    }
  }

  /** Stability of the descending sort, stated on the caller's own key. */
  lemma SortByDescendingStable<T>(s: seq<T>, key: T -> real, k: real)
    ensures WithKey(SortByDescending(s, key), key, k) == WithKey(s, key, k)
  {
    SortStable(s, Negated(key), -k);
    WithKeyNegated(s, key, k);
    WithKeyNegated(SortByDescending(s, key), key, k);
  }
}
