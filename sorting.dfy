/** Stable sorting by a numeric key. Python's `list.sort(key=...)` is stable;
    this is the order it produces. */
module Sorting {

  predicate SortedBy<T>(s: seq<T>, key: T -> real) {
    forall i, j :: 0 <= i < j < |s| ==> key(s[i]) <= key(s[j])
  }

  /** Places `x` after every element whose key is not larger than its own,
      scanning from the back, as one pass of insertion sort does. */
  function Insert<T>(s: seq<T>, x: T, key: T -> real): (r: seq<T>)
    ensures |r| == |s| + 1
    decreases |s|
  {
    if s == [] || key(s[|s| - 1]) <= key(x) then s + [x]
    else Insert(s[..|s| - 1], x, key) + [s[|s| - 1]]
  }

  /** Insertion adds `x` and nothing else. */
  lemma {:induction false} InsertMultiset<T>(s: seq<T>, x: T, key: T -> real)
    ensures multiset(Insert(s, x, key)) == multiset(s) + multiset{x}
    decreases |s|
  {
    if s != [] && key(s[|s| - 1]) > key(x) {
      var front := s[..|s| - 1];
      assert s == front + [s[|s| - 1]];
      InsertMultiset(front, x, key);
    }
  }

  /** Stable insertion sort by `key`. */
  function SortBy<T>(s: seq<T>, key: T -> real): (r: seq<T>)
    ensures |r| == |s|
    decreases |s|
  {
    if s == [] then [] else Insert(SortBy(s[..|s| - 1], key), s[|s| - 1], key)
  }

  /** Sorting is a permutation. */
  lemma {:induction false} SortByMultiset<T>(s: seq<T>, key: T -> real)
    ensures multiset(SortBy(s, key)) == multiset(s)
    decreases |s|
  {
    if s != [] {
      var front := s[..|s| - 1];
      assert s == front + [s[|s| - 1]];
      SortByMultiset(front, key);
      InsertMultiset(SortBy(front, key), s[|s| - 1], key);
    }
  }

  lemma {:induction false} InsertSorted<T>(s: seq<T>, x: T, key: T -> real)
    requires SortedBy(s, key)
    ensures SortedBy(Insert(s, x, key), key)
    decreases |s|
  {
    if s != [] && key(s[|s| - 1]) > key(x) {
      var front, last := s[..|s| - 1], s[|s| - 1];
      InsertSorted(front, x, key);
      var r := Insert(front, x, key);
      InsertMultiset(front, x, key);
      forall k | 0 <= k < |r| ensures key(r[k]) <= key(last) {
        assert r[k] in multiset(r);
        assert r[k] in multiset(front) || r[k] == x;
        if r[k] != x {
          assert r[k] in front;
        }
      }
    }
  }

  /** The sorted result is in key order ... */
  lemma {:induction false} SortBySorted<T>(s: seq<T>, key: T -> real)
    ensures SortedBy(SortBy(s, key), key)
    decreases |s|
  {
    if s != [] {
      SortBySorted(s[..|s| - 1], key);
      InsertSorted(SortBy(s[..|s| - 1], key), s[|s| - 1], key);
    }
  }

  /** ... and a sequence already in key order is left exactly as it is. */
  lemma {:induction false} SortByOfSorted<T>(s: seq<T>, key: T -> real)
    requires SortedBy(s, key)
    ensures SortBy(s, key) == s
    decreases |s|
  {
    if s != [] {
      var front, last := s[..|s| - 1], s[|s| - 1];
      assert SortedBy(front, key);
      SortByOfSorted(front, key);
      assert front == [] || key(front[|front| - 1]) <= key(last);
      assert Insert(front, last, key) == front + [last];
      assert s == front + [last];
    }
  }

  /** Where the backward scan of `Insert` stops: after the last element whose
      key is not larger than that of `x`. */
  lemma {:induction false} InsertAt<T>(p: seq<T>, x: T, j: nat, key: T -> real)
    requires j <= |p|
    requires forall k :: j <= k < |p| ==> key(p[k]) > key(x)
    requires j == 0 || key(p[j - 1]) <= key(x)
    ensures Insert(p, x, key) == p[..j] + [x] + p[j..]
    decreases |p|
  {
    if j < |p| {
      var front := p[..|p| - 1];
      InsertAt(front, x, j, key);
      assert front[..j] == p[..j];
      assert p[j..] == front[j..] + [p[|p| - 1]];
    }
  }

  /** Sorting one more element of a prefix inserts it into the sorted prefix. */
  lemma SortByPrefix<T>(s: seq<T>, i: nat, key: T -> real)
    requires i < |s|
    ensures SortBy(s[..i + 1], key) == Insert(SortBy(s[..i], key), s[i], key)
  {
    assert s[..i + 1][..i] == s[..i];
  }

  /** Sorts `a` in place by insertion: each element is moved left past the
      larger keys before it, leaving the result of the stable sort. */
  method SortInPlace<T>(a: array<T>, key: T -> real)
    modifies a
    ensures a[..] == SortBy(old(a[..]), key)
  {
    ghost var s := a[..];
    var i := 0;
    while i < a.Length
      invariant 0 <= i <= a.Length
      invariant a[..i] == SortBy(s[..i], key)
      invariant a[i..] == s[i..]
    {
      InsertLast(a, i, key);
      SortByPrefix(s, i, key);
      i := i + 1;
    }
    assert a[..] == a[..i] && s == s[..i];
  }

  /** Moves `a[i]` left past the larger keys of the prefix `a[..i]`. */
  method InsertLast<T>(a: array<T>, i: nat, key: T -> real)
    requires i < a.Length
    modifies a
    ensures a[..i + 1] == Insert(old(a[..i]), old(a[i]), key)
    ensures a[i + 1..] == old(a[i + 1..])
  {
    var x := a[i];
    ghost var p := a[..i];
    var j := i;
    while j > 0 && key(a[j - 1]) > key(x)
      invariant 0 <= j <= i
      invariant forall k :: 0 <= k < j ==> a[k] == p[k]
      invariant forall k :: j < k <= i ==> a[k] == p[k - 1]
      invariant forall k :: i < k < a.Length ==> a[k] == old(a[k])
      invariant forall k :: j <= k < i ==> key(p[k]) > key(x)
    {
      a[j] := a[j - 1];
      j := j - 1;
    }
    a[j] := x;
    InsertAt(p, x, j, key);
    assert a[..j] == p[..j];
    assert a[j + 1..i + 1] == p[j..];
    assert a[..i + 1] == a[..j] + [a[j]] + a[j + 1..i + 1];
  }
}
