/** Stable sorting by a numeric key, as `Array.prototype.sort` with a
    comparator `(a, b) => key(a) - key(b)` does it (the language has required
    a stable sort since ES2019). `SortBy` is the specification; `SortInPlace`
    is an insertion sort over an array that is proved to produce it. */
module Sorting {

  ghost predicate SortedBy<T>(s: seq<T>, key: T -> real)
  {
    forall i, j :: 0 <= i < j < |s| ==> key(s[i]) <= key(s[j])
  }

  /** Insert `x` after every element whose key is not greater than its own. */
  function Insert<T>(x: T, s: seq<T>, key: T -> real): (r: seq<T>)
    ensures |r| == |s| + 1
  {
    if s == [] || key(x) < key(s[0]) then [x] + s
    else [s[0]] + Insert(x, s[1..], key)
  }

  /** Insertion sort processing the elements from first to last. */
  function SortBy<T>(s: seq<T>, key: T -> real): (r: seq<T>)
    ensures |r| == |s|
  {
    if s == [] then [] else Insert(s[|s| - 1], SortBy(s[..|s| - 1], key), key)
  }

  lemma {:induction false} InsertPermutes<T>(x: T, s: seq<T>, key: T -> real)
    ensures multiset(Insert(x, s, key)) == multiset(s) + multiset{x}
  {
    if s == [] || key(x) < key(s[0]) {
      assert Insert(x, s, key) == [x] + s;
    } else {
      var t := Insert(x, s[1..], key);
      assert Insert(x, s, key) == [s[0]] + t;
      InsertPermutes(x, s[1..], key);
      assert s == [s[0]] + s[1..];
      assert multiset(s) == multiset{s[0]} + multiset(s[1..]);
    }
  }

  /** Sorting only reorders: the result holds the same elements, as often. */
  lemma {:induction false} SortByPermutes<T>(s: seq<T>, key: T -> real)
    ensures multiset(SortBy(s, key)) == multiset(s)
  {
    if s != [] {
      SortByPermutes(s[..|s| - 1], key);
      InsertPermutes(s[|s| - 1], SortBy(s[..|s| - 1], key), key);
      assert s == s[..|s| - 1] + [s[|s| - 1]];
    }
  }

  /** The elements of `s` whose key is `k`, in their order in `s`. */
  function WithKey<T>(s: seq<T>, key: T -> real, k: real): seq<T>
  {
    if s == [] then []
    else if key(s[|s| - 1]) == k then WithKey(s[..|s| - 1], key, k) + [s[|s| - 1]]
    else WithKey(s[..|s| - 1], key, k)
  }

  /** Every key of the insertion is at least `b` when those of `x` and of
      `s` are. */
  lemma {:induction false} InsertLowerBound<T>(x: T, s: seq<T>, key: T -> real, b: real)
    requires b <= key(x)
    requires forall i :: 0 <= i < |s| ==> b <= key(s[i])
    ensures forall i :: 0 <= i < |s| + 1 ==> b <= key(Insert(x, s, key)[i])
  {
    if s == [] || key(x) < key(s[0]) {
      assert Insert(x, s, key) == [x] + s;
    } else {
      var t := Insert(x, s[1..], key);
      assert Insert(x, s, key) == [s[0]] + t;
      InsertLowerBound(x, s[1..], key, b);
    }
  }

  lemma {:induction false} InsertSorted<T>(x: T, s: seq<T>, key: T -> real)
    requires SortedBy(s, key)
    ensures SortedBy(Insert(x, s, key), key)
  {
    var r := Insert(x, s, key);
    if s == [] || key(x) < key(s[0]) {
      assert r == [x] + s;
      forall i, j | 0 <= i < j < |r| ensures key(r[i]) <= key(r[j]) {
        if i == 0 {
          assert key(s[0]) <= key(s[j - 1]);
        } else {
          assert r[i] == s[i - 1] && r[j] == s[j - 1];
        }
      }
    } else {
      var t := Insert(x, s[1..], key);
      assert r == [s[0]] + t;
      SortedTail(s, key);
      InsertSorted(x, s[1..], key);
      forall i | 0 <= i < |s[1..]| ensures key(s[0]) <= key(s[1..][i]) {
        assert s[1..][i] == s[i + 1];
      }
      InsertLowerBound(x, s[1..], key, key(s[0]));
      forall i, j | 0 <= i < j < |r| ensures key(r[i]) <= key(r[j]) {
        assert r[j] == t[j - 1];
        if i > 0 {
          assert r[i] == t[i - 1];
        }
      }
    }
  }

  lemma {:induction false} SortBySorted<T>(s: seq<T>, key: T -> real)
    ensures SortedBy(SortBy(s, key), key)
  {
    if s != [] {
      SortBySorted(s[..|s| - 1], key);
      InsertSorted(s[|s| - 1], SortBy(s[..|s| - 1], key), key);
    }
  }

  lemma {:induction false} WithKeyAppend<T>(a: seq<T>, b: seq<T>, key: T -> real, k: real)
    ensures WithKey(a + b, key, k) == WithKey(a, key, k) + WithKey(b, key, k)
    decreases |b|
  {
    if b == [] {
      assert a + b == a;
    } else {
      assert (a + b)[..|a + b| - 1] == a + b[..|b| - 1];
      WithKeyAppend(a, b[..|b| - 1], key, k);
    }
  }

  lemma {:induction false} WithKeyNone<T>(s: seq<T>, key: T -> real, k: real)
    requires forall i :: 0 <= i < |s| ==> key(s[i]) != k
    ensures WithKey(s, key, k) == []
  {
    if s != [] {
      WithKeyNone(s[..|s| - 1], key, k);
    }
  }

  lemma SortedTail<T>(s: seq<T>, key: T -> real)
    requires s != [] && SortedBy(s, key)
    ensures SortedBy(s[1..], key)
  {
    var rest := s[1..];
    forall i, j | 0 <= i < j < |rest| ensures key(rest[i]) <= key(rest[j]) {
      assert rest[i] == s[i + 1] && rest[j] == s[j + 1];
    }
  }

  /** `WithKeyInsert` when `x` goes in front. */
  lemma WithKeyInsertFront<T>(x: T, s: seq<T>, key: T -> real, k: real)
    requires SortedBy(s, key)
    requires s == [] || key(x) < key(s[0])
    ensures WithKey(Insert(x, s, key), key, k)
         == if key(x) == k then WithKey(s, key, k) + [x] else WithKey(s, key, k)
  {
    assert Insert(x, s, key) == [x] + s;
    WithKeyAppend([x], s, key, k);
    assert WithKey([x], key, k) == if key(x) == k then [x] else [] by {
      assert [x][..0] == [];
    }
    if key(x) == k {
      forall i | 0 <= i < |s| ensures key(s[i]) != k {
        assert key(s[0]) <= key(s[i]);
      }
      WithKeyNone(s, key, k);
    }
  }

  lemma {:induction false} WithKeyInsert<T>(x: T, s: seq<T>, key: T -> real, k: real)
    requires SortedBy(s, key)
    ensures WithKey(Insert(x, s, key), key, k)
         == if key(x) == k then WithKey(s, key, k) + [x] else WithKey(s, key, k)
  {
    if s == [] || key(x) < key(s[0]) {
      WithKeyInsertFront(x, s, key, k);
    } else {
      var rest := s[1..];
      var t := Insert(x, rest, key);
      assert Insert(x, s, key) == [s[0]] + t;
      SortedTail(s, key);
      WithKeyInsert(x, rest, key, k);
      WithKeyAppend([s[0]], t, key, k);
      assert [s[0]] + rest == s;
      WithKeyAppend([s[0]], rest, key, k);
      var w0 := WithKey([s[0]], key, k);
      var wr := WithKey(rest, key, k);
      assert w0 + (wr + [x]) == (w0 + wr) + [x];
    }
  }

  /** Stability: among elements with equal keys the input order is kept. */
  lemma {:induction false} SortByStable<T>(s: seq<T>, key: T -> real, k: real)
    ensures WithKey(SortBy(s, key), key, k) == WithKey(s, key, k)
  {
    if s != [] {
      var init := s[..|s| - 1];
      SortByStable(init, key, k);
      SortBySorted(init, key);
      WithKeyInsert(s[|s| - 1], SortBy(init, key), key, k);
    }
  }

  /** Where `Insert` puts `x`: right after the elements not greater than it. */
  lemma {:induction false} InsertAt<T>(x: T, s: seq<T>, key: T -> real, j: nat)
    requires j <= |s|
    requires forall i :: 0 <= i < j ==> key(s[i]) <= key(x)
    requires j < |s| ==> key(x) < key(s[j])
    ensures Insert(x, s, key) == s[..j] + [x] + s[j..]
  {
    if j == 0 {
      assert s[..0] == [] && s[0..] == s;
      assert Insert(x, s, key) == [x] + s;
    } else {
      var t := s[1..];
      forall i | 0 <= i < j - 1 ensures key(t[i]) <= key(x) {
        assert t[i] == s[i + 1];
      }
      InsertAt(x, t, key, j - 1);
      assert key(s[0]) <= key(x);
      assert Insert(x, s, key) == [s[0]] + Insert(x, t, key);
      assert s[..j] == [s[0]] + t[..j - 1];
      assert s[j..] == t[j - 1..];
      assert [s[0]] + (t[..j - 1] + [x] + t[j - 1..]) == ([s[0]] + t[..j - 1]) + [x] + t[j - 1..];
    }
  }

  /** The array after an insertion step, read as a sequence: the prefix of
      the sorted elements not greater than `x`, then `x`, then the rest of
      the sorted elements, shifted by one. */
  lemma ShiftedIsInsert<T>(sorted: seq<T>, x: T, key: T -> real, j: nat, b: seq<T>)
    requires SortedBy(sorted, key)
    requires j <= |sorted| && |b| == |sorted| + 1
    requires forall m :: 0 <= m < j ==> b[m] == sorted[m]
    requires b[j] == x
    requires forall m :: j < m < |b| ==> b[m] == sorted[m - 1]
    requires forall m :: j <= m < |sorted| ==> key(x) < key(sorted[m])
    requires j > 0 ==> key(sorted[j - 1]) <= key(x)
    ensures b == Insert(x, sorted, key)
  {
    forall m | 0 <= m < j ensures key(sorted[m]) <= key(x) {
      assert key(sorted[m]) <= key(sorted[j - 1]);
    }
    InsertAt(x, sorted, key, j);
    assert b == sorted[..j] + [x] + sorted[j..];
  }

  /** One insertion step: moves `a[i]` left past the elements of the sorted
      prefix `a[..i]` whose key is greater than its own. */
  method InsertInPlace<T>(a: array<T>, i: nat, key: T -> real)
    requires i < a.Length
    requires SortedBy(a[..i], key)
    modifies a
    ensures a[..i + 1] == Insert(old(a[i]), old(a[..i]), key)
    ensures a[i + 1..] == old(a[i + 1..])
  {
    ghost var sorted := a[..i];
    ghost var rest := a[i + 1..];
    var x := a[i];
    var j := i;
    while j > 0 && key(x) < key(a[j - 1])
      invariant 0 <= j <= i
      invariant forall m :: 0 <= m < j ==> a[m] == sorted[m]
      invariant forall m :: j < m <= i ==> a[m] == sorted[m - 1]
      invariant forall m :: j <= m < i ==> key(x) < key(sorted[m])
      invariant a[i + 1..] == rest
    {
      a[j] := a[j - 1];
      j := j - 1;
    }
    a[j] := x;
    ShiftedIsInsert(sorted, x, key, j, a[..i + 1]);
  }

  /** Sorts `a` in place by `key` with insertion sort; the result is exactly
      the stable order `SortBy` describes. */
  method SortInPlace<T>(a: array<T>, key: T -> real)
    modifies a
    ensures a[..] == SortBy(old(a[..]), key)
  {
    var i := 0;
    while i < a.Length
      invariant 0 <= i <= a.Length
      invariant a[..i] == SortBy(old(a[..])[..i], key)
      invariant a[i..] == old(a[..])[i..]
    {
      ghost var input := old(a[..]);
      SortBySorted(input[..i], key);
      assert a[i] == input[i];
      InsertInPlace(a, i, key);
      assert input[..i + 1][..i] == input[..i];
      i := i + 1;
    }
    assert a[..] == a[..a.Length];
    assert old(a[..])[..a.Length] == old(a[..]);
  }
}
