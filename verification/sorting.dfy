/**
 * `Array.prototype.sort` with a comparator of the form `(a, b) => key(a) - key(b)`.
 * Since ES2019 the sort is stable, so its result is the unique arrangement
 * that is ordered by key and keeps equal-key elements in their input order
 * (StableSortUnique). SortByKey computes it by insertion; SortInPlace is the
 * in-place version on an array.
 */
module Sorting {
  import opened Sequences

  predicate SortedByKey<T>(s: seq<T>, key: T -> real) {
    forall i, j :: 0 <= i < j < |s| ==> key(s[i]) <= key(s[j])
  }

  /** The elements of `s` whose key is `k`, in their order in `s`. */
  function WithKey<T>(s: seq<T>, key: T -> real, k: real): seq<T> {
    if s == [] then []
    else (if key(s[0]) == k then [s[0]] else []) + WithKey(s[1..], key, k)
  }

  /** Puts `x` in front of the first element whose key is not below `x`'s. */
  function Insert<T>(x: T, s: seq<T>, key: T -> real): (r: seq<T>)
    ensures |r| == |s| + 1
    ensures multiset(r) == multiset(s) + multiset{x}
  {
    if s == [] || key(x) <= key(s[0]) then [x] + s
    else
      assert s == [s[0]] + s[1..];
      [s[0]] + Insert(x, s[1..], key)
  }

  lemma {:induction false} InsertSorted<T>(x: T, s: seq<T>, key: T -> real)
    requires SortedByKey(s, key)
    ensures SortedByKey(Insert(x, s, key), key)
  {
    if s != [] && key(s[0]) < key(x) {
      var t := Insert(x, s[1..], key);
      InsertSorted(x, s[1..], key);
      forall y | y in t ensures key(s[0]) <= key(y) {
        assert y in multiset(s[1..]) + multiset{x};
      }
      ConsSorted(s[0], t, key);
    }
  }

  lemma ConsSorted<T>(h: T, t: seq<T>, key: T -> real)
    requires SortedByKey(t, key)
    requires forall y :: y in t ==> key(h) <= key(y)
    ensures SortedByKey([h] + t, key)
  {
    var r := [h] + t;
    forall i, j | 0 <= i < j < |r| ensures key(r[i]) <= key(r[j]) {
      if i == 0 {
        assert r[j] == t[j - 1];
      } else {
        assert r[i] == t[i - 1] && r[j] == t[j - 1];
      }
    }
  }

  function SortByKey<T>(s: seq<T>, key: T -> real): (r: seq<T>)
    ensures |r| == |s|
    ensures multiset(r) == multiset(s)
    ensures SortedByKey(r, key)
  {
    if s == [] then []
    else
      assert s == [s[0]] + s[1..];
      InsertSorted(s[0], SortByKey(s[1..], key), key);
      Insert(s[0], SortByKey(s[1..], key), key)
  }

  /** Inserting `x` places it ahead of every element with the same key. */
  lemma {:induction false} InsertStable<T>(x: T, s: seq<T>, key: T -> real, k: real)
    ensures WithKey(Insert(x, s, key), key, k)
         == if key(x) == k then [x] + WithKey(s, key, k) else WithKey(s, key, k)
  {
    if s == [] || key(x) <= key(s[0]) {
      assert Insert(x, s, key) == [x] + s;
      assert ([x] + s)[0] == x && ([x] + s)[1..] == s;
    } else {
      var t := Insert(x, s[1..], key);
      InsertStable(x, s[1..], key, k);
      assert Insert(x, s, key) == [s[0]] + t;
      assert ([s[0]] + t)[0] == s[0] && ([s[0]] + t)[1..] == t;
      assert WithKey(s, key, k) == (if key(s[0]) == k then [s[0]] else []) + WithKey(s[1..], key, k);
    }
  }

  /** The sort is stable: elements with equal keys keep their relative order. */
  lemma {:induction false} SortStable<T>(s: seq<T>, key: T -> real, k: real)
    ensures WithKey(SortByKey(s, key), key, k) == WithKey(s, key, k)
  {
    if s != [] {
      SortStable(s[1..], key, k);
      InsertStable(s[0], SortByKey(s[1..], key), key, k);
    }
  }

  lemma {:induction false} WithKeyMember<T>(s: seq<T>, key: T -> real, k: real, y: T)
    requires y in WithKey(s, key, k)
    ensures y in s && key(y) == k
  {
    if s != [] {
      if y != s[0] || key(s[0]) != k {
        WithKeyMember(s[1..], key, k, y);
      }
    }
  }

  lemma FirstKeyClass<T>(s: seq<T>, key: T -> real)
    ensures s != [] ==> WithKey(s, key, key(s[0])) != []
  {
  }

  /**
   * Two key-ordered sequences that agree on the order of each key class are
   * equal: every stable sort returns the same arrangement.
   */
  lemma {:induction false} StableSortUnique<T>(t: seq<T>, u: seq<T>, key: T -> real)
    requires SortedByKey(t, key) && SortedByKey(u, key)
    requires forall k :: WithKey(t, key, k) == WithKey(u, key, k)
    ensures t == u
  {
    if t == [] && u == [] {
    } else if t == [] || u == [] {
      FirstKeyClass(t, key);
      FirstKeyClass(u, key);
      assert false;
    } else {
      var m, n := key(t[0]), key(u[0]);
      assert u[0] in WithKey(u, key, n);
      WithKeyMember(t, key, n, u[0]);
      assert t[0] in WithKey(t, key, m);
      WithKeyMember(u, key, m, t[0]);
      assert m == n by {
        var i :| 0 <= i < |t| && t[i] == u[0];
        var j :| 0 <= j < |u| && u[j] == t[0];
        assert m <= key(t[i]);
        assert n <= key(u[j]);
      }
      var wt, wu := WithKey(t[1..], key, m), WithKey(u[1..], key, m);
      assert WithKey(t, key, m) == [t[0]] + wt;
      assert WithKey(u, key, m) == [u[0]] + wu;
      assert ([t[0]] + wt)[0] == t[0] && ([t[0]] + wt)[1..] == wt;
      assert ([u[0]] + wu)[0] == u[0] && ([u[0]] + wu)[1..] == wu;
      forall k
        ensures WithKey(t[1..], key, k) == WithKey(u[1..], key, k)
      {
        if k != m {
          assert WithKey(t, key, k) == WithKey(t[1..], key, k);
          assert WithKey(u, key, k) == WithKey(u[1..], key, k);
        }
      }
      StableSortUnique(t[1..], u[1..], key);
      assert t == [t[0]] + t[1..] && u == [u[0]] + u[1..];
    }
  }

  /** Any key-ordered arrangement of `s` that is stable is SortByKey(s, key). */
  lemma StableSortIsSortByKey<T>(s: seq<T>, t: seq<T>, key: T -> real)
    requires SortedByKey(t, key)
    requires forall k :: WithKey(t, key, k) == WithKey(s, key, k)
    ensures t == SortByKey(s, key)
  {
    forall k ensures WithKey(t, key, k) == WithKey(SortByKey(s, key), key, k) {
      SortStable(s, key, k);
    }
    StableSortUnique(t, SortByKey(s, key), key);
  }

  /** Sorting an already ordered sequence leaves it as it is. */
  lemma SortSortedIsIdentity<T>(s: seq<T>, key: T -> real)
    requires SortedByKey(s, key)
    ensures SortByKey(s, key) == s
  {
    StableSortIsSortByKey(s, s, key);
  }

  /** Sorting keeps elements apart under any projection `f`. */
  lemma {:induction false} SortKeepsDistinctBy<T, K>(s: seq<T>, key: T -> real, f: T -> K)
    requires DistinctBy(s, f)
    ensures DistinctBy(SortByKey(s, key), f)
  {
    if s != [] {
      var t := SortByKey(s[1..], key);
      SortKeepsDistinctBy(s[1..], key, f);
      forall y | y in t ensures f(y) != f(s[0]) {
        assert y in multiset(s[1..]);
      }
      InsertKeepsDistinctBy(s[0], t, key, f);
    }
  }

  /** Sorting keeps the set of labels the elements carry. */
  lemma SortKeepsLabels<T, L>(s: seq<T>, key: T -> real, tag: T -> L)
    ensures forall l :: l in Map(SortByKey(s, key), tag) <==> l in Map(s, tag)
  {
    var r := SortByKey(s, key);
    forall l ensures l in Map(r, tag) <==> l in Map(s, tag) {
      if l in Map(r, tag) {
        var i :| 0 <= i < |r| && Map(r, tag)[i] == l;
        assert r[i] in multiset(s);
        var k :| 0 <= k < |s| && s[k] == r[i];
        assert Map(s, tag)[k] == l;
      }
      if l in Map(s, tag) {
        var k :| 0 <= k < |s| && Map(s, tag)[k] == l;
        assert s[k] in multiset(r);
        var i :| 0 <= i < |r| && r[i] == s[k];
        assert Map(r, tag)[i] == l;
      }
    }
  }

  lemma {:induction false} InsertKeepsDistinctBy<T, K>(x: T, s: seq<T>, key: T -> real, f: T -> K)
    requires DistinctBy(s, f)
    requires forall y :: y in s ==> f(y) != f(x)
    ensures DistinctBy(Insert(x, s, key), f)
  {
    if s != [] && key(s[0]) < key(x) {
      var t := Insert(x, s[1..], key);
      InsertKeepsDistinctBy(x, s[1..], key, f);
      forall y | y in t ensures f(y) != f(s[0]) {
        assert y in multiset(t);
      }
      assert Insert(x, s, key) == [s[0]] + t;
    }
  }

  /** Insertion at a known position, as the array version performs it. */
  lemma {:induction false} InsertAt<T>(x: T, t: seq<T>, m: nat, key: T -> real)
    requires m <= |t|
    requires forall l :: 0 <= l < m ==> key(t[l]) < key(x)
    requires m == |t| || key(x) <= key(t[m])
    ensures Insert(x, t, key) == t[..m] + [x] + t[m..]
  {
    if m == 0 {
      assert Insert(x, t, key) == [x] + t;
      assert t[..0] == [] && t[0..] == t;
    } else {
      var rest := t[1..];
      InsertAt(x, rest, m - 1, key);
      assert Insert(x, t, key) == [t[0]] + Insert(x, rest, key);
      ConsSplit(t, x, m);
    }
  }

  lemma ConsSplit<T>(t: seq<T>, x: T, m: nat)
    requires 0 < m <= |t|
    ensures [t[0]] + (t[1..][..m - 1] + [x] + t[1..][m - 1..]) == t[..m] + [x] + t[m..]
  {
    assert t[1..][..m - 1] == t[1..m];
    assert t[1..][m - 1..] == t[m..];
    assert t[..m] == [t[0]] + t[1..m];
  }

  /**
   * Moves `a[i]` rightwards past the elements of the ordered part `a[i+1..]`
   * whose key is below its own.
   */
  method InsertInPlace<T>(a: array<T>, i: nat, key: T -> real)
    requires i < a.Length
    modifies a
    ensures a[..i] == old(a[..i])
    ensures a[i..] == Insert(old(a[i]), old(a[i + 1..]), key)
  {
    var x := a[i];
    ghost var orig := a[..];
    var j := ShiftLeftWhileBelow(a, i, key(x), key);
    ghost var mid := a[..];
    a[j] := x;
    ShiftedInsert(orig, mid, a[..], i, j, x, key);
  }

  /** The array after the shift and the store, in terms of the array before. */
  lemma ShiftedInsert<T>(orig: seq<T>, mid: seq<T>, fin: seq<T>, i: nat, j: nat, x: T, key: T -> real)
    requires i <= j < |orig| == |mid| && orig[i] == x
    requires forall l :: 0 <= l < i ==> mid[l] == orig[l]
    requires forall l :: i <= l < j ==> mid[l] == orig[l + 1] && key(mid[l]) < key(x)
    requires forall l :: j < l < |orig| ==> mid[l] == orig[l]
    requires j + 1 == |orig| || key(x) <= key(mid[j + 1])
    requires fin == mid[j := x]
    ensures fin[..i] == orig[..i]
    ensures fin[i..] == Insert(x, orig[i + 1..], key)
  {
    var t, s, d := orig[i + 1..], fin[i..], j - i;
    forall l | 0 <= l < d ensures s[l] == t[l] && key(t[l]) < key(x) {
      assert s[l] == fin[i + l] == mid[i + l] == orig[i + l + 1];
    }
    forall l | d < l < |s| ensures s[l] == t[l - 1] {
      assert s[l] == fin[i + l] == mid[i + l] == orig[i + l];
    }
    assert d == |t| || key(x) <= key(t[d]);
    Assemble(s, t, x, d);
    InsertAt(x, t, d, key);
    forall l | 0 <= l < i ensures fin[..i][l] == orig[..i][l] {
      assert fin[l] == mid[l];
    }
  }

  /**
   * Shifts left by one place the run of elements after `a[i]` whose key is
   * below `k`, and returns the index of the slot freed at the end of the run.
   */
  method ShiftLeftWhileBelow<T>(a: array<T>, i: nat, k: real, key: T -> real) returns (j: nat)
    requires i < a.Length
    modifies a
    ensures i <= j < a.Length
    ensures forall l :: 0 <= l < i ==> a[l] == old(a[l])
    ensures forall l :: i <= l < j ==> a[l] == old(a[l + 1]) && key(a[l]) < k
    ensures forall l :: j < l < a.Length ==> a[l] == old(a[l])
    ensures j + 1 == a.Length || k <= key(a[j + 1])
  {
    j := i;
    while j + 1 < a.Length && key(a[j + 1]) < k
      invariant i <= j < a.Length
      invariant forall l :: 0 <= l < i ==> a[l] == old(a[l])
      invariant forall l :: i <= l < j ==> a[l] == old(a[l + 1]) && key(a[l]) < k
      invariant forall l :: j < l < a.Length ==> a[l] == old(a[l])
    {
      a[j] := a[j + 1];
      j := j + 1;
    }
  }

  lemma Assemble<T>(s: seq<T>, t: seq<T>, x: T, d: nat)
    requires |s| == |t| + 1 && d <= |t|
    requires forall l :: 0 <= l < d ==> s[l] == t[l]
    requires s[d] == x
    requires forall l :: d < l < |s| ==> s[l] == t[l - 1]
    ensures s == t[..d] + [x] + t[d..]
  {
  }

  /** In-place stable insertion sort, working from the right end. */
  method SortInPlace<T>(a: array<T>, key: T -> real)
    modifies a
    ensures a[..] == SortByKey(old(a[..]), key)
  {
    ghost var o := a[..];
    var i := a.Length;
    while i > 0
      invariant 0 <= i <= a.Length
      invariant a[..i] == o[..i]
      invariant a[i..] == SortByKey(o[i..], key)
    {
      i := i - 1;
      ghost var before := a[..];
      InsertInPlace(a, i, key);
      SortStep(o, before, a[..], i, key);
    }
    assert a[..] == a[0..] && o == o[0..];
  }

  /** One step of the in-place sort: the ordered suffix grows by one element. */
  lemma SortStep<T>(o: seq<T>, before: seq<T>, after: seq<T>, i: nat, key: T -> real)
    requires i < |o| == |before| == |after|
    requires before[..i + 1] == o[..i + 1]
    requires before[i + 1..] == SortByKey(o[i + 1..], key)
    requires after[..i] == before[..i]
    requires after[i..] == Insert(before[i], before[i + 1..], key)
    ensures after[..i] == o[..i]
    ensures after[i..] == SortByKey(o[i..], key)
  {
    assert before[i] == o[i] by {
      assert before[..i + 1][i] == o[..i + 1][i];
    }
    assert before[..i] == o[..i] by {
      assert before[..i] == before[..i + 1][..i];
      assert o[..i] == o[..i + 1][..i];
    }
    assert o[i..][1..] == o[i + 1..];
  }
}
