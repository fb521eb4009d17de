/** Generic facts about sequences: duplicates, projections, insertion-ordered sets. */
module Sequences {

  predicate NoDuplicates<T(==)>(s: seq<T>) {
    forall i, j :: 0 <= i < j < |s| ==> s[i] != s[j]
  }

  /** No two elements of `s` share the same `f`-image. */
  predicate DistinctBy<T, K(==)>(s: seq<T>, f: T -> K) {
    forall i, j :: 0 <= i < j < |s| ==> f(s[i]) != f(s[j])
  }

  /** `s.map(f)` */
  function Map<T, U>(s: seq<T>, f: T -> U): seq<U> {
    seq(|s|, i requires 0 <= i < |s| => f(s[i]))
  }

  /**
   * The elements of `xs` once each, in order of first appearance: the
   * iteration order of a JavaScript `Set` (and of d3's keyed maps) built
   * by inserting the elements of `xs` one after another.
   */
  function Distinct<T(==)>(xs: seq<T>): (r: seq<T>)
    ensures NoDuplicates(r)
    ensures forall i :: 0 <= i < |r| ==> r[i] in xs
    ensures forall i :: 0 <= i < |xs| ==> xs[i] in r
  {
    if xs == [] then []
    else
      var p := Distinct(xs[..|xs| - 1]);
      if xs[|xs| - 1] in p then p else p + [xs[|xs| - 1]]
  }

  /** The positions of `xs` that hold an element for the first time, in increasing order. */
  function FirstOccurrences<T(==)>(xs: seq<T>): (idx: seq<nat>)
    ensures forall i :: 0 <= i < |idx| ==> idx[i] < |xs|
    ensures forall i, j :: 0 <= i < j < |idx| ==> idx[i] < idx[j]
    ensures forall k :: 0 <= k < |xs| ==> (k in idx <==> xs[k] !in xs[..k])
  {
    if xs == [] then []
    else
      var n := |xs| - 1;
      var p := FirstOccurrences(xs[..n]);
      FirstOccurrencesStep(xs, p);
      p + (if xs[n] !in xs[..n] then [n] else [])
  }

  lemma FirstOccurrencesStep<T>(xs: seq<T>, p: seq<nat>)
    requires xs != []
    requires forall i :: 0 <= i < |p| ==> p[i] < |xs| - 1
    requires forall k :: 0 <= k < |xs| - 1 ==> (k in p <==> xs[..|xs| - 1][k] !in xs[..|xs| - 1][..k])
    ensures var n := |xs| - 1;
      forall k :: 0 <= k < |xs| ==> (k in p + (if xs[n] !in xs[..n] then [n] else []) <==> xs[k] !in xs[..k])
  {
    var n := |xs| - 1;
    var idx := p + (if xs[n] !in xs[..n] then [n] else []);
    forall k | 0 <= k < |xs| ensures k in idx <==> xs[k] !in xs[..k] {
      if k < n {
        assert xs[..n][k] == xs[k] && xs[..n][..k] == xs[..k];
        assert k in idx <==> k in p;
      } else {
        assert n !in p;
      }
    }
  }

  /**
   * `Distinct` keeps the first occurrence of each element: it is `xs` read
   * at the positions of first occurrences, in increasing order.
   */
  lemma {:induction false} DistinctIsFirstOccurrences<T>(xs: seq<T>)
    ensures var r, idx := Distinct(xs), FirstOccurrences(xs);
      |r| == |idx| && forall i :: 0 <= i < |r| ==> r[i] == xs[idx[i]]
  {
    if xs != [] {
      var n := |xs| - 1;
      var p := xs[..n];
      DistinctIsFirstOccurrences(p);
      var rp, ip := Distinct(p), FirstOccurrences(p);
      forall i | 0 <= i < |rp| ensures ip[i] < n && rp[i] == xs[ip[i]] {
        assert rp[i] == p[ip[i]];
      }
      assert xs[n] in rp <==> xs[n] in p;
      SubsequenceStep(xs, rp, ip, xs[n] !in p);
    }
  }

  /** Reading one more position at the end extends the selection by that element. */
  lemma SubsequenceStep<T>(data: seq<T>, rp: seq<T>, ip: seq<nat>, keep: bool)
    requires data != [] && |rp| == |ip|
    requires forall i :: 0 <= i < |rp| ==> ip[i] < |data| - 1 && rp[i] == data[ip[i]]
    ensures var r, idx := rp + (if keep then [data[|data| - 1]] else []), ip + (if keep then [|data| - 1] else []);
      |r| == |idx| && forall i :: 0 <= i < |r| ==> r[i] == data[idx[i]]
  {
  }

  /** Number of positions of `s` holding `x`. */
  function Occurrences<T(==)>(s: seq<T>, x: T): nat {
    if s == [] then 0
    else Occurrences(s[..|s| - 1], x) + (if s[|s| - 1] == x then 1 else 0)
  }

  lemma {:induction false} OccurrencesOfDistinct<T>(s: seq<T>, x: T)
    requires NoDuplicates(s)
    ensures Occurrences(s, x) == if x in s then 1 else 0
  {
    if s != [] {
      var p := s[..|s| - 1];
      assert NoDuplicates(p);
      OccurrencesOfDistinct(p, x);
      assert s == p + [s[|s| - 1]];
      if s[|s| - 1] == x {
        assert x !in p;
      }
    }
  }
}
