/**
 * The d3-array helpers the dashboard relies on, over exact reals:
 * dropping missing values, `d3.min`, `d3.max`, `d3.mean` and `d3.quantile`.
 */
module Statistics {
  import opened Wrappers
  import opened Sorting

  /** `xs.filter(d => !isNaN(d))`: the present values, in their order. */
  function Present(xs: seq<Option<real>>): (vs: seq<real>)
    ensures |vs| <= |xs|
    ensures forall v :: multiset(vs)[v] == multiset(xs)[Some(v)]
  {
    if xs == [] then []
    else
      var p := xs[..|xs| - 1];
      assert xs == p + [xs[|xs| - 1]];
      Present(p) + (if xs[|xs| - 1].Some? then [xs[|xs| - 1].value] else [])
  }

  lemma PresentMember(xs: seq<Option<real>>, v: real)
    ensures v in Present(xs) <==> Some(v) in xs
  {
    assert v in Present(xs) <==> v in multiset(Present(xs));
    assert Some(v) in xs <==> Some(v) in multiset(xs);
  }

  /** `d3.min`: the least value, `None` (undefined) for an empty sample. */
  function Minimum(vs: seq<real>): (m: Option<real>)
    ensures m.Some? <==> |vs| > 0
    ensures m.Some? ==> m.value in vs && forall v :: v in vs ==> m.value <= v
  {
    if vs == [] then None
    else
      var last := vs[|vs| - 1];
      var p := vs[..|vs| - 1];
      assert vs == p + [last];
      match Minimum(p)
      case None => Some(last)
      case Some(m) => Some(if last < m then last else m)
  }

  /** `d3.max`: the greatest value, `None` (undefined) for an empty sample. */
  function Maximum(vs: seq<real>): (m: Option<real>)
    ensures m.Some? <==> |vs| > 0
    ensures m.Some? ==> m.value in vs && forall v :: v in vs ==> v <= m.value
  {
    if vs == [] then None
    else
      var last := vs[|vs| - 1];
      var p := vs[..|vs| - 1];
      assert vs == p + [last];
      match Maximum(p)
      case None => Some(last)
      case Some(m) => Some(if last > m then last else m)
  }

  function Sum(vs: seq<real>): real {
    if vs == [] then 0.0 else Sum(vs[..|vs| - 1]) + vs[|vs| - 1]
  }

  lemma {:induction false} SumBounds(vs: seq<real>, lo: real, hi: real)
    requires forall v :: v in vs ==> lo <= v <= hi
    ensures |vs| as real * lo <= Sum(vs) <= |vs| as real * hi
  {
    if vs != [] {
      var p := vs[..|vs| - 1];
      assert forall v :: v in p ==> v in vs;
      SumBounds(p, lo, hi);
      assert vs[|vs| - 1] in vs;
    }
  }

  /**
   * `d3.mean(v, accessor)`: the arithmetic mean of the present values,
   * `None` (undefined) when there is none. It lies between their least and
   * greatest value.
   */
  function Mean(xs: seq<Option<real>>): (m: Option<real>)
    ensures m.Some? <==> Present(xs) != []
    ensures m.Some? ==> Minimum(Present(xs)).value <= m.value <= Maximum(Present(xs)).value
  {
    var vs := Present(xs);
    if vs == [] then None
    else
      MeanWithinRange(vs);
      Some(Sum(vs) / |vs| as real)
  }

  lemma MeanWithinRange(vs: seq<real>)
    requires vs != []
    ensures Minimum(vs).value <= Sum(vs) / |vs| as real <= Maximum(vs).value
  {
    MeanBounds(vs, Minimum(vs).value, Maximum(vs).value);
  }

  lemma MeanBounds(vs: seq<real>, lo: real, hi: real)
    requires vs != []
    requires forall v :: v in vs ==> lo <= v <= hi
    ensures lo <= Sum(vs) / |vs| as real <= hi
  {
    var n := |vs| as real;
    SumBounds(vs, lo, hi);
    DivideBounds(Sum(vs), n, lo, hi);
  }

  lemma DivideBounds(s: real, n: real, lo: real, hi: real)
    requires n > 0.0 && n * lo <= s <= n * hi
    ensures lo <= s / n <= hi
  {
    var q := s / n;
    assert q * n == s;
    MulCancel(lo, q, n);
    MulCancel(q, hi, n);
  }

  lemma MulCancel(x: real, y: real, n: real)
    requires n > 0.0 && x * n <= y * n
    ensures x <= y
  {
    if x > y {
      MulPositive(x - y, n);
      assert false;
    }
  }

  lemma MulPositive(x: real, y: real)
    requires x > 0.0 && y > 0.0
    ensures x * y > 0.0
  {
  }

  lemma MulNonneg(x: real, y: real)
    requires x >= 0.0 && y >= 0.0
    ensures x * y >= 0.0
  {
  }

  /** The point the fraction `f` of the way from `a` to `b`. */
  function Interpolate(a: real, b: real, f: real): real {
    a + (b - a) * f
  }

  lemma Lerp(a: real, b: real, f: real)
    requires a <= b && 0.0 <= f <= 1.0
    ensures a <= Interpolate(a, b, f) <= b
  {
    MulNonneg(b - a, f);
    MulNonneg(b - a, 1.0 - f);
    assert (b - a) * (1.0 - f) == (b - a) - (b - a) * f;
  }

  lemma LerpMonotone(a: real, b: real, f: real, g: real)
    requires a <= b && f <= g
    ensures Interpolate(a, b, f) <= Interpolate(a, b, g)
  {
    MulNonneg(b - a, g - f);
    assert (b - a) * (g - f) == (b - a) * g - (b - a) * f;
  }

  function Identity(x: real): real { x }

  /** `d3.ascending` order: sorted by the value itself. */
  predicate Ascending(vs: seq<real>) {
    SortedByKey(vs, Identity)
  }

  /**
   * `values.sort(d3.ascending)`: a stable sort by value. It returns the same
   * values ascending, and leaves a sample that is already ascending as it is.
   */
  function SortAscending(values: seq<real>): (s: seq<real>)
    ensures |s| == |values|
    ensures multiset(s) == multiset(values)
    ensures Ascending(s)
    ensures Ascending(values) ==> s == values
  {
    var s := SortByKey(values, Identity);
    if Ascending(values) then
      SortSortedIsIdentity(values, Identity);
      s
    else s
  }

  /**
   * `m * p` for a whole number `m`, written as `m` additions of `p` so that
   * the solver reasons about it linearly; `TimesIsProduct` shows it is the
   * product.
   */
  function Times(m: nat, p: real): real {
    if m == 0 then 0.0 else Times(m - 1, p) + p
  }

  lemma {:induction false} TimesIsProduct(m: nat, p: real)
    ensures Times(m, p) == m as real * p
  {
    if m > 0 {
      TimesIsProduct(m - 1, p);
      assert (m - 1) as real * p + p == m as real * p;
    }
  }

  lemma {:induction false} TimesBounds(m: nat, p: real)
    requires 0.0 < p < 1.0
    ensures 0.0 <= Times(m, p) && (m > 0 ==> Times(m, p) < m as real)
  {
    if m > 0 {
      TimesBounds(m - 1, p);
    }
  }

  lemma {:induction false} TimesMonotone(m: nat, p1: real, p2: real)
    requires p1 <= p2
    ensures Times(m, p1) <= Times(m, p2)
  {
    if m > 0 {
      TimesMonotone(m - 1, p1, p2);
    }
  }

  /** The position h = (n - 1) * p lies between the first and the next-to-last index. */
  lemma FloorInRange(n: nat, p: real)
    requires n >= 2 && 0.0 < p < 1.0
    ensures 0 <= Times(n - 1, p).Floor && Times(n - 1, p).Floor + 1 < n
  {
    TimesBounds(n - 1, p);
  }

  lemma FloorMonotone(h1: real, h2: real)
    requires h1 <= h2
    ensures h1.Floor <= h2.Floor
    ensures h1.Floor == h2.Floor ==> h1 - h1.Floor as real <= h2 - h2.Floor as real
  {
  }

  /**
   * `d3.quantile(values, p)`: the linear interpolation between order
   * statistics known as type 7. With h = (n - 1) * p it returns the
   * floor(h)-th smallest value plus the fraction h - floor(h) of the gap to
   * the next one (d3 finds both by quickselect); p <= 0 or a single value
   * gives the minimum, p >= 1 the maximum, and an empty sample gives `None`
   * (undefined).
   */
  function Quantile(values: seq<real>, p: real): (q: Option<real>)
    ensures q.Some? <==> |values| > 0
    ensures q.Some? ==> Minimum(values).value <= q.value <= Maximum(values).value
  {
    var n := |values|;
    if n == 0 then None
    else if p <= 0.0 || n < 2 then Minimum(values)
    else if p >= 1.0 then Maximum(values)
    else
      var s := SortAscending(values);
      FloorInRange(n, p);
      MinimumIsFirst(values);
      Some(InterpolateAt(s, Times(n - 1, p)))
  }

  /**
   * `d3.quantileSorted(s, p)`: the same quantile read directly off a sample
   * that is already ascending.
   */
  function QuantileSorted(s: seq<real>, p: real): (q: Option<real>)
    requires Ascending(s)
    ensures q.Some? <==> |s| > 0
    ensures q.Some? ==> s[0] <= q.value <= s[|s| - 1]
  {
    var n := |s|;
    if n == 0 then None
    else if p <= 0.0 || n < 2 then Some(s[0])
    else if p >= 1.0 then Some(s[n - 1])
    else
      FloorInRange(n, p);
      Some(InterpolateAt(s, Times(n - 1, p)))
  }

  /**
   * The value at position `h` of an ascending sample: entry floor(h) plus
   * the fraction h - floor(h) of the gap to the next entry.
   */
  function InterpolateAt(s: seq<real>, h: real): (q: real)
    requires Ascending(s) && 0 <= h.Floor && h.Floor + 1 < |s|
    ensures s[0] <= s[h.Floor] <= q <= s[h.Floor + 1] <= s[|s| - 1]
  {
    var i0 := h.Floor;
    Lerp(s[i0], s[i0 + 1], h - i0 as real);
    Interpolate(s[i0], s[i0 + 1], h - i0 as real)
  }

  /** `d3.quantile` is `d3.quantileSorted` of the ascending copy of the sample. */
  lemma QuantileOfSorted(values: seq<real>, p: real)
    ensures Quantile(values, p) == QuantileSorted(SortAscending(values), p)
  {
    if |values| > 0 {
      MinimumIsFirst(values);
    }
  }

  /** On a sample that is already ascending both give the same value. */
  lemma QuantileOfAscending(values: seq<real>, p: real)
    requires Ascending(values)
    ensures Quantile(values, p) == QuantileSorted(values, p)
  {
    QuantileOfSorted(values, p);
  }

  /** The least value is the first of the ascending copy, the greatest the last. */
  lemma MinimumIsFirst(values: seq<real>)
    requires |values| > 0
    ensures Minimum(values) == Some(SortAscending(values)[0])
    ensures Maximum(values) == Some(SortAscending(values)[|values| - 1])
  {
    var s := SortAscending(values);
    SameMembers(values, s);
    LeastIsFirst(values, s, Minimum(values).value);
    GreatestIsLast(values, s, Maximum(values).value);
  }

  lemma LeastIsFirst(values: seq<real>, s: seq<real>, lo: real)
    requires Ascending(s) && |s| > 0
    requires forall v :: v in values <==> v in s
    requires lo in values && forall v :: v in values ==> lo <= v
    ensures lo == s[0]
  {
    var k :| 0 <= k < |s| && s[k] == lo;
    assert s[0] <= s[k];
    assert s[0] in values;
  }

  lemma GreatestIsLast(values: seq<real>, s: seq<real>, hi: real)
    requires Ascending(s) && |s| > 0
    requires forall v :: v in values <==> v in s
    requires hi in values && forall v :: v in values ==> v <= hi
    ensures hi == s[|s| - 1]
  {
    var k :| 0 <= k < |s| && s[k] == hi;
    assert s[k] <= s[|s| - 1];
    assert s[|s| - 1] in values;
  }

  lemma SameMembers(a: seq<real>, b: seq<real>)
    requires multiset(a) == multiset(b)
    ensures forall v :: v in a <==> v in b
  {
    forall v ensures v in a <==> v in b {
      assert v in a <==> v in multiset(a);
      assert v in b <==> v in multiset(b);
    }
  }

  /** Quantiles of one sample never decrease as the fraction grows. */
  lemma QuantileMonotone(values: seq<real>, p1: real, p2: real)
    requires |values| > 0 && p1 <= p2
    ensures Quantile(values, p1).value <= Quantile(values, p2).value
  {
    QuantileOfSorted(values, p1);
    QuantileOfSorted(values, p2);
    QuantileSortedMonotone(SortAscending(values), p1, p2);
  }

  lemma QuantileSortedMonotone(s: seq<real>, p1: real, p2: real)
    requires Ascending(s) && |s| > 0 && p1 <= p2
    ensures QuantileSorted(s, p1).value <= QuantileSorted(s, p2).value
  {
    var n := |s|;
    if p1 <= 0.0 || n < 2 {
      assert QuantileSorted(s, p1) == Some(s[0]);
    } else if p2 >= 1.0 {
      assert QuantileSorted(s, p2) == Some(s[n - 1]);
    } else {
      TimesMonotone(n - 1, p1, p2);
      FloorInRange(n, p1);
      FloorInRange(n, p2);
      InterpolateAtMonotone(s, Times(n - 1, p1), Times(n - 1, p2));
    }
  }

  lemma InterpolateAtMonotone(s: seq<real>, h1: real, h2: real)
    requires Ascending(s) && 0 <= h1.Floor && h2.Floor + 1 < |s| && h1 <= h2
    ensures InterpolateAt(s, h1) <= InterpolateAt(s, h2)
  {
    FloorMonotone(h1, h2);
    var i1, i2 := h1.Floor, h2.Floor;
    if i1 == i2 {
      LerpMonotone(s[i1], s[i1 + 1], h1 - i1 as real, h2 - i2 as real);
    } else {
      assert s[i1 + 1] <= s[i2];
    }
  }

  lemma TimesThree(p: real)
    ensures Times(3, p) == p + p + p
  {
    assert Times(1, p) == p;
  }

  /** Type-7 quartiles of the ascending sample 7, 7, 9, 11: 7, 8 and 9.5. */
  lemma QuartilesOfFourValues()
    ensures QuantileSorted([7.0, 7.0, 9.0, 11.0], 0.25) == Some(7.0)
    ensures QuantileSorted([7.0, 7.0, 9.0, 11.0], 0.5) == Some(8.0)
    ensures QuantileSorted([7.0, 7.0, 9.0, 11.0], 0.75) == Some(9.5)
  {
    TimesThree(0.25);
    TimesThree(0.5);
    TimesThree(0.75);
  }

  /** Type-7 quartiles of the ascending sample 5, 6: 5.25, 5.5 and 5.75. */
  lemma QuartilesOfTwoValues()
    ensures QuantileSorted([5.0, 6.0], 0.25) == Some(5.25)
    ensures QuantileSorted([5.0, 6.0], 0.5) == Some(5.5)
    ensures QuantileSorted([5.0, 6.0], 0.75) == Some(5.75)
  {
    assert Times(1, 0.25) == 0.25 && Times(1, 0.5) == 0.5 && Times(1, 0.75) == 0.75;
  }
}
