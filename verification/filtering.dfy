/**
 * `filterData` (dashboard.js:59-69): the rows that match the three dropdown
 * selections. Each selection is either a value of its field or the
 * wildcard "all"; the selections arrive as parameters rather than being
 * read from the page.
 */
module Filtering {
  import opened Vehicles
  import opened Sequences

  /** The dropdown value that selects every row. */
  const Wildcard: string := "all"

  /** One dropdown: the wildcard, or a value the field must equal. */
  predicate Admits(selection: string, field: string) {
    selection == Wildcard || field == selection
  }

  /** The predicate `filterData` hands to `data.filter`. */
  predicate Matches(r: Record, brand: string, segment: string, drivetrain: string) {
    Admits(brand, r.brand) && Admits(segment, r.segment) && Admits(drivetrain, r.drivetrain)
  }

  /**
   * `data.filter(...)`: the matching rows, each as often as in `data`, and no
   * others.
   */
  function FilterData(data: seq<Record>, brand: string, segment: string, drivetrain: string): (r: seq<Record>)
    ensures |r| <= |data|
    ensures forall x :: multiset(r)[x] == if Matches(x, brand, segment, drivetrain) then multiset(data)[x] else 0
  {
    if data == [] then []
    else
      var p := data[..|data| - 1];
      var last := data[|data| - 1];
      assert data == p + [last];
      FilterData(p, brand, segment, drivetrain) + (if Matches(last, brand, segment, drivetrain) then [last] else [])
  }

  /** A record is in the result exactly when it is in the input and matches. */
  lemma FilterMembership(data: seq<Record>, brand: string, segment: string, drivetrain: string, x: Record)
    ensures x in FilterData(data, brand, segment, drivetrain) <==> x in data && Matches(x, brand, segment, drivetrain)
  {
    var r := FilterData(data, brand, segment, drivetrain);
    assert x in r <==> x in multiset(r);
    assert x in data <==> x in multiset(data);
  }

  /** The positions of `data` whose rows match, in increasing order. */
  function MatchingIndices(data: seq<Record>, brand: string, segment: string, drivetrain: string): (idx: seq<nat>)
    ensures forall i :: 0 <= i < |idx| ==> idx[i] < |data|
    ensures forall i, j :: 0 <= i < j < |idx| ==> idx[i] < idx[j]
    ensures forall k :: 0 <= k < |data| ==> (k in idx <==> Matches(data[k], brand, segment, drivetrain))
  {
    if data == [] then []
    else
      var n := |data| - 1;
      var p := MatchingIndices(data[..n], brand, segment, drivetrain);
      p + (if Matches(data[n], brand, segment, drivetrain) then [n] else [])
  }

  /**
   * The result keeps the input's order: it is the input read at the matching
   * positions, in increasing order.
   */
  lemma {:induction false} FilterIsSubsequence(data: seq<Record>, brand: string, segment: string, drivetrain: string)
    ensures var r, idx := FilterData(data, brand, segment, drivetrain), MatchingIndices(data, brand, segment, drivetrain);
      |r| == |idx| && forall i :: 0 <= i < |r| ==> r[i] == data[idx[i]]
  {
    if data != [] {
      var n := |data| - 1;
      var p := data[..n];
      FilterIsSubsequence(p, brand, segment, drivetrain);
      var rp, ip := FilterData(p, brand, segment, drivetrain), MatchingIndices(p, brand, segment, drivetrain);
      var keep := Matches(data[n], brand, segment, drivetrain);
      forall i | 0 <= i < |rp| ensures ip[i] < n && rp[i] == data[ip[i]] {
        assert rp[i] == p[ip[i]];
      }
      SubsequenceStep(data, rp, ip, keep);
    }
  }

  /** A sequence whose every row matches is left as it is. */
  lemma {:induction false} FilterKeepsMatchingRows(data: seq<Record>, brand: string, segment: string, drivetrain: string)
    requires forall i :: 0 <= i < |data| ==> Matches(data[i], brand, segment, drivetrain)
    ensures FilterData(data, brand, segment, drivetrain) == data
  {
    if data != [] {
      var p := data[..|data| - 1];
      FilterKeepsMatchingRows(p, brand, segment, drivetrain);
      assert data == p + [data[|data| - 1]];
    }
  }

  /**
   * With every dropdown at "all" (the selection of the first render,
   * dashboard.js:50) the whole table is shown, in order.
   */
  lemma FilterAllIsIdentity(data: seq<Record>)
    ensures FilterData(data, Wildcard, Wildcard, Wildcard) == data
  {
    FilterKeepsMatchingRows(data, Wildcard, Wildcard, Wildcard);
  }

  /** Filtering a second time with the same selection changes nothing. */
  lemma FilterIdempotent(data: seq<Record>, brand: string, segment: string, drivetrain: string)
    ensures var r := FilterData(data, brand, segment, drivetrain);
      FilterData(r, brand, segment, drivetrain) == r
  {
    var r := FilterData(data, brand, segment, drivetrain);
    forall i | 0 <= i < |r| ensures Matches(r[i], brand, segment, drivetrain) {
      FilterMembership(data, brand, segment, drivetrain, r[i]);
    }
    FilterKeepsMatchingRows(r, brand, segment, drivetrain);
  }
}
