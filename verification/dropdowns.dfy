/** The option lists of the brand and segment filters (`[...new Set(..)].sort()`). */
module Dropdowns {
  import opened Sequences
  import opened StringOrder
  import opened Vehicles

  /** The distinct values of field `f` over `data`, in ascending order. */
  function FieldOptions(data: seq<Record>, f: Record -> string): (r: seq<string>)
    ensures StrictlySorted(r)
    ensures NoDuplicates(r)
    ensures forall v :: v in r <==> exists i :: 0 <= i < |data| && f(data[i]) == v
  {
    var present := Distinct(Map(data, f));
    SortStringsSorted(present);
    var r := SortStrings(present);
    StrictlySortedHasNoDuplicates(r);
    forall v ensures v in r <==> v in present {
      assert v in r <==> v in multiset(present);
    }
    forall v ensures v in present <==> exists i :: 0 <= i < |data| && f(data[i]) == v {
      if v in present {
        var k :| 0 <= k < |present| && present[k] == v;
        var i :| 0 <= i < |Map(data, f)| && Map(data, f)[i] == v;
        assert f(data[i]) == v;
      }
      if exists i :: 0 <= i < |data| && f(data[i]) == v {
        var i :| 0 <= i < |data| && f(data[i]) == v;
        assert Map(data, f)[i] == v;
      }
    }
    r
  }

  function BrandOptions(data: seq<Record>): (r: seq<string>)
    ensures StrictlySorted(r)
    ensures NoDuplicates(r)
    ensures forall b :: b in r <==> exists i :: 0 <= i < |data| && data[i].brand == b
  {
    FieldOptions(data, BrandOf)
  }

  function SegmentOptions(data: seq<Record>): (r: seq<string>)
    ensures StrictlySorted(r)
    ensures NoDuplicates(r)
    ensures forall s :: s in r <==> exists i :: 0 <= i < |data| && data[i].segment == s
  {
    FieldOptions(data, SegmentOf)
  }
}
