/**
 * The data behind the efficiency bar chart (dashboard.js:174-193): the 15
 * brands with the most rows, each with its mean efficiency, ordered by that
 * mean ascending.
 */
module BarChart {
  import opened Wrappers
  import opened Vehicles
  import opened Sequences
  import opened Sorting
  import opened Statistics
  import opened Grouping
  import opened Arrays

  /** How many brands the chart keeps: `.slice(0, 15)`. */
  const TopCount: nat := 15

  function Min(a: nat, b: nat): nat {
    if a <= b then a else b
  }

  /** The key of the comparator `(a, b) => b.count - a.count`: count, descending. */
  function CountKey(t: Tally): real {
    -(t.count as real)
  }

  /**
   * `Array.from(brandCounts, ...).sort((a, b) => b.count - a.count)`: the
   * brands by row count, most first; the sort is stable, so brands with
   * equal counts stay in order of first appearance.
   */
  function RankedBrands(data: seq<Record>): seq<Tally> {
    SortByKey(Tallies(data, BrandOf), CountKey)
  }

  /** `.slice(0, 15)` of the ranking. */
  function TopBrands(data: seq<Record>): seq<Tally> {
    var ranked := RankedBrands(data);
    ranked[..Min(TopCount, |ranked|)]
  }

  /**
   * `brandEfficiency.get(brand)`: `d3.mean` of the brand's efficiency
   * values, missing ones skipped; `None` when the brand has none.
   */
  function BrandMean(data: seq<Record>, brand: string): Option<real> {
    Mean(Map(Group(data, BrandOf, brand), EfficiencyOf))
  }

  /** One bar: `{brand, efficiency}`. */
  datatype BarEntry = BarEntry(brand: string, efficiency: Option<real>)

  function EntryBrand(e: BarEntry): string { e.brand }

  /** `.map(d => ({brand: d.brand, efficiency: brandEfficiency.get(d.brand)}))` */
  function TopBrandEfficiencies(data: seq<Record>): seq<BarEntry> {
    Map(TopBrands(data), (t: Tally) => BarEntry(t.key, BrandMean(data, t.key)))
  }

  /**
   * Every kept brand has at least one efficiency value, so every bar has a
   * mean for the final comparator to compare.
   */
  predicate TopBrandsMeasured(data: seq<Record>) {
    forall i :: 0 <= i < |TopBrandEfficiencies(data)| ==> TopBrandEfficiencies(data)[i].efficiency.Some?
  }

  /**
   * The key of the comparator `(a, b) => a.efficiency - b.efficiency`. Under
   * `TopBrandsMeasured` every entry has a mean; the 0.0 for a missing one is
   * never compared.
   */
  function EfficiencyKey(e: BarEntry): real {
    if e.efficiency.Some? then e.efficiency.value else 0.0
  }

  /** The bar list that is drawn: the kept brands, by mean efficiency ascending. */
  function BarSource(data: seq<Record>): seq<BarEntry>
    requires TopBrandsMeasured(data)
  {
    SortByKey(TopBrandEfficiencies(data), EfficiencyKey)
  }

  /** The ranking is a rearrangement of the brand counts, most rows first. */
  lemma RankingDescending(data: seq<Record>)
    ensures multiset(RankedBrands(data)) == multiset(Tallies(data, BrandOf))
    ensures forall i, j :: 0 <= i < j < |RankedBrands(data)| ==> RankedBrands(data)[i].count >= RankedBrands(data)[j].count
  {
    var r := RankedBrands(data);
    forall i, j | 0 <= i < j < |r| ensures r[i].count >= r[j].count {
      assert CountKey(r[i]) <= CountKey(r[j]);
    }
  }

  /**
   * Brands with the same count appear in the ranking in the order in which
   * they first appear in the rows: for every count, the brands with that
   * count (the entries whose key is `k`) are in the same order before and
   * after the sort.
   */
  lemma RankingKeepsTieOrder(data: seq<Record>, k: real)
    ensures WithKey(RankedBrands(data), CountKey, k) == WithKey(Tallies(data, BrandOf), CountKey, k)
  {
    SortStable(Tallies(data, BrandOf), CountKey, k);
  }

  /** Every entry of the ranking is some brand with its own row count. */
  lemma RankedEntry(data: seq<Record>, i: nat)
    requires i < |RankedBrands(data)|
    ensures RankedBrands(data)[i].key in Keys(data, BrandOf)
    ensures RankedBrands(data)[i].count == Count(data, BrandOf, RankedBrands(data)[i].key)
  {
    var ts, r := Tallies(data, BrandOf), RankedBrands(data);
    assert r[i] in multiset(r);
    assert r[i] in ts;
  }

  /** Every brand of the data has its entry somewhere in the ranking. */
  lemma BrandIsRanked(data: seq<Record>, b: string) returns (j: nat)
    requires b in Keys(data, BrandOf)
    ensures j < |RankedBrands(data)| && RankedBrands(data)[j] == Tally(b, Count(data, BrandOf, b))
  {
    var ts, ks, r := Tallies(data, BrandOf), Keys(data, BrandOf), RankedBrands(data);
    var k :| 0 <= k < |ks| && ks[k] == b;
    assert ts[k] == Tally(b, Count(data, BrandOf, b));
    assert ts[k] in multiset(r);
    j :| 0 <= j < |r| && r[j] == ts[k];
  }

  /** The ranking holds each brand once. */
  lemma RankingDistinct(data: seq<Record>)
    ensures DistinctBy(RankedBrands(data), TallyKey)
  {
    var ts := Tallies(data, BrandOf);
    TalliesCoverKeys(data, BrandOf);
    assert forall i :: 0 <= i < |ts| ==> TallyKey(ts[i]) == Map(ts, TallyKey)[i];
    SortKeepsDistinctBy(ts, CountKey, TallyKey);
  }

  /** The kept entries, one per kept brand, before the last sort. */
  lemma TopEntry(data: seq<Record>, i: nat)
    requires i < |TopBrandEfficiencies(data)|
    ensures i < |TopBrands(data)| && i < |RankedBrands(data)|
    ensures TopBrandEfficiencies(data)[i] == BarEntry(RankedBrands(data)[i].key, BrandMean(data, RankedBrands(data)[i].key))
  {
    var r, top := RankedBrands(data), TopBrands(data);
    assert |top| == Min(TopCount, |r|);
    assert top[i] == r[i];
  }

  /** A bar is the entry of one of the kept brands. */
  lemma BarIsTopEntry(data: seq<Record>, e: BarEntry) returns (i: nat)
    requires TopBrandsMeasured(data)
    requires e in BarSource(data)
    ensures i < |TopBrandEfficiencies(data)| && TopBrandEfficiencies(data)[i] == e
  {
    assert e in multiset(BarSource(data));
    assert e in TopBrandEfficiencies(data);
    i :| 0 <= i < |TopBrandEfficiencies(data)| && TopBrandEfficiencies(data)[i] == e;
  }

  /** The entry of every kept brand is one of the bars. */
  lemma TopEntryHasBar(data: seq<Record>, i: nat)
    requires TopBrandsMeasured(data)
    requires i < |TopBrandEfficiencies(data)|
    ensures TopBrandEfficiencies(data)[i] in BarSource(data)
  {
    assert TopBrandEfficiencies(data)[i] in multiset(BarSource(data));
  }

  /** There are min(15, number of brands) bars. */
  lemma BarCount(data: seq<Record>)
    requires TopBrandsMeasured(data)
    ensures |BarSource(data)| == Min(TopCount, |Keys(data, BrandOf)|)
  {
  }

  /** The bars name distinct brands, each of which occurs in the rows. */
  lemma BarBrandsDistinct(data: seq<Record>)
    requires TopBrandsMeasured(data)
    ensures DistinctBy(BarSource(data), EntryBrand)
    ensures forall i :: 0 <= i < |BarSource(data)| ==>
      exists j :: 0 <= j < |data| && data[j].brand == BarSource(data)[i].brand
  {
    var r, top, bars := RankedBrands(data), TopBrandEfficiencies(data), BarSource(data);
    RankingDistinct(data);
    forall i, j | 0 <= i < j < |top| ensures EntryBrand(top[i]) != EntryBrand(top[j]) {
      TopEntry(data, i);
      TopEntry(data, j);
      assert TallyKey(r[i]) != TallyKey(r[j]);
    }
    SortKeepsDistinctBy(top, EfficiencyKey, EntryBrand);
    forall i | 0 <= i < |bars| ensures exists j :: 0 <= j < |data| && data[j].brand == bars[i].brand {
      var k := BarIsTopEntry(data, bars[i]);
      TopEntry(data, k);
      RankedEntry(data, k);
      assert BrandOf(data[0]) == data[0].brand;
    }
  }

  /**
   * Top by count: a brand of the rows that got no bar has no more rows than
   * any brand that did.
   */
  lemma BarsHaveTheMostRows(data: seq<Record>, b: string, i: nat)
    requires TopBrandsMeasured(data)
    requires b in Keys(data, BrandOf)
    requires forall e :: e in BarSource(data) ==> e.brand != b
    requires i < |BarSource(data)|
    ensures Count(data, BrandOf, b) <= Count(data, BrandOf, BarSource(data)[i].brand)
  {
    var r, top, bars := RankedBrands(data), TopBrandEfficiencies(data), BarSource(data);
    var j := BrandIsRanked(data, b);
    var k := BarIsTopEntry(data, bars[i]);
    TopEntry(data, k);
    RankedEntry(data, k);
    if j < |top| {
      TopEntry(data, j);
      TopEntryHasBar(data, j);
      assert false;
    }
    RankingDescending(data);
    assert r[k].count >= r[j].count;
  }

  /**
   * Each bar's efficiency is its brand's mean over the present efficiency
   * values, and so lies between their least and greatest.
   */
  lemma BarEfficiencyIsMean(data: seq<Record>)
    requires TopBrandsMeasured(data)
    ensures forall i :: 0 <= i < |BarSource(data)| ==>
      var effs := Present(Map(Group(data, BrandOf, BarSource(data)[i].brand), EfficiencyOf));
      && BarSource(data)[i].efficiency == BrandMean(data, BarSource(data)[i].brand)
      && effs != []
      && Minimum(effs).value <= BarSource(data)[i].efficiency.value <= Maximum(effs).value
  {
    var bars := BarSource(data);
    forall i | 0 <= i < |bars|
      ensures bars[i].efficiency == BrandMean(data, bars[i].brand) && bars[i].efficiency.Some?
    {
      var k := BarIsTopEntry(data, bars[i]);
      TopEntry(data, k);
    }
  }

  /** The bars are ordered by efficiency, lowest first. */
  lemma BarsAscending(data: seq<Record>)
    requires TopBrandsMeasured(data)
    ensures forall i :: 0 <= i < |BarSource(data)| ==> BarSource(data)[i].efficiency.Some?
    ensures forall i, j :: 0 <= i < j < |BarSource(data)| ==>
      BarSource(data)[i].efficiency.value <= BarSource(data)[j].efficiency.value
  {
    var bars := BarSource(data);
    forall i | 0 <= i < |bars| ensures bars[i].efficiency.Some? {
      var k := BarIsTopEntry(data, bars[i]);
    }
    forall i, j | 0 <= i < j < |bars| ensures bars[i].efficiency.value <= bars[j].efficiency.value {
      assert EfficiencyKey(bars[i]) <= EfficiencyKey(bars[j]);
    }
  }

  /**
   * The bar list as the chart code builds it: the brand counts in an array
   * sorted in place by count, the first 15 mapped to their means, and those
   * entries sorted in place by mean.
   */
  method BarChartData(data: seq<Record>) returns (bars: seq<BarEntry>)
    requires TopBrandsMeasured(data)
    ensures bars == BarSource(data)
  {
    var ranked := ToArray(Tallies(data, BrandOf));
    SortInPlace(ranked, CountKey);
    var top := Map(ranked[..Min(TopCount, ranked.Length)], (t: Tally) => BarEntry(t.key, BrandMean(data, t.key)));
    var entries := ToArray(top);
    SortInPlace(entries, EfficiencyKey);
    bars := entries[..];
  }
}
