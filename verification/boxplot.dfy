/**
 * The data behind the acceleration box plot (dashboard.js:337-364): per
 * segment, the ascending present acceleration values and their quartiles,
 * extremes and interquartile range; the segments ordered by median.
 */
module BoxPlot {
  import opened Wrappers
  import opened Vehicles
  import opened Sequences
  import opened Sorting
  import opened Statistics
  import opened Grouping
  import opened Arrays

  /** `values.map(d => d.acceleration_0_100_s).filter(d => !isNaN(d))` */
  function Accelerations(group: seq<Record>): seq<real> {
    Present(Map(group, AccelerationOf))
  }

  /** `accelValues` after `accelValues.sort(d3.ascending)`. */
  function CleanSample(group: seq<Record>): seq<real> {
    SortAscending(Accelerations(group))
  }

  /** The summary of one segment's sample. */
  datatype BoxStats = BoxStats(q1: real, median: real, q3: real, iqr: real, min: real, max: real)

  /**
   * `d3.quantile` at 0.25, 0.5 and 0.75, `q3 - q1`, `d3.min` and `d3.max` of
   * the sample; all of them are undefined, here `None`, for an empty one.
   */
  function Summarize(values: seq<real>): Option<BoxStats> {
    if values == [] then None
    else
      var q1 := Quantile(values, 0.25).value;
      var median := Quantile(values, 0.5).value;
      var q3 := Quantile(values, 0.75).value;
      Some(BoxStats(q1, median, q3, q3 - q1, Minimum(values).value, Maximum(values).value))
  }

  /** `{segment, values, q1, median, q3, iqr, min, max}` */
  datatype SegmentBox = SegmentBox(segment: string, values: seq<real>, stats: Option<BoxStats>)

  function SegmentName(b: SegmentBox): string { b.segment }

  /** The entry for one segment. */
  function SegmentSummary(data: seq<Record>, segment: string): SegmentBox {
    var values := CleanSample(Group(data, SegmentOf, segment));
    SegmentBox(segment, values, Summarize(values))
  }

  /**
   * `Array.from(d3.group(data, d => d.segment), ...)`: one entry per segment
   * in order of first appearance. A segment without any acceleration value
   * keeps its entry, with no summary.
   */
  function SegmentBoxes(data: seq<Record>): seq<SegmentBox> {
    Summaries(data, Keys(data, SegmentOf))
  }

  /** The entries of the segments `ks`, in their order. */
  function Summaries(data: seq<Record>, ks: seq<string>): seq<SegmentBox> {
    seq(|ks|, i requires 0 <= i < |ks| => SegmentSummary(data, ks[i]))
  }

  /** Every segment has an acceleration value, so every entry has a median. */
  predicate AllSegmentsMeasured(data: seq<Record>) {
    forall i :: 0 <= i < |SegmentBoxes(data)| ==> SegmentBoxes(data)[i].stats.Some?
  }

  /**
   * The key of the comparator `(a, b) => a.median - b.median`. Under
   * `AllSegmentsMeasured` every entry has a median; the 0.0 for a missing one
   * is never compared.
   */
  function MedianKey(b: SegmentBox): real {
    if b.stats.Some? then b.stats.value.median else 0.0
  }

  /** The segment list that is drawn, by median ascending. */
  function BoxSource(data: seq<Record>): seq<SegmentBox>
    requires AllSegmentsMeasured(data)
  {
    SortByKey(SegmentBoxes(data), MedianKey)
  }

  /**
   * A segment's sample holds its rows' present acceleration values, each as
   * often as it occurs among them, in ascending order.
   */
  lemma SampleIsSortedPresentValues(group: seq<Record>)
    ensures Ascending(CleanSample(group))
    ensures forall v :: multiset(CleanSample(group))[v] == multiset(Map(group, AccelerationOf))[Some(v)]
  {
  }

  /**
   * For a non-empty ascending sample: min <= q1 <= median <= q3 <= max, the
   * extremes are its first and last values, iqr = q3 - q1 >= 0, and the
   * quartiles are the type-7 quantiles of the sorted sample.
   */
  lemma SummaryOrdered(values: seq<real>)
    requires Ascending(values) && values != []
    ensures Summarize(values).Some?
    ensures var s := Summarize(values).value;
      && s.min == values[0] && s.max == values[|values| - 1]
      && s.min <= s.q1 <= s.median <= s.q3 <= s.max
      && s.iqr == s.q3 - s.q1 >= 0.0
      && Some(s.q1) == QuantileSorted(values, 0.25)
      && Some(s.median) == QuantileSorted(values, 0.5)
      && Some(s.q3) == QuantileSorted(values, 0.75)
  {
    MinimumIsFirst(values);
    assert SortAscending(values) == values;
    QuantileMonotone(values, 0.25, 0.5);
    QuantileMonotone(values, 0.5, 0.75);
    QuantileOfAscending(values, 0.25);
    QuantileOfAscending(values, 0.5);
    QuantileOfAscending(values, 0.75);
  }

  /** An empty sample has no summary. */
  lemma EmptySampleHasNoSummary(values: seq<real>)
    ensures Summarize(values).None? <==> values == []
  {
  }

  /** The entries are the segments of the rows, once each, in order of first appearance. */
  lemma SegmentsOnce(data: seq<Record>)
    ensures Map(SegmentBoxes(data), SegmentName) == Keys(data, SegmentOf)
    ensures NoDuplicates(Map(SegmentBoxes(data), SegmentName))
    ensures forall i :: 0 <= i < |SegmentBoxes(data)| ==>
      SegmentBoxes(data)[i] == SegmentSummary(data, SegmentBoxes(data)[i].segment)
  {
    var ks, bs := Keys(data, SegmentOf), SegmentBoxes(data);
    assert |bs| == |ks|;
    forall i | 0 <= i < |ks| ensures bs[i] == SegmentSummary(data, ks[i]) && bs[i].segment == ks[i] {
    }
    assert Map(bs, SegmentName) == ks;
  }

  /** A drawn box is the entry of one of the segments. */
  lemma BoxIsSegmentEntry(data: seq<Record>, b: SegmentBox)
    requires AllSegmentsMeasured(data)
    requires b in BoxSource(data)
    ensures b in SegmentBoxes(data)
    ensures b == SegmentSummary(data, b.segment)
  {
    assert b in multiset(BoxSource(data));
    SegmentsOnce(data);
  }

  /**
   * Each segment of the rows gets exactly one box, and no other box is
   * drawn; each box carries its segment's sample and summary.
   */
  lemma BoxSegmentsOnce(data: seq<Record>)
    requires AllSegmentsMeasured(data)
    ensures DistinctBy(BoxSource(data), SegmentName)
    ensures forall s :: s in Map(BoxSource(data), SegmentName) <==> exists j :: 0 <= j < |data| && data[j].segment == s
    ensures forall i :: 0 <= i < |BoxSource(data)| ==> BoxSource(data)[i] == SegmentSummary(data, BoxSource(data)[i].segment)
  {
    BoxSegmentsDistinct(data);
    BoxSegmentsCover(data);
    forall i | 0 <= i < |BoxSource(data)| ensures BoxSource(data)[i] == SegmentSummary(data, BoxSource(data)[i].segment) {
      BoxIsSegmentEntry(data, BoxSource(data)[i]);
    }
  }

  lemma BoxSegmentsDistinct(data: seq<Record>)
    requires AllSegmentsMeasured(data)
    ensures DistinctBy(BoxSource(data), SegmentName)
  {
    var entries := SegmentBoxes(data);
    SegmentsOnce(data);
    assert forall i :: 0 <= i < |entries| ==> SegmentName(entries[i]) == Map(entries, SegmentName)[i];
    SortKeepsDistinctBy(entries, MedianKey, SegmentName);
  }

  lemma BoxSegmentsCover(data: seq<Record>)
    requires AllSegmentsMeasured(data)
    ensures forall s :: s in Map(BoxSource(data), SegmentName) <==> exists j :: 0 <= j < |data| && data[j].segment == s
  {
    var boxes, entries := BoxSource(data), SegmentBoxes(data);
    SegmentsOnce(data);
    SortKeepsLabels(entries, MedianKey, SegmentName);
    forall s ensures s in Map(boxes, SegmentName) <==> exists j :: 0 <= j < |data| && data[j].segment == s {
      assert s in Map(boxes, SegmentName) <==> s in Keys(data, SegmentOf);
      if exists j :: 0 <= j < |data| && data[j].segment == s {
        var j :| 0 <= j < |data| && data[j].segment == s;
        assert SegmentOf(data[j]) == s;
      }
    }
  }

  /** The boxes are ordered by median, lowest first. */
  lemma BoxesByMedian(data: seq<Record>)
    requires AllSegmentsMeasured(data)
    ensures forall i :: 0 <= i < |BoxSource(data)| ==> BoxSource(data)[i].stats.Some?
    ensures forall i, j :: 0 <= i < j < |BoxSource(data)| ==>
      BoxSource(data)[i].stats.value.median <= BoxSource(data)[j].stats.value.median
  {
    var boxes := BoxSource(data);
    forall i | 0 <= i < |boxes| ensures boxes[i].stats.Some? {
      BoxIsSegmentEntry(data, boxes[i]);
    }
    forall i, j | 0 <= i < j < |boxes| ensures boxes[i].stats.value.median <= boxes[j].stats.value.median {
      assert MedianKey(boxes[i]) <= MedianKey(boxes[j]);
    }
  }

  /** The sample 7, 7, 9, 11 has quartiles 7, 8 and 9.5, so an iqr of 2.5. */
  lemma SummaryOfFourValues()
    ensures Summarize([7.0, 7.0, 9.0, 11.0]) == Some(BoxStats(7.0, 8.0, 9.5, 2.5, 7.0, 11.0))
  {
    var v := [7.0, 7.0, 9.0, 11.0];
    assert Ascending(v);
    SummaryOrdered(v);
    QuartilesOfFourValues();
  }

  /** The sample 5, 6 has quartiles 5.25, 5.5 and 5.75, so an iqr of 0.5. */
  lemma SummaryOfTwoValues()
    ensures Summarize([5.0, 6.0]) == Some(BoxStats(5.25, 5.5, 5.75, 0.5, 5.0, 6.0))
  {
    var v := [5.0, 6.0];
    assert Ascending(v);
    SummaryOrdered(v);
    QuartilesOfTwoValues();
  }

  /**
   * Two segments, the first seen with the sample 7, 7, 9, 11 and the second
   * with 5, 6: the second, with the lower median, is drawn first.
   */
  lemma TwoSegmentsExample(data: seq<Record>, a: string, b: string)
    requires Keys(data, SegmentOf) == [a, b]
    requires CleanSample(Group(data, SegmentOf, a)) == [7.0, 7.0, 9.0, 11.0]
    requires CleanSample(Group(data, SegmentOf, b)) == [5.0, 6.0]
    ensures AllSegmentsMeasured(data)
    ensures BoxSource(data) == [
      SegmentBox(b, [5.0, 6.0], Some(BoxStats(5.25, 5.5, 5.75, 0.5, 5.0, 6.0))),
      SegmentBox(a, [7.0, 7.0, 9.0, 11.0], Some(BoxStats(7.0, 8.0, 9.5, 2.5, 7.0, 11.0)))]
  {
    ExampleEntries(data, a, b);
    SwappedByMedian(data,
      SegmentBox(a, [7.0, 7.0, 9.0, 11.0], Some(BoxStats(7.0, 8.0, 9.5, 2.5, 7.0, 11.0))),
      SegmentBox(b, [5.0, 6.0], Some(BoxStats(5.25, 5.5, 5.75, 0.5, 5.0, 6.0))));
  }

  /** Two measured segments, the second with the lower median, swap places. */
  lemma SwappedByMedian(data: seq<Record>, x: SegmentBox, y: SegmentBox)
    requires SegmentBoxes(data) == [x, y]
    requires x.stats.Some? && y.stats.Some? && y.stats.value.median < x.stats.value.median
    ensures AllSegmentsMeasured(data)
    ensures BoxSource(data) == [y, x]
  {
    TwoMeasured(data, x, y);
    MedianOrder(x, y);
  }

  lemma TwoMeasured(data: seq<Record>, x: SegmentBox, y: SegmentBox)
    requires SegmentBoxes(data) == [x, y]
    requires x.stats.Some? && y.stats.Some?
    ensures AllSegmentsMeasured(data)
  {
    var e := SegmentBoxes(data);
    forall i | 0 <= i < |e| ensures e[i].stats.Some? {
      assert e[i] == [x, y][i];
    }
  }

  /** The two entries of the example, in order of first appearance. */
  lemma ExampleEntries(data: seq<Record>, a: string, b: string)
    requires Keys(data, SegmentOf) == [a, b]
    requires CleanSample(Group(data, SegmentOf, a)) == [7.0, 7.0, 9.0, 11.0]
    requires CleanSample(Group(data, SegmentOf, b)) == [5.0, 6.0]
    ensures SegmentBoxes(data) == [
      SegmentBox(a, [7.0, 7.0, 9.0, 11.0], Some(BoxStats(7.0, 8.0, 9.5, 2.5, 7.0, 11.0))),
      SegmentBox(b, [5.0, 6.0], Some(BoxStats(5.25, 5.5, 5.75, 0.5, 5.0, 6.0)))]
  {
    SummaryOfFourValues();
    SummaryOfTwoValues();
    EntryOfSample(data, a, [7.0, 7.0, 9.0, 11.0]);
    EntryOfSample(data, b, [5.0, 6.0]);
    TwoEntries(data, a, b,
      SegmentBox(a, [7.0, 7.0, 9.0, 11.0], Some(BoxStats(7.0, 8.0, 9.5, 2.5, 7.0, 11.0))),
      SegmentBox(b, [5.0, 6.0], Some(BoxStats(5.25, 5.5, 5.75, 0.5, 5.0, 6.0))));
  }

  /** The entry of a segment whose sample is known. */
  lemma EntryOfSample(data: seq<Record>, segment: string, values: seq<real>)
    requires CleanSample(Group(data, SegmentOf, segment)) == values
    ensures SegmentSummary(data, segment) == SegmentBox(segment, values, Summarize(values))
  {
  }

  /** The entries of two segments whose samples are known. */
  lemma TwoEntries(data: seq<Record>, a: string, b: string, boxA: SegmentBox, boxB: SegmentBox)
    requires Keys(data, SegmentOf) == [a, b]
    requires SegmentSummary(data, a) == boxA && SegmentSummary(data, b) == boxB
    ensures SegmentBoxes(data) == [boxA, boxB]
  {
    var s := Summaries(data, [a, b]);
    assert s[0] == boxA;
    assert s[1] == boxB;
  }

  /** Two entries, the second with the lower median, swap places. */
  lemma MedianOrder(x: SegmentBox, y: SegmentBox)
    requires MedianKey(y) < MedianKey(x)
    ensures SortByKey([x, y], MedianKey) == [y, x]
  {
    assert SortedByKey([y, x], MedianKey);
    assert forall k :: WithKey([y, x], MedianKey, k) == WithKey([x, y], MedianKey, k);
    StableSortIsSortByKey([x, y], [y, x], MedianKey);
  }

  /**
   * The segment list as the chart code builds it: for each segment an array
   * of its present values sorted in place, summarised; then the list of
   * entries sorted in place by median.
   */
  method BoxPlotData(data: seq<Record>) returns (boxes: seq<SegmentBox>)
    requires AllSegmentsMeasured(data)
    ensures boxes == BoxSource(data)
  {
    var entries := SummarizeSegments(data, Keys(data, SegmentOf));
    var list := ToArray(entries);
    SortInPlace(list, MedianKey);
    boxes := list[..];
  }

  /** The entries of the segments `ks`, built one segment after another. */
  method SummarizeSegments(data: seq<Record>, ks: seq<string>) returns (entries: seq<SegmentBox>)
    ensures entries == Summaries(data, ks)
  {
    entries := [];
    for i := 0 to |ks|
      invariant entries == Summaries(data, ks[..i])
    {
      var values := SortedSample(Group(data, SegmentOf, ks[i]));
      EntryOfSample(data, ks[i], values);
      SummariesAppend(data, ks, i);
      entries := entries + [SegmentBox(ks[i], values, Summarize(values))];
    }
    assert ks[..|ks|] == ks;
  }

  /** One more segment adds its entry at the end. */
  lemma SummariesAppend(data: seq<Record>, ks: seq<string>, i: nat)
    requires i < |ks|
    ensures Summaries(data, ks[..i + 1]) == Summaries(data, ks[..i]) + [SegmentSummary(data, ks[i])]
  {
    var l, r := Summaries(data, ks[..i + 1]), Summaries(data, ks[..i]) + [SegmentSummary(data, ks[i])];
    assert |l| == |r|;
    forall j | 0 <= j < |l| ensures l[j] == r[j] {
      if j < i {
        assert ks[..i + 1][j] == ks[..i][j];
      }
    }
  }

  /** `accelValues`, built and then sorted in place with `d3.ascending`. */
  method SortedSample(group: seq<Record>) returns (values: seq<real>)
    ensures values == CleanSample(group)
  {
    var sample := ToArray(Accelerations(group));
    SortInPlace(sample, Identity);
    values := sample[..];
  }
}
