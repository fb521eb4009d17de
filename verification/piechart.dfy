/**
 * The data behind the drivetrain pie chart (dashboard.js:271-278): one
 * entry per drivetrain in order of first appearance, with its row count.
 */
module PieChart {
  import opened Vehicles
  import opened Sequences
  import opened Grouping

  /** `drivetrainArray`: the entries `{drivetrain, count}` as `Tally(key, count)`. */
  function DrivetrainCounts(data: seq<Record>): seq<Tally> {
    Tallies(data, DrivetrainOf)
  }

  /** One entry per drivetrain that occurs in the rows, and none for any other. */
  lemma PieOneEntryPerDrivetrain(data: seq<Record>)
    ensures NoDuplicates(Map(DrivetrainCounts(data), TallyKey))
    ensures forall d :: d in Map(DrivetrainCounts(data), TallyKey) <==> exists j :: 0 <= j < |data| && data[j].drivetrain == d
  {
    TalliesCoverKeys(data, DrivetrainOf);
  }

  /**
   * The slices come in order of first appearance: the `i`-th entry is the
   * drivetrain of the row at the `i`-th position where a new drivetrain
   * first shows up.
   */
  lemma PieInFirstAppearanceOrder(data: seq<Record>)
    ensures var ts, idx := DrivetrainCounts(data), FirstOccurrences(Map(data, DrivetrainOf));
      |ts| == |idx| && forall i :: 0 <= i < |ts| ==> idx[i] < |data| && ts[i].key == data[idx[i]].drivetrain
  {
    KeysInFirstAppearanceOrder(data, DrivetrainOf);
  }

  /** Each count is the number of rows with that drivetrain, and so at least one. */
  lemma PieCountsPositive(data: seq<Record>)
    ensures forall i :: 0 <= i < |DrivetrainCounts(data)| ==>
      DrivetrainCounts(data)[i].count == Occurrences(Map(data, DrivetrainOf), DrivetrainCounts(data)[i].key) >= 1
  {
    var r := DrivetrainCounts(data);
    TalliesCoverKeys(data, DrivetrainOf);
    forall i | 0 <= i < |r| ensures r[i].count == Occurrences(Map(data, DrivetrainOf), r[i].key) {
      CountIsOccurrences(data, DrivetrainOf, r[i].key);
    }
  }

  /** The slices add up to the whole: the counts sum to the number of rows. */
  lemma PieCountsSum(data: seq<Record>)
    ensures Total(DrivetrainCounts(data)) == |data|
  {
    TalliesTotal(data, DrivetrainOf);
  }
}
