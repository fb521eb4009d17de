/**
 * `d3.group(data, key)` and `d3.rollup(data, v => v.length, key)`: the rows
 * grouped by a string field, the groups in order of their key's first
 * appearance.
 */
module Grouping {
  import opened Vehicles
  import opened Sequences

  /** The keys of the grouping, once each, in order of first appearance. */
  function Keys(data: seq<Record>, f: Record -> string): (ks: seq<string>)
    ensures NoDuplicates(ks)
    ensures forall k :: k in ks <==> exists i :: 0 <= i < |data| && f(data[i]) == k
  {
    var ks := Distinct(Map(data, f));
    assert forall k :: k in ks ==> k in Map(data, f);
    assert forall i :: 0 <= i < |data| ==> Map(data, f)[i] == f(data[i]);
    ks
  }

  /**
   * The keys come in order of first appearance: the `i`-th key is the field
   * of the row at the `i`-th position where a new value first shows up.
   */
  lemma KeysInFirstAppearanceOrder(data: seq<Record>, f: Record -> string)
    ensures var ks, idx := Keys(data, f), FirstOccurrences(Map(data, f));
      |ks| == |idx| && forall i :: 0 <= i < |ks| ==> idx[i] < |data| && ks[i] == f(data[idx[i]])
  {
    DistinctIsFirstOccurrences(Map(data, f));
  }

  /** The group of key `k`: the rows whose field is `k`, each as often as in `data`. */
  function Group(data: seq<Record>, f: Record -> string, k: string): (g: seq<Record>)
    ensures |g| <= |data|
    ensures forall i :: 0 <= i < |g| ==> f(g[i]) == k
    ensures forall x :: multiset(g)[x] == if f(x) == k then multiset(data)[x] else 0
  {
    if data == [] then []
    else
      var p := data[..|data| - 1];
      var last := data[|data| - 1];
      assert data == p + [last];
      Group(p, f, k) + (if f(last) == k then [last] else [])
  }

  /** The size of the group of `k`: `v.length` in the rollup. */
  function Count(data: seq<Record>, f: Record -> string, k: string): nat {
    |Group(data, f, k)|
  }

  /** Only keys that occur have rows, and every key that occurs has one. */
  lemma {:induction false} CountPositive(data: seq<Record>, f: Record -> string, k: string)
    ensures Count(data, f, k) >= 1 <==> exists i :: 0 <= i < |data| && f(data[i]) == k
  {
    if data != [] {
      var p := data[..|data| - 1];
      CountPositive(p, f, k);
      assert data == p + [data[|data| - 1]];
      if exists i :: 0 <= i < |data| && f(data[i]) == k {
        var i :| 0 <= i < |data| && f(data[i]) == k;
        if i < |p| {
          assert f(p[i]) == k;
        }
      }
    }
  }

  /** The size of a group is the number of rows whose field is its key. */
  lemma {:induction false} CountIsOccurrences(data: seq<Record>, f: Record -> string, k: string)
    ensures Count(data, f, k) == Occurrences(Map(data, f), k)
  {
    if data != [] {
      var p := data[..|data| - 1];
      CountIsOccurrences(p, f, k);
      CountSplit(data, f, k);
      assert Map(data, f)[..|data| - 1] == Map(p, f);
    }
  }

  /** One rollup entry: a key and the size of its group. */
  datatype Tally = Tally(key: string, count: nat)

  /**
   * `Array.from(d3.rollup(data, v => v.length, f), ([key, count]) => ...)`:
   * one entry per key, in order of first appearance, with its group's size.
   */
  function Tallies(data: seq<Record>, f: Record -> string): (ts: seq<Tally>)
    ensures |ts| == |Keys(data, f)|
    ensures forall i :: 0 <= i < |ts| ==> ts[i].key == Keys(data, f)[i]
    ensures forall i :: 0 <= i < |ts| ==> ts[i].count == Count(data, f, ts[i].key)
  {
    var ks := Keys(data, f);
    seq(|ks|, i requires 0 <= i < |ks| => Tally(ks[i], Count(data, f, ks[i])))
  }

  function TallyKey(t: Tally): string { t.key }

  /** The sum of the counts. */
  function Total(ts: seq<Tally>): nat {
    if ts == [] then 0 else Total(ts[..|ts| - 1]) + ts[|ts| - 1].count
  }

  /** The group sizes of the keys `ks`, summed. */
  function CountOver(data: seq<Record>, f: Record -> string, ks: seq<string>): nat {
    if ks == [] then 0 else CountOver(data, f, ks[..|ks| - 1]) + Count(data, f, ks[|ks| - 1])
  }

  /** Dropping the last row lowers the sum once for each time its key is listed. */
  lemma {:induction false} CountOverSplit(data: seq<Record>, f: Record -> string, ks: seq<string>)
    requires data != []
    ensures CountOver(data, f, ks)
         == CountOver(data[..|data| - 1], f, ks) + Occurrences(ks, f(data[|data| - 1]))
  {
    if ks != [] {
      var q, k := ks[..|ks| - 1], ks[|ks| - 1];
      var p, x := data[..|data| - 1], f(data[|data| - 1]);
      CountOverSplit(data, f, q);
      CountSplit(data, f, k);
      assert CountOver(data, f, ks) == CountOver(data, f, q) + Count(data, f, k);
      assert CountOver(p, f, ks) == CountOver(p, f, q) + Count(p, f, k);
      assert Occurrences(ks, x) == Occurrences(q, x) + (if k == x then 1 else 0);
    }
  }

  /** Removing the last row lowers only the count of its own key, by one. */
  lemma CountSplit(data: seq<Record>, f: Record -> string, k: string)
    requires data != []
    ensures Count(data, f, k) == Count(data[..|data| - 1], f, k) + (if f(data[|data| - 1]) == k then 1 else 0)
  {
    assert data == data[..|data| - 1] + [data[|data| - 1]];
  }

  /**
   * Summed over distinct keys that cover every row, the group sizes add up
   * to the number of rows: the groups partition the data.
   */
  lemma {:induction false} CountOverCoveringKeys(data: seq<Record>, f: Record -> string, ks: seq<string>)
    requires NoDuplicates(ks)
    requires forall i :: 0 <= i < |data| ==> f(data[i]) in ks
    ensures CountOver(data, f, ks) == |data|
  {
    if data == [] {
      CountOverEmpty(f, ks);
    } else {
      var p := data[..|data| - 1];
      assert forall i :: 0 <= i < |p| ==> p[i] == data[i];
      CountOverCoveringKeys(p, f, ks);
      CountOverSplit(data, f, ks);
      OccurrencesOfDistinct(ks, f(data[|data| - 1]));
    }
  }

  lemma {:induction false} CountOverEmpty(f: Record -> string, ks: seq<string>)
    ensures CountOver([], f, ks) == 0
  {
    if ks != [] {
      CountOverEmpty(f, ks[..|ks| - 1]);
    }
  }

  lemma {:induction false} TotalIsCountOver(data: seq<Record>, f: Record -> string, ts: seq<Tally>, ks: seq<string>)
    requires |ts| == |ks|
    requires forall i :: 0 <= i < |ts| ==> ts[i].count == Count(data, f, ks[i])
    ensures Total(ts) == CountOver(data, f, ks)
  {
    if ts != [] {
      TotalIsCountOver(data, f, ts[..|ts| - 1], ks[..|ks| - 1]);
    }
  }

  /** The rollup's counts sum to the number of rows. */
  lemma TalliesTotal(data: seq<Record>, f: Record -> string)
    ensures Total(Tallies(data, f)) == |data|
  {
    var ks := Keys(data, f);
    assert forall i :: 0 <= i < |data| ==> f(data[i]) in ks;
    TotalIsCountOver(data, f, Tallies(data, f), ks);
    CountOverCoveringKeys(data, f, ks);
  }

  /**
   * The entries' keys are the keys of the data in order of first appearance,
   * so there is one entry per key that occurs and none for any other; every
   * count is at least one.
   */
  lemma TalliesCoverKeys(data: seq<Record>, f: Record -> string)
    ensures Map(Tallies(data, f), TallyKey) == Keys(data, f)
    ensures NoDuplicates(Map(Tallies(data, f), TallyKey))
    ensures forall k :: k in Map(Tallies(data, f), TallyKey) <==> exists j :: 0 <= j < |data| && f(data[j]) == k
    ensures forall i :: 0 <= i < |Tallies(data, f)| ==> Tallies(data, f)[i].count >= 1
  {
    var ts := Tallies(data, f);
    assert Map(ts, TallyKey) == Keys(data, f);
    forall i | 0 <= i < |ts| ensures ts[i].count >= 1 {
      CountPositive(data, f, ts[i].key);
    }
  }
}
