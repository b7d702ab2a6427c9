/** What the legend promises about its items: one item per record when nothing is
    folded; otherwise one item per distinct key, in first-seen order, whose series ids
    partition the records and name the very series the chart draws. */
module LegendProperties {
  import opened HarmonizerTypes
  import opened LegendGrouping
  import ChartSeries

  /** The distinct keys carried by the records. */
  function KeySet(data: seq<DataPoint>, mode: Mode): (r: set<string>)
    requires mode.Grouped()
  {
    set i | 0 <= i < |data| :: Key(data[i], mode)
  }

  /** Some item of the legend lists the series id `id`. */
  predicate Listed(r: seq<LegendItem>, id: SeriesId) {
    exists j, t :: 0 <= j < |r| && 0 <= t < |r[j].seriesIds| && r[j].seriesIds[t] == id
  }

  /** A sequence without repetitions has as many elements as its set. */
  lemma {:induction false} DistinctCardinality(ks: seq<string>)
    requires Distinct(ks)
    ensures |set k | k in ks| == |ks|
  {
    if ks != [] {
      var init := ks[..|ks| - 1];
      assert Distinct(init);
      DistinctCardinality(init);
      assert (set k | k in ks) == (set k | k in init) + {ks[|ks| - 1]};
      assert ks[|ks| - 1] !in init;
    }
  }

  /** An item of a grouped legend is the projection of the dictionary entry at the
      same position. */
  lemma GroupedItem(data: seq<DataPoint>, mode: Mode, j: nat)
    requires mode.Grouped() && j < |Group(data, mode)|
    ensures |Entries(data, mode)| == |Group(data, mode)|
    ensures EntriesValid(data, Entries(data, mode))
    ensures Group(data, mode)[j] == EntryItem(data, mode, Entries(data, mode)[j])
  {
    EntriesAreValid(data, mode);
  }

  /** The item at position `j` of a grouped legend belongs to the `j`-th key in
      first-seen order, and its series ids are those of that key's members. */
  lemma GroupedItemIds(data: seq<DataPoint>, mode: Mode, j: nat)
    requires mode.Grouped() && j < |Group(data, mode)|
    ensures var keys := KeysOf(data, mode);
      var key := KeyOrder(keys, |data|)[j];
      var ms := Members(keys, |data|, key);
      && Group(data, mode)[j].id == key
      && |Group(data, mode)[j].seriesIds| == |ms| > 0
      && forall t :: 0 <= t < |ms| ==> ms[t] < |data| && Group(data, mode)[j].seriesIds[t] == SeriesIdOf(data, ms[t])
  {
    GroupedItem(data, mode, j);
  }

  /** With nothing folded there is one item per record, in input order: one colour,
      the pair name as label and tooltip, and the record's own series id. */
  lemma PairModeOneItemPerRecord(data: seq<DataPoint>)
    ensures var r := Group(data, VariableVersion);
      && |r| == |data|
      && forall i :: 0 <= i < |r| ==>
        && r[i].id == data[i].variable + "-" + data[i].version
        && r[i].labelText == r[i].tooltip == PairName(data[i])
        && r[i].colors == [data[i].color]
        && r[i].seriesIds == [SeriesIdOf(data, i)]
  {
  }

  /** A grouped legend has exactly one item per distinct key: item ids are the keys,
      pairwise distinct, and every record's key is the id of some item. */
  lemma GroupedOneItemPerKey(data: seq<DataPoint>, mode: Mode)
    requires mode.Grouped()
    ensures var r := Group(data, mode);
      && |r| == |KeySet(data, mode)|
      && (forall a, b :: 0 <= a < b < |r| ==> r[a].id != r[b].id)
      && (forall j :: 0 <= j < |r| ==> r[j].id in KeySet(data, mode))
      && (forall i :: 0 <= i < |data| ==> exists j :: 0 <= j < |r| && r[j].id == Key(data[i], mode))
  {
    GroupedItemCount(data, mode);
    GroupedIdsDistinctKeys(data, mode);
    EveryKeyHasItem(data, mode);
  }

  /** A grouped legend has as many items as there are distinct keys. */
  lemma GroupedItemCount(data: seq<DataPoint>, mode: Mode)
    requires mode.Grouped()
    ensures |Group(data, mode)| == |KeySet(data, mode)|
  {
    var ks := KeyOrder(KeysOf(data, mode), |data|);
    GroupedIdsAreKeyOrder(data, mode);
    KeyOrderIsKeySet(data, mode);
    KeyOrderContents(KeysOf(data, mode), |data|);
    DistinctCardinality(ks);
    assert (set k | k in ks) == KeySet(data, mode);
  }

  /** The item ids of a grouped legend are pairwise distinct keys of the records. */
  lemma GroupedIdsDistinctKeys(data: seq<DataPoint>, mode: Mode)
    requires mode.Grouped()
    ensures var r := Group(data, mode);
      && (forall a, b :: 0 <= a < b < |r| ==> r[a].id != r[b].id)
      && (forall j :: 0 <= j < |r| ==> r[j].id in KeySet(data, mode))
  {
    GroupedIdsAreKeyOrder(data, mode);
    KeyOrderIsKeySet(data, mode);
    KeyOrderContents(KeysOf(data, mode), |data|);
  }

  /** Every record's key is the id of some item of the grouped legend. */
  lemma EveryKeyHasItem(data: seq<DataPoint>, mode: Mode)
    requires mode.Grouped()
    ensures forall i :: 0 <= i < |data| ==>
      exists j :: 0 <= j < |Group(data, mode)| && Group(data, mode)[j].id == Key(data[i], mode)
  {
    var r := Group(data, mode);
    var ks := KeyOrder(KeysOf(data, mode), |data|);
    GroupedIdsAreKeyOrder(data, mode);
    KeyOrderIsKeySet(data, mode);
    forall i | 0 <= i < |data| ensures exists j :: 0 <= j < |r| && r[j].id == Key(data[i], mode) {
      assert Key(data[i], mode) in KeySet(data, mode);
      var j :| 0 <= j < |ks| && ks[j] == Key(data[i], mode);
      assert r[j].id == Key(data[i], mode);
    }
  }

  /** The item ids of a grouped legend are the keys in first-seen order. */
  lemma GroupedIdsAreKeyOrder(data: seq<DataPoint>, mode: Mode)
    requires mode.Grouped()
    ensures |Group(data, mode)| == |KeyOrder(KeysOf(data, mode), |data|)|
    ensures forall j :: 0 <= j < |Group(data, mode)| ==> Group(data, mode)[j].id == KeyOrder(KeysOf(data, mode), |data|)[j]
  {
    EntriesAreValid(data, mode);
  }

  /** The keys in first-seen order are exactly the keys of the records. */
  lemma KeyOrderIsKeySet(data: seq<DataPoint>, mode: Mode)
    requires mode.Grouped()
    ensures forall k :: k in KeyOrder(KeysOf(data, mode), |data|) <==> k in KeySet(data, mode)
  {
    var keys := KeysOf(data, mode);
    KeyOrderContents(keys, |data|);
    assert keys[..|data|] == keys;
    forall k ensures k in KeyOrder(keys, |data|) <==> k in KeySet(data, mode) {
      if k in KeySet(data, mode) {
        var i :| 0 <= i < |data| && Key(data[i], mode) == k;
        assert keys[i] == k;
      }
    }
  }

  /** In a grouped legend the id and the label are the key, and the tooltip names the
      key after the mode's prefix. */
  lemma GroupedItemText(data: seq<DataPoint>, mode: Mode)
    requires mode.Grouped()
    ensures forall j :: 0 <= j < |Group(data, mode)| ==>
      var item := Group(data, mode)[j];
      && item.labelText == item.id
      && item.tooltip == (if mode == Variable then "Add variable icon - " else "Add version icon - ") + item.id
  {
    forall j | 0 <= j < |Group(data, mode)| {
      GroupedItem(data, mode, j);
    }
  }

  /** The series ids of a grouped legend partition the records: each id names a record
      whose key is its item's id, ids within an item follow input order, no id occurs
      twice anywhere, and every record occurs. */
  lemma GroupedPartition(data: seq<DataPoint>, mode: Mode)
    requires mode.Grouped()
    ensures var r := Group(data, mode);
      && (forall j, t :: 0 <= j < |r| && 0 <= t < |r[j].seriesIds| ==>
            var s := r[j].seriesIds[t];
            s.index < |data| && s == SeriesIdOf(data, s.index) && Key(data[s.index], mode) == r[j].id)
      && (forall j, s, t :: 0 <= j < |r| && 0 <= s < t < |r[j].seriesIds| ==>
            r[j].seriesIds[s].index < r[j].seriesIds[t].index)
      && (forall j1, t1, j2, t2 ::
            (0 <= j1 < |r| && 0 <= t1 < |r[j1].seriesIds| && 0 <= j2 < |r| && 0 <= t2 < |r[j2].seriesIds| &&
             r[j1].seriesIds[t1] == r[j2].seriesIds[t2]) ==> j1 == j2 && t1 == t2)
    ensures forall i :: 0 <= i < |data| ==> Listed(Group(data, mode), SeriesIdOf(data, i))
  {
    var r := Group(data, mode);
    var keys := KeysOf(data, mode);
    var ks := KeyOrder(keys, |data|);
    KeyOrderContents(keys, |data|);
    forall j | 0 <= j < |r|
      ensures forall t :: 0 <= t < |r[j].seriesIds| ==>
        var s := r[j].seriesIds[t];
        s.index < |data| && s == SeriesIdOf(data, s.index) && Key(data[s.index], mode) == r[j].id
      ensures forall s, t :: 0 <= s < t < |r[j].seriesIds| ==> r[j].seriesIds[s].index < r[j].seriesIds[t].index
    {
      GroupedItemIds(data, mode, j);
      MembersContents(keys, |data|, ks[j]);
    }
    forall j1, t1, j2, t2 |
      0 <= j1 < |r| && 0 <= t1 < |r[j1].seriesIds| && 0 <= j2 < |r| && 0 <= t2 < |r[j2].seriesIds| &&
      r[j1].seriesIds[t1] == r[j2].seriesIds[t2]
      ensures j1 == j2 && t1 == t2
    {
      // both items carry the key of the same record, and keys are distinct
      assert r[j1].id == r[j2].id;
      GroupedItemIds(data, mode, j1);
      GroupedItemIds(data, mode, j2);
    }
    forall i | 0 <= i < |data| ensures Listed(r, SeriesIdOf(data, i)) {
      RecordListed(data, mode, i);
    }
  }

  /** The record at position `i` is listed by the item of its key. */
  lemma RecordListed(data: seq<DataPoint>, mode: Mode, i: nat)
    requires mode.Grouped() && i < |data|
    ensures Listed(Group(data, mode), SeriesIdOf(data, i))
  {
    var r := Group(data, mode);
    var keys := KeysOf(data, mode);
    var ks := KeyOrder(keys, |data|);
    KeyOrderContents(keys, |data|);
    var k := keys[i];
    assert |keys| == |data| && keys[..|data|][i] == k;
    assert k in ks;
    var j :| 0 <= j < |ks| && ks[j] == k;
    GroupedItemIds(data, mode, j);
    MembersContents(keys, |data|, k);
    var ms := Members(keys, |data|, k);
    assert i in ms;
    var t :| 0 <= t < |ms| && ms[t] == i;
    assert r[j].seriesIds[t] == SeriesIdOf(data, i);
  }

  /** A grouped item lists every record carrying its key. */
  lemma ItemListsRecordOfItsKey(data: seq<DataPoint>, mode: Mode, j: nat, i: nat)
    requires mode.Grouped() && j < |Group(data, mode)| && i < |data|
    requires Key(data[i], mode) == Group(data, mode)[j].id
    ensures SeriesIdOf(data, i) in Group(data, mode)[j].seriesIds
  {
    var keys := KeysOf(data, mode);
    var ks := KeyOrder(keys, |data|);
    GroupedItemIds(data, mode, j);
    MembersContents(keys, |data|, ks[j]);
    var ms := Members(keys, |data|, ks[j]);
    assert keys[i] == ks[j];
    var t :| 0 <= t < |ms| && ms[t] == i;
    assert Group(data, mode)[j].seriesIds[t] == SeriesIdOf(data, i);
  }

  /** Every grouped item lists the series id of every record carrying its key. */
  lemma GroupedItemsListTheirRecords(data: seq<DataPoint>, mode: Mode)
    requires mode.Grouped()
    ensures var r := Group(data, mode);
      forall j, i :: 0 <= j < |r| && 0 <= i < |data| && Key(data[i], mode) == r[j].id ==>
        SeriesIdOf(data, i) in r[j].seriesIds
  {
    var r := Group(data, mode);
    forall j, i | 0 <= j < |r| && 0 <= i < |data| && Key(data[i], mode) == r[j].id
      ensures SeriesIdOf(data, i) in r[j].seriesIds
    {
      ItemListsRecordOfItsKey(data, mode, j, i);
    }
  }

  /** Items follow the first-seen order of their keys: the first record of each item
      carries its key and is the first record to do so, and first records increase from item to item. */
  lemma GroupedFirstSeenOrder(data: seq<DataPoint>, mode: Mode)
    requires mode.Grouped()
    ensures var r := Group(data, mode);
      && (forall j :: 0 <= j < |r| ==>
            && |r[j].seriesIds| > 0 && r[j].seriesIds[0].index < |data|
            && Key(data[r[j].seriesIds[0].index], mode) == r[j].id
            && forall i :: 0 <= i < r[j].seriesIds[0].index ==> Key(data[i], mode) != r[j].id)
      && (forall a, b :: 0 <= a < b < |r| ==> r[a].seriesIds[0].index < r[b].seriesIds[0].index)
  {
    var r := Group(data, mode);
    var keys := KeysOf(data, mode);
    var ks := KeyOrder(keys, |data|);
    forall j | 0 <= j < |r|
      ensures && |r[j].seriesIds| > 0 && r[j].seriesIds[0].index < |data|
              && Key(data[r[j].seriesIds[0].index], mode) == r[j].id
              && forall i :: 0 <= i < r[j].seriesIds[0].index ==> Key(data[i], mode) != r[j].id
    {
      GroupedItemIds(data, mode, j);
      MembersOfSeenKey(keys, |data|, ks[j]);
      MembersContents(keys, |data|, ks[j]);
      var first := r[j].seriesIds[0].index;
      forall i | 0 <= i < first ensures Key(data[i], mode) != r[j].id {
        assert keys[..first][i] == keys[i];
      }
    }
    forall a, b | 0 <= a < b < |r| ensures r[a].seriesIds[0].index < r[b].seriesIds[0].index {
      GroupedItemIds(data, mode, a);
      GroupedItemIds(data, mode, b);
      var first := r[b].seriesIds[0].index;
      MembersContents(keys, |data|, ks[b]);
      KeyOrderFirstSeen(keys, |data|, a, b, first);
      var i :| 0 <= i < first && keys[i] == ks[a];
      MembersOfSeenKey(keys, |data|, ks[a]);
    }
  }

  /** By version an item keeps the colour of every member, in member order. */
  lemma VersionColorsPerMember(data: seq<DataPoint>)
    ensures var r := Group(data, Version);
      forall j :: 0 <= j < |r| ==>
        && |r[j].colors| == |r[j].seriesIds|
        && forall t :: 0 <= t < |r[j].colors| ==>
             r[j].seriesIds[t].index < |data| && r[j].colors[t] == data[r[j].seriesIds[t].index].color
  {
    forall j | 0 <= j < |Group(data, Version)| {
      GroupedItem(data, Version, j);
    }
  }

  /** By variable an item keeps one colour: that of the first record carrying the
      variable, while its series ids still list every member. */
  lemma VariableColorOfFirstRecord(data: seq<DataPoint>)
    ensures var r := Group(data, Variable);
      forall j :: 0 <= j < |r| ==>
        && |r[j].seriesIds| > 0
        && r[j].seriesIds[0].index < |data|
        && data[r[j].seriesIds[0].index].variable == r[j].id
        && r[j].colors == [data[r[j].seriesIds[0].index].color]
        && (forall i :: 0 <= i < r[j].seriesIds[0].index ==> data[i].variable != r[j].id)
        && forall i :: 0 <= i < |data| && data[i].variable == r[j].id ==> SeriesIdOf(data, i) in r[j].seriesIds
  {
    GroupedFirstSeenOrder(data, Variable);
    GroupedItemsListTheirRecords(data, Variable);
    GroupedPartition(data, Variable);
    forall j | 0 <= j < |Group(data, Variable)| {
      GroupedItem(data, Variable, j);
    }
  }

  /** Every series id in the legend, in any mode, is the id of the chart series drawn
      for that record, whatever mode the chart was built with. */
  lemma LegendIdsNameChartSeries(data: seq<DataPoint>, mode: Mode, chartMode: Mode)
    ensures var r := Group(data, mode);
      forall j, t :: 0 <= j < |r| && 0 <= t < |r[j].seriesIds| ==>
        var s := r[j].seriesIds[t];
        s.index < |data| && ChartSeries.SeriesOf(chartMode, data)[s.index].id == s
  {
    if mode.Grouped() {
      GroupedPartition(data, mode);
    }
  }

  /** No records: no legend items and no series, in every mode. */
  lemma EmptyInput(mode: Mode)
    ensures Group([], mode) == [] && ChartSeries.SeriesOf(mode, []) == []
  {
  }
}
