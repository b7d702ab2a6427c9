/** The `series` list that createChartOptions hands to the chart: one series per record. */
module ChartSeries {
  import opened HarmonizerTypes

  /** The series of createChartOptions(mode, data). The mode argument is accepted
      and never read. */
  function SeriesOf(mode: Mode, data: seq<DataPoint>): (r: seq<Series>)
    ensures |r| == |data|
    ensures forall i :: 0 <= i < |r| ==>
      && r[i].id == SeriesIdOf(data, i)
      && r[i].name == PairName(data[i])
      && r[i].data == [data[i].value]
      && r[i].color == data[i].color
      && r[i].variable == data[i].variable
      && r[i].version == data[i].version
    ensures forall i, j :: 0 <= i < j < |r| ==> r[i].id != r[j].id
  {
    seq(|data|, i requires 0 <= i < |data| =>
      Series(SeriesIdOf(data, i), PairName(data[i]), [data[i].value], data[i].color,
             data[i].variable, data[i].version))
  }

  /** The chart's series do not depend on the legend mode. */
  lemma SeriesIgnoreMode(m1: Mode, m2: Mode, data: seq<DataPoint>)
    ensures SeriesOf(m1, data) == SeriesOf(m2, data)
  {
  }

  /** A series id identifies its series: two positions share an id exactly when they
      are the same position, even for identical records. */
  lemma SeriesIdsIdentify(mode: Mode, data: seq<DataPoint>, i: nat, j: nat)
    requires i < |data| && j < |data|
    ensures SeriesOf(mode, data)[i].id == SeriesOf(mode, data)[j].id <==> i == j
  {
  }
}
