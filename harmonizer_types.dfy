/** The records, modes and derived items of the chart legend harmonizer
    (src/components/ChartLegendHarmonizer.tsx). */
module HarmonizerTypes {

  /** How legend entries are grouped: one entry per distinct variable, one per
      distinct version, or one per record ("variable-version"). */
  datatype Mode = Variable | Version | VariableVersion {
    /** The two modes that fold records sharing a key into one entry. */
    predicate Grouped() {
      !VariableVersion?
    }
  }

  /** One observation of the chart. `value` is a JavaScript number, taken as a real. */
  datatype DataPoint = DataPoint(variable: string, version: string, value: real, color: string)

  /** The id `${variable}-${version}-${index}` the chart gives a series, kept as its
      three parts rather than rendered as text. */
  datatype SeriesId = SeriesId(variable: string, version: string, index: nat)

  /** One entry of the legend. */
  datatype LegendItem = LegendItem(
    id: string,
    labelText: string,
    colors: seq<string>,
    tooltip: string,
    seriesIds: seq<SeriesId>)

  /** One chart series; `data` holds the record's single value. */
  datatype Series = Series(
    id: SeriesId,
    name: string,
    data: seq<real>,
    color: string,
    variable: string,
    version: string)

  /** The display name `${variable} • ${version}` of a record. */
  function PairName(p: DataPoint): (r: string)
    ensures |r| == |p.variable| + 3 + |p.version|
    ensures r[..|p.variable|] == p.variable && r[|p.variable| + 3..] == p.version
  {
    p.variable + " • " + p.version
  }

  /** The series id the chart gives the record at position `i`. */
  function SeriesIdOf(data: seq<DataPoint>, i: nat): (r: SeriesId)
    requires i < |data|
  {
    SeriesId(data[i].variable, data[i].version, i)
  }
}
