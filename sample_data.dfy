/** The component's built-in quarterly figures and what its legend shows for them. */
module SampleData {
  import opened HarmonizerTypes
  import opened LegendGrouping
  import ChartSeries

  const Blue: string := "#3b82f6"
  const Violet: string := "#8b5cf6"

  /** Actuals and the 2024 plan for four quarters. */
  const Sample: seq<DataPoint> := [
    DataPoint("Actuals", "Q1 2024", 1200.0, Blue),
    DataPoint("Actuals", "Q2 2024", 1350.0, Blue),
    DataPoint("Actuals", "Q3 2024", 1180.0, Blue),
    DataPoint("Actuals", "Q4 2024", 1420.0, Blue),
    DataPoint("Plan 2024", "Q1 2024", 1100.0, Violet),
    DataPoint("Plan 2024", "Q2 2024", 1250.0, Violet),
    DataPoint("Plan 2024", "Q3 2024", 1300.0, Violet),
    DataPoint("Plan 2024", "Q4 2024", 1400.0, Violet)
  ]

  /** By variable the sample folds into two items, Actuals then Plan 2024, each with
      four series and a single colour. */
  lemma SampleByVariable()
    ensures var r := Group(Sample, Variable);
      && |r| == 2
      && r[0].id == "Actuals" && r[0].colors == [Blue] && |r[0].seriesIds| == 4
      && r[1].id == "Plan 2024" && r[1].colors == [Violet] && |r[1].seriesIds| == 4
  {
    assert KeyOrder(KeysOf(Sample, Variable), 1) == ["Actuals"];
    assert KeyOrder(KeysOf(Sample, Variable), 2) == ["Actuals"];
    assert KeyOrder(KeysOf(Sample, Variable), 3) == ["Actuals"];
    assert KeyOrder(KeysOf(Sample, Variable), 4) == ["Actuals"];
    assert KeyOrder(KeysOf(Sample, Variable), 5) == ["Actuals", "Plan 2024"];
    assert KeyOrder(KeysOf(Sample, Variable), 6) == ["Actuals", "Plan 2024"];
    assert KeyOrder(KeysOf(Sample, Variable), 7) == ["Actuals", "Plan 2024"];
    assert KeyOrder(KeysOf(Sample, Variable), 8) == ["Actuals", "Plan 2024"];
    assert Members(KeysOf(Sample, Variable), 1, "Actuals") == [0];
    assert Members(KeysOf(Sample, Variable), 2, "Actuals") == [0, 1];
    assert Members(KeysOf(Sample, Variable), 3, "Actuals") == [0, 1, 2];
    assert Members(KeysOf(Sample, Variable), 4, "Actuals") == [0, 1, 2, 3];
    assert Members(KeysOf(Sample, Variable), 5, "Actuals") == [0, 1, 2, 3];
    assert Members(KeysOf(Sample, Variable), 6, "Actuals") == [0, 1, 2, 3];
    assert Members(KeysOf(Sample, Variable), 7, "Actuals") == [0, 1, 2, 3];
    assert Members(KeysOf(Sample, Variable), 8, "Actuals") == [0, 1, 2, 3];
    assert Members(KeysOf(Sample, Variable), 1, "Plan 2024") == [];
    assert Members(KeysOf(Sample, Variable), 2, "Plan 2024") == [];
    assert Members(KeysOf(Sample, Variable), 3, "Plan 2024") == [];
    assert Members(KeysOf(Sample, Variable), 4, "Plan 2024") == [];
    assert Members(KeysOf(Sample, Variable), 5, "Plan 2024") == [4];
    assert Members(KeysOf(Sample, Variable), 6, "Plan 2024") == [4, 5];
    assert Members(KeysOf(Sample, Variable), 7, "Plan 2024") == [4, 5, 6];
    assert Members(KeysOf(Sample, Variable), 8, "Plan 2024") == [4, 5, 6, 7];
  }

  /** The quarters in the order the sample first shows them. */
  lemma SampleQuarterOrder()
    ensures KeyOrder(KeysOf(Sample, Version), 8) == ["Q1 2024", "Q2 2024", "Q3 2024", "Q4 2024"]
  {
    assert KeyOrder(KeysOf(Sample, Version), 1) == ["Q1 2024"];
    assert KeyOrder(KeysOf(Sample, Version), 2) == ["Q1 2024", "Q2 2024"];
    assert KeyOrder(KeysOf(Sample, Version), 3) == ["Q1 2024", "Q2 2024", "Q3 2024"];
    assert KeyOrder(KeysOf(Sample, Version), 4) == ["Q1 2024", "Q2 2024", "Q3 2024", "Q4 2024"];
    assert KeyOrder(KeysOf(Sample, Version), 5) == ["Q1 2024", "Q2 2024", "Q3 2024", "Q4 2024"];
    assert KeyOrder(KeysOf(Sample, Version), 6) == ["Q1 2024", "Q2 2024", "Q3 2024", "Q4 2024"];
    assert KeyOrder(KeysOf(Sample, Version), 7) == ["Q1 2024", "Q2 2024", "Q3 2024", "Q4 2024"];
  }

  /** The sample records of Q1 2024: the Actuals one, then the plan one. */
  lemma SampleQuarter1Members()
    ensures Members(KeysOf(Sample, Version), 8, "Q1 2024") == [0, 4]
  {
    assert Members(KeysOf(Sample, Version), 1, "Q1 2024") == [0];
    assert Members(KeysOf(Sample, Version), 2, "Q1 2024") == [0];
    assert Members(KeysOf(Sample, Version), 3, "Q1 2024") == [0];
    assert Members(KeysOf(Sample, Version), 4, "Q1 2024") == [0];
    assert Members(KeysOf(Sample, Version), 5, "Q1 2024") == [0, 4];
    assert Members(KeysOf(Sample, Version), 6, "Q1 2024") == [0, 4];
    assert Members(KeysOf(Sample, Version), 7, "Q1 2024") == [0, 4];
  }

  /** The sample records of Q2 2024: the Actuals one, then the plan one. */
  lemma SampleQuarter2Members()
    ensures Members(KeysOf(Sample, Version), 8, "Q2 2024") == [1, 5]
  {
    assert Members(KeysOf(Sample, Version), 1, "Q2 2024") == [];
    assert Members(KeysOf(Sample, Version), 2, "Q2 2024") == [1];
    assert Members(KeysOf(Sample, Version), 3, "Q2 2024") == [1];
    assert Members(KeysOf(Sample, Version), 4, "Q2 2024") == [1];
    assert Members(KeysOf(Sample, Version), 5, "Q2 2024") == [1];
    assert Members(KeysOf(Sample, Version), 6, "Q2 2024") == [1, 5];
    assert Members(KeysOf(Sample, Version), 7, "Q2 2024") == [1, 5];
  }

  /** The sample records of Q3 2024: the Actuals one, then the plan one. */
  lemma SampleQuarter3Members()
    ensures Members(KeysOf(Sample, Version), 8, "Q3 2024") == [2, 6]
  {
    assert Members(KeysOf(Sample, Version), 1, "Q3 2024") == [];
    assert Members(KeysOf(Sample, Version), 2, "Q3 2024") == [];
    assert Members(KeysOf(Sample, Version), 3, "Q3 2024") == [2];
    assert Members(KeysOf(Sample, Version), 4, "Q3 2024") == [2];
    assert Members(KeysOf(Sample, Version), 5, "Q3 2024") == [2];
    assert Members(KeysOf(Sample, Version), 6, "Q3 2024") == [2];
    assert Members(KeysOf(Sample, Version), 7, "Q3 2024") == [2, 6];
  }

  /** The sample records of Q4 2024: the Actuals one, then the plan one. */
  lemma SampleQuarter4Members()
    ensures Members(KeysOf(Sample, Version), 8, "Q4 2024") == [3, 7]
  {
    assert Members(KeysOf(Sample, Version), 1, "Q4 2024") == [];
    assert Members(KeysOf(Sample, Version), 2, "Q4 2024") == [];
    assert Members(KeysOf(Sample, Version), 3, "Q4 2024") == [];
    assert Members(KeysOf(Sample, Version), 4, "Q4 2024") == [3];
    assert Members(KeysOf(Sample, Version), 5, "Q4 2024") == [3];
    assert Members(KeysOf(Sample, Version), 6, "Q4 2024") == [3];
    assert Members(KeysOf(Sample, Version), 7, "Q4 2024") == [3];
  }

  /** The sample's dictionary by version: each quarter with its Actuals record, then
      its plan record. */
  lemma SampleVersionEntries()
    ensures Entries(Sample, Version) == [
      Entry("Q1 2024", [0, 4]), Entry("Q2 2024", [1, 5]),
      Entry("Q3 2024", [2, 6]), Entry("Q4 2024", [3, 7])]
  {
    SampleQuarterOrder();
    SampleQuarter1Members();
    SampleQuarter2Members();
    SampleQuarter3Members();
    SampleQuarter4Members();
  }

  /** By version the sample folds into the four quarters, in order, each listing the
      Actuals series then the plan series, with both colours. */
  lemma SampleByVersion()
    ensures var r := Group(Sample, Version);
      && |r| == 4
      && r[0].id == "Q1 2024" && r[1].id == "Q2 2024" && r[2].id == "Q3 2024" && r[3].id == "Q4 2024"
      && forall j :: 0 <= j < 4 ==> r[j].colors == [Blue, Violet] && |r[j].seriesIds| == 2
  {
    SampleVersionEntries();
  }

  /** The chart draws the eight sample records as eight series. */
  lemma SampleSeries(mode: Mode)
    ensures |ChartSeries.SeriesOf(mode, Sample)| == 8
    ensures ChartSeries.SeriesOf(mode, Sample)[4].name == "Plan 2024 • Q1 2024"
  {
  }
}
