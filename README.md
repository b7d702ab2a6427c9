# Chart legend harmonizer — grouping core in Dafny

The chart legend harmonizer draws one bar series per record. Each record is a
(variable, version, value, colour) observation. Next to the chart it shows a legend
whose items fold the records in one of three ways:

- one item per distinct **variable**;
- one item per distinct **version**;
- one item per record (**variable-version**).

This project models the data side of that component, in
`src/components/ChartLegendHarmonizer.tsx`:

- `createChartOptions`' `series` list: one series per record, with id
  `variable-version-index`, name `variable • version`, the record's value and colour.
- `legendItems`:
  - in the grouped modes, a `reduce` that fills a key → records dictionary in place;
    `Object.entries(...).map` then turns that dictionary into legend items, in key
    insertion order.
  - in the per-record mode, a plain `map`.
- The built-in `sampleData` constant: Actuals and the 2024 plan for four quarters.

Files:

- `harmonizer_types.dfy`: the records, modes, series ids, legend items and series.
- `chart_series.dfy`: the series derivation (pure).
- `legend_grouping.dfy`:
  - the specification of the grouping, as first-seen key order and member lists;
  - the `reduce`, as a method with a loop over the records that keeps a
    `map<string, seq<nat>>` and its key insertion order, proved equal to that
    specification;
  - the projection into items;
  - `LegendItems`, the method for the whole switch.
- `legend_properties.dfy`: what the legend promises. The grouped modes partition the
  records, follow first-seen order, keep the mode's colours and tooltip, and use series
  ids that name the chart's own series.
- `sample_data.dfy`: the sample data and what the legend shows for it.

Series ids are kept as the triple (variable, version, position). They are not rendered
as text. The grouped modes look a record's position up with `sampleData.indexOf(item)`.
`item` is the very object taken from the array, and `indexOf` compares references. It
returns the first position holding that object. In `sampleData` every element is its
own object literal, so the first position holding it is the record's own position, even
when two records are structurally equal. The model uses that position directly.

The component closes over `sampleData`. The model takes the records as a parameter and
keeps the sample as a constant for the concrete lemmas. The generalisation assumes, as
holds for `sampleData`, that no object occurs twice in the array (see "## Left out").

Details of the code that the model keeps:

- By variable, an item keeps only the colour of its first record
  (`ChartLegendHarmonizer.tsx:151`).
- The tooltip of a grouped item is `Add variable icon - <key>` or
  `Add version icon - <key>` (lines 152 and 169).
- An unrecognised mode falls through to the `default` branch, which shares the
  variable-version code (lines 173-174). The model's `Mode` is closed, so that branch
  is the `VariableVersion` case.

## Model

| member | source | states |
|---|---|---|
| HarmonizerTypes.PairName | src/components/ChartLegendHarmonizer.tsx:44 | the display name is the variable, the three-character separator, then the version: its length and both ends are pinned |
| ChartSeries.SeriesOf | src/components/ChartLegendHarmonizer.tsx:41-49 | exactly one series per record, in input order, carrying that record's fields, and no two series share an id |
| ChartSeries.SeriesIgnoreMode | src/components/ChartLegendHarmonizer.tsx:41-49 | the series list is the same whichever mode is passed in |
| ChartSeries.SeriesIdsIdentify | src/components/ChartLegendHarmonizer.tsx:43 | two series share an id if and only if they are at the same position, even for identical records |
| LegendGrouping.KeyOrderContents | src/components/ChartLegendHarmonizer.tsx:140-146 | the dictionary's keys after n records are exactly the keys among those records, each once |
| LegendGrouping.KeyOrderFirstSeen | src/components/ChartLegendHarmonizer.tsx:140-148 | keys are inserted in first-seen order: before any occurrence of a later key, every earlier key has already occurred |
| LegendGrouping.MembersContents | src/components/ChartLegendHarmonizer.tsx:140-146 | a key's list holds exactly the positions carrying that key, strictly increasing (push order) |
| LegendGrouping.UnseenKeyNoMembers | src/components/ChartLegendHarmonizer.tsx:141-143 | a key not yet in the dictionary has no records pushed for it |
| LegendGrouping.MembersOfSeenKey | src/components/ChartLegendHarmonizer.tsx:140-146 | a key in the dictionary has a first record, and no earlier record carries that key |
| LegendGrouping.GroupMapStep | src/components/ChartLegendHarmonizer.tsx:141-144 | one step of the reduce: create an empty list for a new key, push the position onto its key's list, leave every other key unchanged |
| LegendGrouping.GroupEntries | src/components/ChartLegendHarmonizer.tsx:140-146 | the in-place reduce (this one and its twin at lines 157-163) ends with the dictionary holding each seen key mapped to its members, and the insertion order equal to first-seen key order |
| LegendGrouping.EntriesAreValid | src/components/ChartLegendHarmonizer.tsx:148-154 | every dictionary entry has a first record (so `items[0]` exists) and all its members are positions in the data |
| LegendGrouping.Project | src/components/ChartLegendHarmonizer.tsx:148-154 | one item per dictionary entry, in entry order, whose id and label are the entry's key and which lists one series id per member |
| LegendGrouping.LegendItems | src/components/ChartLegendHarmonizer.tsx:137-183 | the switch returns exactly the items of the grouping specification in every mode, by reducing and projecting in the grouped modes |
| LegendProperties.GroupedItem | src/components/ChartLegendHarmonizer.tsx:148-154 | the j-th grouped item is `EntryItem` (the object literal of lines 148-154 and 165-171) applied to the j-th dictionary entry |
| LegendProperties.GroupedItemIds | src/components/ChartLegendHarmonizer.tsx:148-153 | the j-th grouped item carries the j-th key in first-seen order, and its series ids are the ids of that key's members, in order, with at least one |
| LegendProperties.PairModeOneItemPerRecord | src/components/ChartLegendHarmonizer.tsx:173-181 | per-record mode (the object literal modelled by `PairItem`): one item per record in input order, id `variable-version`, label and tooltip `variable • version`, the record's one colour, and its own series id |
| LegendProperties.GroupedOneItemPerKey | src/components/ChartLegendHarmonizer.tsx:140-148 | a grouped legend has as many items as distinct keys, the item ids are distinct keys of the records, and every record's key is some item's id |
| LegendProperties.GroupedIdsAreKeyOrder | src/components/ChartLegendHarmonizer.tsx:148-149 | grouped item ids are the keys in first-seen order, one item per key |
| LegendProperties.KeyOrderIsKeySet | src/components/ChartLegendHarmonizer.tsx:140-146 | the first-seen key order contains exactly the keys the records carry |
| LegendProperties.GroupedItemText | src/components/ChartLegendHarmonizer.tsx:149-152 | grouped items have label equal to id, and tooltip `Add variable icon - key` or `Add version icon - key` (lines 166-169 likewise) |
| LegendProperties.GroupedPartition | src/components/ChartLegendHarmonizer.tsx:140-153 | the series ids of a grouped legend partition the records: each names a record whose key is its item's id, ids within an item increase, no id appears twice, every record appears |
| LegendProperties.GroupedFirstSeenOrder | src/components/ChartLegendHarmonizer.tsx:140-148 | each item's first record carries the item's key and no earlier record does, and first records increase from item to item |
| LegendProperties.VersionColorsPerMember | src/components/ChartLegendHarmonizer.tsx:165-170 | by version, an item (the object literal modelled by `EntryItem`) has one colour per member, in member order, duplicates kept |
| LegendProperties.VariableColorOfFirstRecord | src/components/ChartLegendHarmonizer.tsx:148-153 | by variable, an item (built by `EntryItem`) has exactly one colour, that of its first record, which carries the item's variable and is the first record to do so; its series ids still include every record with that variable |
| LegendProperties.GroupedItemsListTheirRecords | src/components/ChartLegendHarmonizer.tsx:140-153 | every grouped item's series ids include the id of every record carrying its key |
| LegendProperties.LegendIdsNameChartSeries | src/components/ChartLegendHarmonizer.tsx:153 | in every mode, each legend series id is the id of the chart series drawn for that record, whatever mode the chart was built with |
| LegendProperties.EmptyInput | src/components/ChartLegendHarmonizer.tsx:137-183 | no records give no legend items and no series, in every mode |
| SampleData.SampleByVariable | src/components/ChartLegendHarmonizer.tsx:27-36 | by variable the sample gives two items, Actuals then Plan 2024, with colours blue and violet respectively and four series each |
| SampleData.SampleQuarterOrder | src/components/ChartLegendHarmonizer.tsx:27-36 | the sample's quarters are first seen in the order Q1, Q2, Q3, Q4 2024 |
| SampleData.SampleQuarter1Members | src/components/ChartLegendHarmonizer.tsx:27-36 | Q1 2024 holds records 0 and 4 |
| SampleData.SampleQuarter2Members | src/components/ChartLegendHarmonizer.tsx:27-36 | Q2 2024 holds records 1 and 5 |
| SampleData.SampleQuarter3Members | src/components/ChartLegendHarmonizer.tsx:27-36 | Q3 2024 holds records 2 and 6 |
| SampleData.SampleQuarter4Members | src/components/ChartLegendHarmonizer.tsx:27-36 | Q4 2024 holds records 3 and 7 |
| SampleData.SampleVersionEntries | src/components/ChartLegendHarmonizer.tsx:27-36 | the sample's by-version dictionary is the four quarters, each with its Actuals record then its plan record |
| SampleData.SampleByVersion | src/components/ChartLegendHarmonizer.tsx:27-36 | by version the sample gives four items Q1 to Q4 2024, each with colours blue then violet and two series |
| SampleData.SampleSeries | src/components/ChartLegendHarmonizer.tsx:27-36 | the chart draws eight series for the sample, the fifth named `Plan 2024 • Q1 2024` |

## Left out

- JSX rendering is not modelled: swatches, annotation box, buttons, badges, tooltips and their classes. It produces markup, not data.
- Highcharts options other than `series` are not modelled: chart type, axes, fonts, colours. They are declarative settings for a library outside this model.
- React state and memoisation (`useState`, `useMemo`) are not modelled. The mode becomes a parameter, and memoisation does not change the result.
- The header text built from the mode name is not modelled. It is display-only.
- JavaScript plain-object key behaviour is not modelled. The dictionary is an insertion-ordered map of ordinary string keys. Two behaviours of the `{}` accumulator are therefore outside the model:
  - integer-like keys, which `Object.entries` lists in numeric order;
  - inherited names such as `constructor`, which would make `push` fail.
- Id uniqueness in the per-record mode is not claimed. The id there omits the position, so records with the same variable and version share an id, and the code promises nothing more.
- Series ids are not rendered as decimal strings. They stay the triple (variable, version, position), so distinct triples that would render to the same text are not distinguished as the text would be.
- `value`: a JavaScript number, modelled as a `real`. IEEE floating point is left out; values are only copied, never computed with.
- Unknown modes are left out. `Mode` is a closed datatype, so the `default` branch is exactly the variable-version case.
- Records are assumed to be distinct objects. `indexOf` returns the first position holding the same object, which is a record's own position only when no object occurs twice in the array. `sampleData` meets this, since each element is its own literal. For an array holding one object twice, the code would list the first position twice, so GroupedPartition's "no id appears twice" and "every record appears" would not hold for it.
- `sampleData` becomes a parameter of the grouping. The component only ever applies it to the constant, which the sample lemmas cover.
