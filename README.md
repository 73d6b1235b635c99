# Star-ratings comparison engine, modelled in Dafny

This project models the engine inside `app.js`, a browser page that compares
Medicare Advantage star-rating data over the rating years 2017 to 2026. The
engine works in these steps:

1. It normalises the parent-organisation names of the contract records, so
   that `Aetna Inc.` is read as `CVS Health Corporation` and a missing name
   becomes empty.
2. It reads raw numeric fields into numbers or null.
3. It rolls the contract records up into parent aggregates, one per
   (rating year, measure, parent), and the contract year totals up into
   parent year totals, one per (rating year, parent). Each rollup has:
   - an enrollment-weighted mean of every metric (of the total score, for
     the year totals),
   - the summed enrollment,
   - the count of distinct contracts.
   The parent aggregates also carry the sorted distinct measure codes,
   joined by `|`; the year totals carry no codes.
4. It offers the contracts or parents that can be picked, and picks a default.
5. It keeps an ordered list of at most eight comparison series. Each series
   has a stored colour. The list comes with a set of hidden series and a
   status message.
6. It turns each selected series into exactly ten points, one per rating year.
7. It picks a y-axis scale. With no numeric value, and for `measure_stars`
   and `calculated_raw_stars_score`, the scale is fixed; for `star_weight` it
   runs from 0 to max(1, ceil(max)); otherwise the tick step is 1, 2 or 5
   times a power of ten.
8. It flattens the visible series into sorted table rows and into CSV text.

Each part has its own module:
- `Fields`: fields, records and normalisation.
- `Aggregate`: the weighted mean, grouping and rollups.
- `Entities`: the picker.
- `Selections`: the selection store, a class whose methods update the list,
  the hidden set and the message in place.
- `Startup`: the start-up selection.
- `Series`: the dense year series.
- `Scale`: the y-axis.
- `Table`: the table rows.
- `Csv`: the export, together with a reader for it.

Three modules are helpers: `Seqs` for `map`, `filter`, the insertion-ordered
`Set` and sorting; `Strings` for string order, join and split, and decimal
text; and `Wrappers` for null as `Option`.

Code that loops in the source is written as methods with loops, each proved
equal to a specification function:
- `WeightedAvg`
- the grouping loops
- the option set
- the year map
- the tick loops
- the table loops

The properties are then proved about those functions.

Numbers are modelled as exact reals. The current metric and measure, which
the source reads from its global state, are parameters here.

## Model

| member | source | states |
|---|---|---|
| Fields.ParseNum | app.js:53-58 | a field reads as a number exactly when it holds a finite number, and then as that number; null, undefined, blank and non-finite input read as null |
| Fields.NormalizeParentOrganization | app.js:48-51 | `Aetna Inc.` becomes `CVS Health Corporation`, a missing or empty name becomes `''`, every other name is kept |
| Fields.NormalizeIdempotent | app.js:48-51 | normalising a normalised name changes nothing |
| Fields.NormalizeContractRecord | app.js:61 | a normalised record carries the normalised parent name and is otherwise the original record |
| Fields.NormalizeContractYearTotal | app.js:62 | the same for a contract year total |
| Aggregate.WeightedAvg | app.js:64-75 | the accumulating loop returns the weighted mean of the rows with a value and a positive weight, or null when their weight sum is not positive |
| Aggregate.DenPositiveIff | app.js:64-75 | the weight sum is never negative, and it is positive exactly when some row contributes |
| Aggregate.WeightedMeanNullIff | app.js:74 | the mean is null exactly when no row has both a value and a weight above 0 |
| Aggregate.ScaledDenIsProduct | app.js:64-73 | summing every weight times c gives c times the weight sum |
| Aggregate.NumAbove | app.js:64-73 | the weighted sum is at least lo times the weight sum when no contributing value is below lo |
| Aggregate.NumBelow | app.js:64-73 | the weighted sum is at most hi times the weight sum when no contributing value is above hi |
| Aggregate.NumBetween | app.js:64-73 | the weighted sum lies between lo·den and hi·den when every contributing value lies in [lo, hi] |
| Aggregate.WeightedMeanBounds | app.js:64-75 | a non-null mean lies between any lower and upper bound of the contributing values, so between their minimum and maximum |
| Aggregate.GroupBy | app.js:77-82 | the map-filling loop yields the keys in order of first appearance, each exactly once, and each key's group is the non-empty subsequence of rows with that key, in input order |
| Aggregate.WithKeyMembers | app.js:77-82 | a group holds exactly the rows with its key, each no more often than the input |
| Aggregate.GroupsPartition | app.js:77-82 | the groups of all keys together hold every input row exactly once |
| Aggregate.EachRowInOneGroup | app.js:77-82 | every row's key is among the group keys, and its row lies in that group and in no other |
| Aggregate.MeasureObservations | app.js:96-99 | a group's observations for one metric pair each row's metric field with its enrollment, row by row |
| Aggregate.TotalObservations | app.js:120 | the same for the contract total score |
| Aggregate.SumEnrollmentAppend | app.js:89 | the enrollment sum, with null counting as 0, is additive over concatenation (the same reduction is used for the year totals at line 116) |
| Aggregate.MembersCoverWeights | app.js:64-89 | when no enrollment is negative, `members_included` is at least the weight sum of any metric's mean, and equal to it when every row contributes |
| Aggregate.ContractsIncludedIsDistinctCount | app.js:87 | the length of the distinct contract-id list, which line 101 stores as `contracts_included`, equals the number of distinct contract ids of the group |
| Aggregate.ObservedCodes | app.js:88 | a code is kept exactly when some row of the group observed it and it is not empty |
| Aggregate.CodeListSpec | app.js:88-95 | the code list holds each non-empty observed code once, in strictly ascending order, and splitting the text joined with vertical bars recovers it when no code contains a vertical bar |
| Aggregate.SummarizeMeasure | app.js:84-102 | the summary of one group computes its four weighted means with the `weightedAvg` loop and agrees with the group's specification |
| Aggregate.SummarizeTotal | app.js:111-123 | the same for a year-total group |
| Aggregate.BuildParentAggregates | app.js:77-103 | grouping by the (year, measure, parent) triple rather than by its text, there is one aggregate per distinct triple, in order of first appearance, each summarising exactly the records with that key |
| Aggregate.BuildParentYearTotals | app.js:105-124 | there is one total per distinct (year, parent) key, each summarising exactly the rows with that key |
| Aggregate.BuildNormalizedData | app.js:60-134 | the records and totals are normalised row by row, the parent tables are the rollups of the normalised rows, and the market tables pass through unchanged |
| Aggregate.ParentAggregateKeys | app.js:77-103 | with groups keyed by the triple, every aggregate carries its group's key, and no two aggregates share a key |
| Aggregate.ParentYearTotalKeys | app.js:105-124 | every year total carries its group's key |
| Aggregate.NormalizedGroupKey | app.js:61-79 | grouping after normalisation files an aliased parent's rows under the canonical name |
| Aggregate.AggKeyText | app.js:79 | the text key is the year, measure and parent, separated by vertical bars |
| Aggregate.AggKeyTextCollides | app.js:79 | two different (year, measure, parent) triples share one text key |
| Entities.CandidatesSpec | app.js:211-230 | the names offered are the contract ids, or the non-empty parent names, of the totals, or of the chosen measure's rows; the market scope offers none of them |
| Entities.OptionsOf | app.js:219 | each name becomes an option whose value and label are both the name |
| Entities.EntityOptionsSpec | app.js:211-233 | the options are exactly the candidates, each once, strictly ascending, labelled by themselves; the market scope has the single option `all_ma`/`All MA` |
| Entities.GetEntityOptions | app.js:211-233 | the set-building loop yields exactly those options |
| Entities.DefaultEntityIsLeast | app.js:285-288 | the default is `all_ma` for the market, `''` when there is no candidate, and otherwise the least candidate |
| Selections.SeriesIdTextInjective | app.js:203-205 | two series ids have the same text exactly when their scope and entity are equal |
| Selections.FindIndex | app.js:236 | the position found is the first with that id, and none is found exactly when no entry has that id |
| Selections.WithoutIdMembers | app.js:271 | filtering keeps exactly the entries with another id |
| Selections.WithoutIdDistinct | app.js:271 | filtering a list of distinct ids leaves the ids distinct |
| Selections.RemoveAt | app.js:270-274 | removing a present id cuts out exactly its one entry; the others keep their order and colours |
| Selections.RemoveAbsent | app.js:270-274 | removing an absent id leaves the list as it is |
| Selections.SelectionStore.constructor | app.js:138-147 | the store starts with no series, nothing hidden and no message |
| Selections.SelectionStore.FindSelection | app.js:241-243 | the entry found has the id, and none is found exactly when no entry has it |
| Selections.SelectionStore.ColorForSeries | app.js:235-239 | a listed series gets the palette entry of its position modulo 8; an unlisted one gets the entry for the current length |
| Selections.SelectionStore.AddSelection | app.js:249-268 | a listed id returns true and changes nothing, the message included; a full list returns false, keeps the list and sets the "Maximum 8" message; otherwise one entry is appended with colour `PALETTE[length % 8]` and the message is cleared; the list never exceeds 8 entries nor repeats an id |
| Selections.SelectionStore.RemoveSelection | app.js:270-274 | drops the entry with the id, un-hides the id and clears the message, keeping the list within the cap and free of repeated ids |
| Selections.SelectionStore.ToggleSelection | app.js:276-283 | removes a listed series as above, and otherwise adds it as above |
| Startup.InitialSelections | app.js:819-821 | start-up selects the market series in colour 0, then the default contract in colour 1 when there is one |
| Series.SourceRowsBelong | app.js:447-529 | every source row has the selection's scope, and its entity is the selected key, or `All MA` for the market |
| Series.LastForYearSpec | app.js:535-537 | for a year, the row that remains is the last row with that year, and there is none exactly when no row has that year |
| Series.PointFor | app.js:531-537 | a year's point has that year and is a source row or the null placeholder |
| Series.DenseRows | app.js:531-542 | there are ten points, and the one at position i is the point of year 2017 + i |
| Series.DenseRowsSpec | app.js:531-542 | there are exactly ten points, for years 2017..2026 ascending; a year with no row is a null placeholder; every point is an in-range source row or a placeholder, so rows outside the range are dropped |
| Series.LastRowWins | app.js:535-537 | among the rows of one in-range year, the last in source order is the one shown |
| Series.PlaceholderYears | app.js:531-534 | the first map loop puts a null placeholder at every year 2017..2026 and nothing else |
| Series.OverlayRows | app.js:535-537 | the overlay loop leaves at every year of the window the point of that year, so the last in-range row of the year wins |
| Series.GetSeriesForSelection | app.js:447-543 | the three map loops return the selection with exactly the dense rows of its source table |
| Scale.Decade | app.js:404 | the exponent e of the floor of the base-10 logarithm satisfies 10^e ≤ x < 10^(e+1) |
| Scale.NiceStep | app.js:402-410 | a non-positive input gives 1, and the step is always positive |
| Scale.NiceStepIsLeastNice | app.js:402-410 | for raw > 0 the step is at least raw and below 2.5·raw, and it is 1, 2 or 5 times a power of ten; no such number that reaches raw is smaller |
| Scale.SeqMin | app.js:428 | `Math.min` of the values is one of them and at most every one |
| Scale.SeqMax | app.js:429 | `Math.max` of the values is one of them and at least every one |
| Scale.Span | app.js:437 | the span is at least max − min and at least 0.0001, so it is positive |
| Scale.SnapScaleSpec | app.js:440-444 | the bounds snapped to the step enclose [min, max], and the ticks run from yMin to yMax exactly one step apart |
| Scale.GeneralScaleSpec | app.js:437-444 | the general scale encloses [min, max], its step is nice, and its ticks run from yMin to yMax one step apart |
| Scale.GeneralScaleCovers | app.js:428-444 | the general scale of the collected values lies below and above every one of them |
| Scale.ScaleForSpec | app.js:419-444 | no value gives `{0, 1, [0, .25, .5, .75, 1]}`; `measure_stars` gives `{1, 5, [1..5]}`; `calculated_raw_stars_score` gives `{0, 1, quarters}`; `star_weight` gives min 0, max `max(1, ceil(max))` and integer ticks 0..max; any other metric gives a covering general scale |
| Scale.PointValues | app.js:413-418 | the collected values are exactly the numeric point values |
| Scale.PushIntegerTicks | app.js:432-433 | the loop pushes the integers 0..top |
| Scale.TickGuard | app.js:443 | the loop guard `v <= yMax + step/2` holds exactly for the ticks up to yMax |
| Scale.PushStepTicks | app.js:442-443 | the stepping loop pushes exactly the ticks from yMin to yMax, one step apart |
| Scale.CollectValues | app.js:413-418 | the nested loops collect every numeric value of every series, in order |
| Scale.GetYScale | app.js:412-445 | the method returns the scale the cases above choose for the collected values |
| Scale.GeneralScaleOf | app.js:437-444 | the general branch computes the general scale |
| Table.MembersOrLives | app.js:714 | `members_included` when present and non-zero, else the enrollment when present and non-zero, else `''` |
| Table.ContractsCell | app.js:715 | `contracts_included` when present and non-zero, else `''` |
| Table.PointRowsMembers | app.js:705-717 | a series contributes a row exactly for each of its points with a numeric value |
| Table.ProjectionSound | app.js:703-718 | every projected row is a row of some series that is not hidden |
| Table.ProjectionComplete | app.js:703-718 | every row of a series that is not hidden is projected |
| Table.ProjectionMembers | app.js:703-718 | a row is projected exactly when it comes from a numeric point of a series that is not hidden |
| Table.RowLeTotalPreorder | app.js:720 | the comparator orders every pair of rows consistently |
| Table.TableRowsOrdered | app.js:702-721 | the table is a permutation of the projected rows, ordered by year, then scope, then entity |
| Table.TableRowsMembers | app.js:702-721 | a row is in the table exactly when it comes from a numeric point of a visible series |
| Table.BuildTableRows | app.js:702-722 | the nested loops and the sort return exactly the sorted table |
| Csv.DoubleQuotes | app.js:733 | a text without quotes is unchanged by doubling |
| Csv.Esc | app.js:731-734 | a field without `,`, `"` or newline is kept unchanged; any other field is wrapped in quotes |
| Csv.RowCells | app.js:735 | a row gives eight fields, in header order |
| Csv.QuotedBodyRoundTrip | app.js:733 | stripping the opening quote and undoubling the quotes recovers the original field up to its closing quote |
| Csv.PlainFieldRoundTrip | app.js:733 | an unquoted field reads back up to the next separator |
| Csv.FieldRoundTrip | app.js:731-734 | every escaped field reads back as the original field |
| Csv.RecordRoundTrip | app.js:735 | a comma-joined line of escaped fields reads back as its fields |
| Csv.CsvRoundTrip | app.js:735 | newline-joined lines read back as those lines |
| Csv.ToCsvRoundTrip | app.js:729-736 | reading the export back gives the header line followed by one line per row, holding exactly that row's fields |
| Seqs.Dedup | app.js:87-88 | `Array.from(new Set(xs))` holds each element once, and nothing else |
| Strings.SortStrings | app.js:219 | sorting gives a sorted permutation |
| Strings.SplitJoin | app.js:95 | parts without the separator split back apart from their join |

## Left out

- Loading the shards (app.js:2-31) and the start-up failure handler (app.js:824-826) are left out: they are network I/O and asynchronous.
- The page code is left out, because it is DOM and presentation. This covers:
  - the measure list (app.js:177-190);
  - the entity list, chips and buttons;
  - the tooltip, legend and chart drawing;
  - the legend's hide toggle (app.js:590-594);
  - `renderTable` (app.js:724-727) and `render`;
  - the event listeners.
  The hidden-series set is modelled as the store's field; only the toggle is missing.
- `downloadCsv` (app.js:738-749) is left out. It is the browser's file delivery.
- `fmt` (app.js:192-195) is left out. It is display-only rounding.
- Fields.ParseNum: `Number()` text coercion and `Number.isFinite` are not modelled. A raw field arrives already classified as missing, blank, non-finite or a finite number.
- Rating years are modelled as integers. A fractional year inside 2017..2026 would add an extra point to a series in the source; the data has integral years.
- Numbers are exact reals. Floating-point rounding is not modelled, including the float accumulation of `v += step` in the tick loop.
- Scale.Decade: it computes the floor of the base-10 logarithm exactly. `Math.log10` can be off by one near powers of ten.
- Csv.RowCells: JavaScript's `String(number)` is a parameter, `numText`, applied to every number except the year: the value, `members_or_lives` and `contracts`. Years are integers and are written in decimal.
- Strings.StrLt: the default `sort()` and `localeCompare` are both modelled by lexicographic order on characters. The table's order is the same under any locale that agrees with that order.
- Table.TableRowsOrdered: it does not claim the sort is stable.
- Selections.SelectionStore.AddSelection: colours are not kept distinct. The `ColorsCanRepeat` scenario in `selection.dfy` shows a repeated colour after a removal.
- The pre-supplied parent tables of the raw data are loaded but ignored (app.js:24-25 against 126-133). The model's raw data does not carry them.
- The market tables are passed through without being recomputed.
- The record fields the engine never reads are not modelled.
- `members_included` sums only the rows of its own (year, measure, parent) group (app.js:89); it is not cumulative across years, and the model does not make it so.
- Aggregate.BuildParentAggregates: the groups are keyed by the (year, measure, parent) triple, the corrected form of the app.js:79 finding below. The source keys them by the text joined with `|`, which merges two triples whose fields contain `|`; `AggKeyTextCollides` shows such a pair.

## Findings

| source | as written | input that shows it | evidently intended | confidence | as-written member | corrected member |
|---|---|---|---|---|---|---|
| app.js:79 | groups are keyed by the text `${year}\|${measureKey}\|${parent}` | year 2019 with measure `a\|b` and parent `c`, against year 2019 with measure `a` and parent `b\|c`: both give `2019\|a\|b\|c` | one group per distinct (year, measure, parent) triple | low, not executed; measure keys and parent names with `\|` may not occur in the data | Aggregate.AggKeyTextCollides | Aggregate.ParentAggregateKeys |
