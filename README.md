# Demand-planning data reconciliation, in Dafny

This project models the data-reconciliation core of a browser-based demand-planning
tool. The tool works in five steps:

1. Users upload comma-separated sales, item-master and promotion files. The loader turns
   them into typed records.
2. The tool can fetch a forecast table from a BigQuery warehouse. The fetch either raises
   a classified error or turns the rows into forecast points, using ordered column-name
   rules.
3. The forecast screen narrows the sales to a category, brand or SKU, sums them per date
   into a historical series, and merges that series with a forecast. The forecast comes
   from the warehouse or from a language-model service.
4. It exports the merged series as CSV text, labels the chart's x axis, and shows the
   latest actual value.
5. The scenario planner changes one driver value at a time.

The model follows the TypeScript code, including JavaScript's own semantics:

- `undefined` and `null` become `None`, and NaN is its own value.
- `||` treats `""`, `0` and NaN as false.
- `join` prints an absent value as empty text.
- An object key is the string form of its value, so an undefined date is the key `"undefined"`.
- `Array.prototype.sort` is stable.

Modules:

- `Wrappers`: `Option` and `Result`.
- `JsStrings`: `trim`, `split`, `join`, `includes`, `toLowerCase`, the default string
  order, integer printing and `parseInt`.
- `Sorting`: a stable insertion sort by a string key. Its lemmas state what any stable
  sort delivers.
- `Types`: the records of `types.ts`.
- `DataUpload`: `parseCSV`.
- `BigQueryService`: `fetchForecastFromBigQuery` from the response on.
- `App`: the segment filter, the aggregation, the merge, the drivers, the dashboard total
  and the forecast pipeline.
- `ForecastView`: the export, the axis labels and the latest actual.

Imperative code stays imperative in the model:

- `DataUpload.BuildRowObject` is the `headers.forEach` loop that fills a row object.
- `BigQueryService.MapRow` is the `row.f.forEach` loop that fills a point.
- `App.AggregateByDate` is the `reduce` that updates the per-date accumulator.

Each of these loops is proved equal to a function. The properties are proved about that
function.

The code does not do the following, and neither does the model:

- It does not recognise `ds`, `timestamp` or `yhat` columns.
- It does not cut dates at a `T`.
- It has no `403` branch.
- It does not leave an unparseable warehouse number absent; the number is NaN.
- It does not fall back to the start date for a missing promotion end date; it falls back to the row's `date` column.

## Model

| member | source | states |
|---|---|---|
| DataUpload.KeepNonBlankMembers | components/DataUpload.tsx:22 | a line survives the line filter exactly when it is not whitespace-only |
| DataUpload.BlankLinesIgnored | components/DataUpload.tsx:22 | inserting or removing blank lines does not change the parse |
| DataUpload.FewerThanTwoLinesGiveNothing | components/DataUpload.tsx:22-23 | with fewer than two non-blank lines the result is the empty sequence |
| DataUpload.ParseCsvRecords | components/DataUpload.tsx:21-66 | a header plus N non-blank data lines gives exactly N records, record i from data line i under the header names, each of the uploaded kind |
| DataUpload.HeaderMatchIgnoresCase | components/DataUpload.tsx:25 | a header matches a lower-case key exactly when its trimmed text equals the key ignoring ASCII case |
| DataUpload.BuildRowObject | components/DataUpload.tsx:28-37 | the cell-by-cell loop builds the row object the fold `RowObjectOf` describes |
| DataUpload.RowObjectLookup | components/DataUpload.tsx:30-36 | the row object's keys are exactly the header names, and each holds the value assigned for the last column of that name; past the row's end a text key is undefined and a numeric key is 0 |
| DataUpload.LastIndexOf | components/DataUpload.tsx:30-36 | the position it returns holds the key and no later header does |
| DataUpload.NumberColumn | components/DataUpload.tsx:33-34 | `quantity`, `price`, `unitcost` and `discountpercent` always hold a number when their header exists: the parsed value, or 0 when the cell is missing, unparseable or zero |
| DataUpload.TextColumn | components/DataUpload.tsx:31-36 | any other field holds the trimmed cell text under its last column, or is undefined when the column is missing or the row is short |
| DataUpload.SalesRecordFields | components/DataUpload.tsx:40-46 | a SALES record holds exactly the date, sku, quantity and price columns; other headers do not reach it |
| DataUpload.ItemRecordFields | components/DataUpload.tsx:47-53 | an ITEM record holds sku, category, brand, and unitCost from the `unitcost` column |
| DataUpload.PromoRecordFields | components/DataUpload.tsx:54-60 | a PROMO record's start and end dates fall back to the row's `date` column when empty or missing, never to each other |
| JsStrings.TrimEmptyIffBlank | components/DataUpload.tsx:22 | `trim()` gives the empty string exactly when the line is made of whitespace only |
| JsStrings.SplitJoin | components/DataUpload.tsx:22-27 | splitting a join by the same separator gives the pieces back when no piece holds the separator |
| BigQueryService.ClassifyError | services/bigQueryService.ts:54-59 | "401" anywhere in the message gives the expired-token error; otherwise "404" gives the table-not-found error; otherwise the message itself is raised; all three cases are if-and-only-if |
| BigQueryService.MissingMessageIsUnknown | services/bigQueryService.ts:56 | a missing or empty message is raised as "Unknown BigQuery Error" |
| BigQueryService.NoRowsIsEmptySeries | services/bigQueryService.ts:63 | a success payload without rows is the empty series, not an error |
| BigQueryService.ClassifyColumnFollowsRules | services/bigQueryService.ts:74-80 | the if/else-if chain is the ordered rule table read first-match |
| BigQueryService.FirstMatchIsEarliest | services/bigQueryService.ts:74-80 | under the rule table, the earliest matching rule decides a column's field, and a column that matches no rule feeds nothing |
| BigQueryService.MapRow | services/bigQueryService.ts:68-81 | the cell-by-cell loop builds the point the fold `RowToPoint` describes |
| BigQueryService.LastColumnFor | services/bigQueryService.ts:69-81 | the column it returns feeds the field, and no later column among the first n does |
| BigQueryService.RowToPointLastColumnWins | services/bigQueryService.ts:69-81 | each field of a point comes from the last column classified to it, the date verbatim (no time stripping) and numbers through `parseFloat` (NaN for null); a field no column feeds is absent |
| BigQueryService.FetchForecastOnePointPerRow | services/bigQueryService.ts:65-83 | a success payload gives one point per row, in row order, with cells classified by the lower-cased field of the same index; no re-sorting and no merging of equal dates |
| App.ItemLookupLastWins | App.tsx:65 | the item lookup finds the last item master listed with the sku, and nothing when none has it |
| App.LastWithSku | App.tsx:65 | the index it returns has the sku and no later item has it |
| App.FilterSalesIsFilter | App.tsx:63-64 | with all three filters at their sentinels the shortcut returns the sales element for element, as the filter would |
| App.KeepEverythingUnfiltered | App.tsx:63-64 | the filter keeps every sale in place when every constraint is at its sentinel |
| App.FilterSalesMembership | App.tsx:66-72 | a sale is kept exactly when the category, brand and sku constraints each hold or are at their sentinel |
| App.FilterIsSubsequence | App.tsx:66-72 | the kept sales are the sales at increasing positions, which are exactly the positions of the matching sales: an order-preserving subsequence |
| App.UnknownSkuFailsSegment | App.tsx:67-69 | a sale whose sku has no item record fails any category or brand constraint |
| App.AggregateByDate | App.tsx:75-79 | the reduction loop builds the per-date totals and the key order that the folds `Totals` and `DistinctDates` describe |
| App.DistinctDatesAreKeys | App.tsx:75-79 | the accumulator's keys are exactly the dates of the sales, each listed once |
| App.TotalsAreSums | App.tsx:77 | with every quantity present, a date's total is the sum of the quantities sold on that date |
| App.MissingQuantityGivesNaN | App.tsx:77 | a sale without a quantity makes its date's total NaN, whatever the sales before it |
| App.MissingQuantityResetsDate | App.tsx:77 | for any history, a date whose total is NaN or absent holds exactly the quantity of the next sale on that date that has one, because `NaN \|\| 0` is 0 |
| App.TotalsWithoutQuantities | App.tsx:75-79 | when no sale has a quantity, as with a file without a `quantity` column, every date's total is NaN |
| App.HistoricalOnePointPerDate | App.tsx:81-84 | exactly one historical point per distinct date of the filtered sales, each dated, with no zero-filling |
| App.HistoricalStrictlyAscending | App.tsx:81 | the historical points are strictly ascending by date |
| App.HistoricalActuals | App.tsx:81-84 | when every sale has a quantity, each historical point's actual is the total quantity on its date |
| App.HistoricalConservesQuantity | App.tsx:75-84 | when every sale has a quantity, the historical actuals sum to the total quantity of the sales they come from |
| App.TotalVolume | App.tsx:150 | the dashboard total is NaN exactly when some sale has no quantity, and otherwise the sum of the quantities |
| App.DashboardTotalMatchesHistory | App.tsx:150 | when every sale has a quantity, the unfiltered dashboard total equals the sum of the historical actuals |
| App.MergeSeriesPermutesAndOrders | App.tsx:103 | the merged series is a permutation of history followed by forecast (length is the sum, no dedup) and is sorted by date |
| App.MergeSeriesHistoryFirst | App.tsx:103 | on each date, the historical points come first and then the forecast points, each group in its own order |
| App.MergeSeriesIdempotent | App.tsx:103 | merging a merged series again changes nothing |
| App.UpdateDriver | App.tsx:133 | the driver update keeps the length, changes only `value`, and only on drivers with the given id |
| App.UpdateDriverOverwrites | App.tsx:133 | a second change to the same driver replaces the first |
| App.UpdateDriverCommutes | App.tsx:133 | changes to different drivers commute |
| App.UpdateDriverDoesNotClamp | App.tsx:133 | a value outside the driver's [min, max] is stored as given |
| App.DefaultDriversInRange | App.tsx:12-16 | each default driver starts inside its range and on its step grid |
| App.SortMergedDated | App.tsx:103 | when every point is dated, the merge succeeds and keeps every point in date order |
| App.HistoricalDated | App.tsx:81-84 | every historical point carries a date |
| App.SimulatedForecastMerged | App.tsx:97-104 | without the warehouse, the stored series is the history merged with the generator's output on the unfiltered sales |
| App.GeneratorSeesUnfilteredSales | App.tsx:99-100 | with one of two sales selected, the generator still receives both sales |
| App.WarehouseForecastNeverMerged | App.tsx:88-103 | as written, every run through the warehouse ends in an error: a successful fetch ends in the spread of an undefined `mappedData` |
| App.FixedPipelineMergesWarehousePoints | App.tsx:88-103 | with the points used directly, a successful fetch of dated points is merged with the history: all points, in date order |
| Sorting.SortByOrdersAndPermutes | App.tsx:81-103 | the sort's result is ordered and is a permutation of its input |
| Sorting.SortByStable | App.tsx:103 | the sort keeps the input order of the elements with equal keys |
| Sorting.SortBySortedIsIdentity | App.tsx:103 | sorting an ordered sequence does not change it |
| ForecastView.HeaderLine | components/ForecastView.tsx:31-43 | the header line is exactly the seven column titles |
| ForecastView.ExportLineFields | components/ForecastView.tsx:32-44 | a row's line splits back into the date, actual, xgboost, randomForest, lightGbm, dnn and consensus fields, with an absent field as an empty string |
| ForecastView.ExportLayout | components/ForecastView.tsx:29-45 | the export is the header line, then one line per point in input order, joined by newlines with none trailing (length + 1 lines), with each row's seven fields |
| ForecastView.EmptySeriesNotExported | components/ForecastView.tsx:29 | an empty series produces no export |
| ForecastView.CellTextPlain | components/ForecastView.tsx:34-39 | a printed number, NaN or absent field contains neither a comma nor a newline |
| ForecastView.FormatXAxisUnchanged | components/ForecastView.tsx:60-62 | a label leaves its input unchanged exactly when the input has no '-', that is, fewer than two parts |
| ForecastView.FormatXAxisIsoDate | components/ForecastView.tsx:61-66 | a date `y-m-d` is labelled with the month that `m` names (or "undefined" outside 1..12), a space, and `y` from its third character |
| JsStrings.ParseIntDigits | components/ForecastView.tsx:64 | `parseInt` of a run of digits is its decimal value |
| ForecastView.LastActualValueIsLastPresent | components/ForecastView.tsx:69-71 | the headline value is the actual of the last point whose actual is present (0 when it is 0 or NaN), and 0 when no point has one |

## Left out

- Floating point: numbers are integers. `parseFloat` is a parameter (`NumberParser`), so its
  text-to-number rules are not modelled. `Math.round` and `toLocaleString` are display
  formatting and are not modelled either.
- `toLowerCase` folds ASCII letters only. Other scripts' case mappings would need Unicode tables.
- String order: `Less` compares characters. The default `sort()` compares UTF-16 code units,
  and `localeCompare` uses the locale's collation. One lexicographic order stands for both.
  It agrees with them on ISO `YYYY-MM-DD` dates.
- `Object.keys` lists integer-like keys first. This does not matter here, because the keys
  are sorted straight away. The keys `__proto__` and other inherited names are not modelled.
- App.GenerateForecast fails with `UndatedPoint` whenever a merge of two or more points
  holds an undated point. The engine throws only when the undated point is the receiver of
  a comparison, and that depends on the engine's sort algorithm.
- App.TotalsAreSums requires every sale to have a quantity. With a missing quantity the
  date's total is NaN, not a sum: `App.MissingQuantityGivesNaN`, `App.MissingQuantityResetsDate`
  and `App.TotalsWithoutQuantities` describe those totals.
- App.HistoricalActuals requires every sale to have a quantity. Otherwise an actual can be
  NaN while the quantities sold on that date sum to a number, for example `[5, undefined]`.
- App.HistoricalConservesQuantity requires every sale to have a quantity, for the same reason.
- App.DashboardTotalMatchesHistory requires every sale to have a quantity. Otherwise the dashboard
  total is NaN, as `App.TotalVolume` states, and no equality with the history is claimed.
- The parser gives every sale a quantity whenever the file has a `quantity` column.
- ForecastView.ExportLayout requires dates without commas or newlines. The export does no
  escaping, so such a date would split into extra fields.
- BigQueryService.FetchForecast assumes the payload has a schema (`fieldNames`). A missing
  schema, a failed `response.json()` and a cell value other than a string or null are not
  modelled.
- Not modelled:
  - the text of the SQL query, its `ORDER BY`/`LIMIT`, and the HTTP request;
  - `fetch` and the `await` sequencing;
  - the language-model service, which is the arbitrary `ForecastGenerator` parameter;
    `analyzeForecast` and the insights text are left out with it.
- React state, rendering, alerts, loading flags and `handleDataLoaded` are UI state
  plumbing. Where the pipeline needs this state, it comes in as a `Session` value.
- FileReader, the Blob download and its date-stamped file name are browser I/O and a clock.
- Re-reading an exported file is left out: the code has no reader for the export format.

## Findings

| source | as written | input that shows it | evidently intended | confidence | as-written member | corrected member |
|---|---|---|---|---|---|---|
| App.tsx:96 | `forecastResults = bqResult.mappedData`, but `fetchForecastFromBigQuery` returns a plain array (services/bigQueryService.ts:30,63,67), so the field is undefined and the spread at App.tsx:103 throws | BigQuery enabled with a non-empty token, and any successful response, even one without rows | the returned points are the forecast, merged with the history | high (not executed) | App.WarehouseForecastNeverMerged | App.FixedPipelineMergesWarehousePoints |
