# Utilize dashboard: a verified model of the client-side pipeline

Utilize is a dashboard that follows the finances of hospital imaging
devices. Each device is an "AE title" in the catalogue `bmeMap`. A device has
a capital cost (CapEx) and a monthly depreciation. It also has billed
procedures (PACS transactions, each with a revenue) and monthly SAP expenses.

This project models in Dafny the part of the dashboard that computes things.
Everything that draws charts is left out. The model covers:

- **Aggregate** (`aggregate.dfy`): `aggregateDataForChart` in both of its
  forms, the current one in `static/js/charts-data.js` and the older one in
  `utili_project_v0/static/js/dashboard.js`. Each builds one table row per
  date of the axis. A row holds:
  - the month's revenue and its running total;
  - the month's SAP expense and its running total;
  - the CapEx line and the front-loaded depreciation;
  - whether the row is in the future, and, in the current form only, the
    colour of the revenue line.

  The two forms are separate methods, because their expense lookup and
  their treatment of a service filter differ.
- **ServiceDetails** (`service_details.dfy`): the service breakdown panel.
  - It narrows the device's transactions by month and, in the current form,
    by year.
  - It groups them by service code.
  - It sorts the groups stably by revenue, highest first.
  - It resets the page when the page falls off the end, and cuts out the
    five rows of the current page.
  - It also builds the year drop-down.
- **CrossFilter** (`cross_filter.dfy`): the handlers of the global `state`
  record, each as a method on the `State` class (`state.dfy`):
  - the month and service click toggles;
  - paging, and the year filter;
  - `clearAllFilters` and `clearView`;
  - the three device drop-downs, and the device selection taken from the URL;
  - the filter status line.
- **BreakEven** (`break_even.dfy`): finding the break-even row and placing its
  annotation. **ChartWindow** (`chart_window.dfy`): the zoom window of the
  cumulative chart.
- **Hierarchy** (`hierarchy.dfy`) and **Loader** (`loader.dfy`), both from
  `utili_project_v0/static/js/api.js`:
  - the three-level BME / brand-model / AE-title hierarchy;
  - the error-message rule of `safeFetchJson`;
  - `loadInitialData`;
  - the latest-wins request guard of `loadDeviceData`. The guard is modelled
    as a sequential machine over "issued" and "settled" events.
- **Timeline** (`timeline.dfy`): the backend's monthly date axis,
  `generate_date_timeline` in `utils.py`. Dates are (year, month, day)
  triples and "today" is a parameter.

### How the JavaScript is represented

- Money is `int`, with addition only.
- An absent or falsy optional string is `None`. An absent string field is
  `""`.
- A missing `revenuePL` is `None`. The two aggregators treat it differently,
  and the older one's `NaN` is modelled explicitly.
- JavaScript string `<` is code-unit lexicographic order (`LexLess`).
- A JavaScript object is an ordered list of named groups, in the order its
  keys were inserted. JavaScript lists integer-like keys first, in numeric
  order. The model relies on that order only in `Object.entries(bmeMap)`, which
  is an input, and in the brand/model drop-down, which sorts the keys.
- `Map` insertion order is sequence order.

### How the properties are proved

Each loop of the source is a method. Its `ensures` ties the result to a
reference function. The properties the dashboard promises are then proved as
lemmas about those functions:

- running totals;
- depreciation counting;
- conservation of quantities by grouping;
- sortedness, permutation and stability of the sort;
- each entry lying on exactly one page;
- the first month, the steps and the last month of the timeline, and its
  independence from input order;
- request ids increasing, and latest wins.

## Model

| member | source | states |
|---|---|---|
| Common.OrNull | static/js/ui.js:38 | `value \|\| null`: absent exactly for the empty string, otherwise the string itself, which is then a truthy filter |
| Common.Prefix | static/js/charts-data.js:41 | `substring(0, n)` is a prefix of the string, of length n or the whole string when it is shorter |
| Common.LexLessIrreflexive | static/js/charts-data.js:42 | string `<` never holds between a string and itself |
| Common.LexLessTransitive | static/js/charts-data.js:42 | string `<` is transitive |
| Common.LexLessTotal | static/js/charts-data.js:42 | of two different strings one is below the other, so string `<` is a strict total order |
| Common.SortAsc | static/js/ui.js:47 | the default `sort()` on strings returns the same multiset in ascending code-unit order, and keeps distinct elements distinct |
| Common.SomesMembers | utils.py:21-27 | a value is kept by the list of parse results exactly when some input parsed to it |
| AppState.State.constructor | static/js/state.js:4-25 | the initial state has no data, no selection, no filter, an empty summary and page 0, and satisfies the handlers' invariant |
| Hierarchy.BmeKey | utili_project_v0/static/js/api.js:87 | the first-level key is never empty, and is the device's own BME name when it has one |
| Hierarchy.BrandModelKey | utili_project_v0/static/js/api.js:88 | the second-level key is the brand (`N/A` when missing), then ` \| `, then the model (`N/A` when missing), both parts non-empty |
| Hierarchy.BmeNames | utili_project_v0/static/js/api.js:89 | `Object.keys` of the hierarchy: one name per group, a name listed exactly when a group carries it |
| Hierarchy.ModelsAt | utili_project_v0/static/js/api.js:89 | `hierarchy[bme]` exists exactly when some first-level group carries that name |
| Hierarchy.ModelNames | static/js/ui.js:47 | `Object.keys` lists one name per brand/model group, and a name is listed exactly when a title list exists under it |
| Hierarchy.AddToModelsLookup | utili_project_v0/static/js/api.js:90-91 | one push appends the title to its brand/model list, creating it when missing, and leaves every other list as it was |
| Hierarchy.AddTitleModels | utili_project_v0/static/js/api.js:89-91 | one reduce step changes only the group of its own BME, creating it when missing |
| Hierarchy.AddTitleLookup | utili_project_v0/static/js/api.js:86-92 | one reduce step appends the title to the list under its two keys, and to no other list |
| Hierarchy.AddToModelsUnique | utili_project_v0/static/js/api.js:90-91 | filing a title under a brand/model never creates a second list of that name |
| Hierarchy.AddTitleUnique | utili_project_v0/static/js/api.js:89-91 | one reduce step never creates a second group of a BME name, nor a second brand/model under one BME |
| Hierarchy.HierarchyOf | utili_project_v0/static/js/api.js:85-95 | the reduce builds an object: no BME key twice, and no brand/model key twice under one BME |
| Hierarchy.HierarchyContents | utili_project_v0/static/js/api.js:85-95 | after the reduce, a title is in the list under keys b and m exactly when an entry with that title has those keys |
| Hierarchy.ExactlyOneList | utili_project_v0/static/js/api.js:85-95 | every AE title of the catalogue is in exactly one list, the one under `bmeName \|\| 'Unknown'` and `brand \|\| 'N/A' \| model \|\| 'N/A'`, and no list holds anything else |
| Aggregate.FutureIsUpwardClosed | static/js/charts-data.js:42 | `todayStr && dateStr > todayStr`: today itself is not in the future, and a date after a future date is in the future too |
| Aggregate.BucketTotal | static/js/charts-data.js:25-30 | the month's revenue, 0 for the empty month and for a month no transaction has |
| Aggregate.YearMonthOf | static/js/charts-data.js:41 | the month key of a date is a prefix of the date, at most 7 characters long |
| Aggregate.MonthlyRevenueMap | static/js/charts-data.js:25-30 | the map has a key exactly for each non-empty month of some transaction, and every month reads (0 when missing) as the sum of `revenuePL \|\| 0` over its transactions |
| Aggregate.LegacyBucketLast | utili_project_v0/static/js/dashboard.js:341-344 | one more transaction adds its revenue to its own month, turns the month into NaN when it has no revenue, and restarts a NaN month from 0 |
| Aggregate.LegacyMonthlyRevenueMap | utili_project_v0/static/js/dashboard.js:340-344 | the older map has a key for every month seen, the empty one included, and each month reads as the unguarded sum, NaN standing for a missing revenue |
| Aggregate.FirstDash | static/js/charts-data.js:52 | the position `replace` searches for: the first dash, or the length when there is none |
| Aggregate.RemoveFirstDash | static/js/charts-data.js:52 | `replace('-', '')` cuts out exactly the first dash and keeps the rest in order; a string with no dash is unchanged |
| Aggregate.CompactKeyOfMonth | static/js/charts-data.js:51-52 | for a `YYYY-MM` month the compact key is the order number, a dash and `YYYYMM`, and it differs from the dashed key |
| Aggregate.RevenueColour | static/js/charts-data.js:79-86 | the revenue line is red exactly below zero, purple exactly while a truthy CapEx is not yet reached, blue otherwise |
| Aggregate.RunningTotalsAppend | static/js/charts-data.js:47-69 | a row whose cumulative columns add its monthly values to the previous sums keeps every cumulative column equal to the sum of the monthly values up to that row |
| Aggregate.SapExpense | static/js/charts-data.js:51-67 | the dashed key's value wins whenever that key is present; a non-zero expense was stored under the dashed or the compact key |
| Aggregate.LegacySapExpense | utili_project_v0/static/js/dashboard.js:361-363 | the older lookup is 0 under a service filter or when the dashed key is missing, and the dashed key's value otherwise |
| Aggregate.ExpenseLookup | static/js/charts-data.js:51-67 | the dashed key's value is used whenever that key is present, the compact key only when the dashed one is absent, and 0 when neither is |
| Aggregate.DepStep | static/js/charts-data.js:71-76 | row i gets `monthlyDep` (0 under a service filter) while fewer than `depMonths` rows have been counted, and the counter is the capped count of rows seen |
| Aggregate.ChartRowAt | static/js/charts-data.js:40-107 | a row of the current form is zero in revenue and expense when it is in the future, otherwise it holds the month's revenue bucket and SAP expense; it carries the CapEx, the depreciation of its position and the colour of its running revenue, and extends both running totals |
| Aggregate.AggregateDataForChart | static/js/charts-data.js:5-112 | no rows for an unknown device or an empty axis; otherwise one row per axis date in axis order, each meeting the row rule above, with running totals that are the sums of the monthly columns |
| Aggregate.LegacyChartRowAt | utili_project_v0/static/js/dashboard.js:351-388 | a row of the older form takes the expense from the dashed key only, and none at all under a service filter |
| Aggregate.LegacyAggregateDataForChart | utili_project_v0/static/js/dashboard.js:330-391 | no rows for an unknown device; otherwise one row per date meeting the older row rule, with running totals |
| Aggregate.DepTotal | static/js/charts-data.js:71-76 | over n rows the depreciation column adds up to `monthlyDep` times min(`depMonths`, n), or 0 under a service filter |
| Aggregate.FutureRowKeepsTotals | static/js/charts-data.js:42-69 | a future row leaves both running totals where the previous row left them |
| Aggregate.ExpenseKeyPrecedence | static/js/charts-data.js:51-67 | while the dashed key is present, the compact key's value is never read |
| Aggregate.BucketsAgree | utili_project_v0/static/js/dashboard.js:340-344 | when every transaction has its revenue, the older bucket of a non-empty month equals the current one |
| Aggregate.SumsAgree | static/js/charts-data.js:47-69 | tables with equal monthly columns have equal running sums |
| Aggregate.VariantsAgree | utili_project_v0/static/js/dashboard.js:330-391 | with no service filter, every revenue present and every past month's expense stored under the dashed key, the two forms draw the same revenue, expense, running totals and depreciation |
| ServiceDetails.LegacySelection | utili_project_v0/static/js/dashboard.js:557-559 | a transaction is selected exactly when it is the device's and, with a month filter, of that month; order is kept |
| ServiceDetails.Selection | static/js/charts.js:264-271 | a transaction is selected exactly when it is the device's, of the month filter's month when set, and of the year filter's year when set; order is kept |
| ServiceDetails.NoYearFilterSelectsAsLegacy | static/js/charts.js:266-271 | with no year filter, the current selection is exactly the older one, in the same order |
| ServiceDetails.KeyOf | utili_project_v0/static/js/dashboard.js:569 | the grouping key `serviceCode \|\| '-'` is never empty |
| ServiceDetails.Codes | utili_project_v0/static/js/dashboard.js:567-577 | the keys of the summary map occur once each, and a key is present exactly when some selected transaction has it |
| ServiceDetails.CountOf | utili_project_v0/static/js/dashboard.js:579 | a key that no transaction has counts 0 |
| ServiceDetails.RevenueOf | utili_project_v0/static/js/dashboard.js:580 | a key that no transaction has earns 0 |
| ServiceDetails.Group | utili_project_v0/static/js/dashboard.js:567-581 | one summary entry per distinct service key, entry i holding the i-th key |
| ServiceDetails.GroupCodes | utili_project_v0/static/js/dashboard.js:567-581 | the grouped entries have distinct, non-empty codes |
| ServiceDetails.IndexOfCode | utili_project_v0/static/js/dashboard.js:570-578 | `has`/`get` finds the first entry with the code, or reports that none has it |
| ServiceDetails.AddToSummaryAt | utili_project_v0/static/js/dashboard.js:569-580 | one pass of the loop opens a zero entry for a new key, then adds the transaction's quantity and revenue to that key's entry only |
| ServiceDetails.NameOfAppend | utili_project_v0/static/js/dashboard.js:570-573 | the recorded service name is that of the first transaction with the key; later transactions never change it |
| ServiceDetails.CodesAppend | utili_project_v0/static/js/dashboard.js:568-581 | one more transaction adds its key at the end if it is new, and changes only its own key's totals |
| ServiceDetails.GroupEntryKnown | utili_project_v0/static/js/dashboard.js:578-580 | an entry whose key was already seen keeps its name, and grows only when the transaction has that key |
| ServiceDetails.GroupEntryNew | utili_project_v0/static/js/dashboard.js:570-580 | a new key's entry is appended last, holding the first name and the transaction's quantity and revenue |
| ServiceDetails.GroupEntryStep | utili_project_v0/static/js/dashboard.js:568-581 | each entry of the grouping of a longer list is that entry after one more pass of the loop |
| ServiceDetails.GroupStep | utili_project_v0/static/js/dashboard.js:568-581 | one more pass of the loop turns the grouping of a list into the grouping of the list one longer |
| ServiceDetails.GroupPrefixStep | utili_project_v0/static/js/dashboard.js:568-581 | the loop's invariant: after i passes the map is the grouping of the first i transactions |
| ServiceDetails.SummariseByService | utili_project_v0/static/js/dashboard.js:567-581 | the loop builds the grouping of the selected transactions |
| ServiceDetails.AddToSummaryTotals | utili_project_v0/static/js/dashboard.js:579-580 | one pass adds exactly the transaction's quantity and revenue to the summary's totals |
| ServiceDetails.GroupConserves | utili_project_v0/static/js/dashboard.js:567-581 | the entries' `totalCount` add up to the selection's `orderQty` and their `totalRevenuePL` to its `revenuePL \|\| 0` |
| ServiceDetails.InsertByRevenue | utili_project_v0/static/js/dashboard.js:583-585 | inserting adds one entry, at the front or behind the old first entry |
| ServiceDetails.SortByRevenue | utili_project_v0/static/js/dashboard.js:583-585 | sorting keeps the number of entries |
| ServiceDetails.InsertSorted | utili_project_v0/static/js/dashboard.js:583-585 | inserting into a list ordered by revenue keeps it ordered |
| ServiceDetails.SortSorted | utili_project_v0/static/js/dashboard.js:583-585 | `sortedServiceSummary` is ordered by revenue, highest first |
| ServiceDetails.InsertPermutes | utili_project_v0/static/js/dashboard.js:583-585 | inserting adds the entry and loses nothing |
| ServiceDetails.SortPermutes | utili_project_v0/static/js/dashboard.js:583-585 | the sorted summary is a permutation of the grouping |
| ServiceDetails.InsertStable | utili_project_v0/static/js/dashboard.js:583-585 | an inserted entry goes ahead of the entries of equal revenue |
| ServiceDetails.SortIsStable | utili_project_v0/static/js/dashboard.js:583-585 | entries of equal revenue keep their first-appearance order |
| ServiceDetails.InsertKeepsDistinctCodes | utili_project_v0/static/js/dashboard.js:583-585 | inserting an entry with a new code keeps codes distinct |
| ServiceDetails.DistinctCodesCons | utili_project_v0/static/js/dashboard.js:583-585 | putting an entry with a new code in front keeps codes distinct |
| ServiceDetails.SortKeepsDistinctCodes | utili_project_v0/static/js/dashboard.js:583-585 | sorting never merges or duplicates a service code |
| ServiceDetails.SortedSummaryCodes | utili_project_v0/static/js/dashboard.js:567-585 | the sorted summary has distinct, non-empty codes |
| ServiceDetails.TotalPages | utili_project_v0/static/js/dashboard.js:588 | `Math.ceil(n / 5)`: the fewest pages of five that hold every entry |
| ServiceDetails.PageExists | utili_project_v0/static/js/dashboard.js:588-590 | a page exists in the page count exactly when its first row is inside the summary |
| ServiceDetails.ResetPage | utili_project_v0/static/js/dashboard.js:590-592 | the page is kept when its first row exists and becomes 0 otherwise, so it is always in range |
| ServiceDetails.PageRows | utili_project_v0/static/js/dashboard.js:594-598 | the page holds the entries from `page * 5` on, at most five, as many as remain, and none past the end |
| ServiceDetails.EveryEntryOnItsPage | utili_project_v0/static/js/dashboard.js:594-598 | every summary entry is shown, as row `idx % 5` of page `idx / 5` |
| ServiceDetails.ClickedEntryIsOnThisPage | utili_project_v0/static/js/dashboard.js:668 | the global index `page * 5 + row` of a shown row leads back to that page and row |
| ServiceDetails.BarOf | static/js/charts.js:338-346 | a bar carries its entry's count and revenue; it is selected exactly when its code is the service filter and dimmed exactly when a filter is set and it is not selected |
| ServiceDetails.BarsOf | static/js/charts.js:342-343 | one bar per row of the page |
| ServiceDetails.Highlight | static/js/charts.js:342-343 | with no service filter nothing is selected or dimmed; with one, every bar is either the selected one or dimmed, and at most one is selected |
| ServiceDetails.PaginationOf | utili_project_v0/static/js/dashboard.js:684-691 | the controls are shown exactly when there is more than one page; "previous" is disabled exactly on page 0 and "next" exactly on the last page |
| ServiceDetails.ShowSummary | static/js/charts.js:273-313 | an empty selection shows the placeholder and leaves summary and page untouched; otherwise the summary is the sorted grouping, the page is reset if out of range, and that page's bars and controls are shown; the state invariant is kept |
| ServiceDetails.LegacyDrawServiceDetailsChart | utili_project_v0/static/js/dashboard.js:555-598 | the older panel does that for the device's transactions of the chosen month |
| ServiceDetails.YearListUnique | static/js/charts-data.js:170 | a strictly descending list is determined by its elements, so the year list is unique |
| ServiceDetails.LatestFirst | static/js/charts-data.js:170 | sorting distinct years and reversing them lists the same years, strictly latest first |
| ServiceDetails.YearOptions | static/js/charts-data.js:161-170 | the years offered are the distinct first four characters of the device's non-empty `yearMonth`s, strictly latest first |
| ServiceDetails.DrawServiceDetailsChart | static/js/charts.js:254-313 | the current panel refreshes the year list, then selects by device, month and the state's year filter, and draws as above |
| CrossFilter.Toggle | utili_project_v0/static/js/dashboard.js:493 | a click on the active value clears the filter; a click on any other value selects it |
| CrossFilter.Chip | static/js/ui.js:190-195 | a chip is shown exactly for a truthy filter, holding its value |
| CrossFilter.StatusOf | static/js/ui.js:186-208 | a chip per set filter; the clear button exactly when a month or service filter is set; the hint exactly when neither is |
| CrossFilter.ClickMonth | static/js/charts.js:136-143 | a month click toggles the month filter and returns to page 0 |
| CrossFilter.ClickService | static/js/charts.js:430-437 | a bar click toggles the service at global index `page * 5 + row`, does nothing when there is no such entry, and keeps the page; on a shown row that is the row's own service |
| CrossFilter.PageMove | static/js/charts.js:482-487 | the move is allowed exactly when the new page is in `[0, ceil(n / 5))` |
| CrossFilter.ChangeServicePage | static/js/charts.js:482-495 | a move off either end changes nothing; otherwise the page is set and the panel redrawn, which keeps the new page |
| CrossFilter.LegacyChangeServicePage | utili_project_v0/static/js/dashboard.js:732-745 | the same for the older panel |
| CrossFilter.ChangeYearFilter | static/js/charts-data.js:190-198 | choosing a year sets the year filter (none for the empty option), returns to page 0 and redraws the panel with it |
| CrossFilter.ClearAllFilters | static/js/ui.js:210-213 | both filters cleared and page 0 |
| CrossFilter.ClearView | static/js/ui.js:153-164 | both filters cleared, the page and the device selection untouched, the hint shown and the clear button hidden |
| CrossFilter.BrandModelOptions | static/js/ui.js:46-56 | the brand/model drop-down is enabled exactly for a chosen BME present in the hierarchy, and lists its brand/models in ascending order |
| CrossFilter.TitleOptions | static/js/ui.js:116-126 | the AE title drop-down is enabled exactly when the list under the two keys is non-empty, and lists it in filing order |
| CrossFilter.OfferedTitles | static/js/ui.js:116-126 | with the hierarchy built from the catalogue, the titles offered for two keys are exactly the devices filed under them |
| CrossFilter.HandleBmeChange | static/js/ui.js:33-59 | sets the BME (none for the empty option), clears brand/model, AE title and both filters, and offers that BME's brand/models |
| CrossFilter.HandleBrandModelChange | static/js/ui.js:107-129 | sets the brand/model, clears AE title and both filters, and offers the titles under the two keys |
| CrossFilter.HandleAeTitleChange | static/js/ui.js:131-150 | sets the AE title, clears both filters and returns to page 0; an empty choice clears the view and a chosen device is opened |
| CrossFilter.ApplyInitialSelectionFromUrl | static/js/ui.js:61-104 | an absent `ae` parameter, or one not in the catalogue, changes nothing; otherwise it selects the device's BME, brand/model and title, clears both filters, returns to page 0, fills both drop-downs and loads that device |
| CrossFilter.SelectDevice | static/js/ui.js:92-97 | the state sync sets the three selection fields, clears both filters and returns to page 0 |
| CrossFilter.UrlDeviceIsOffered | static/js/ui.js:73-89 | a device named in the URL is always among the brand/models and titles the drop-downs then offer |
| BreakEven.BreakEvenRow | static/js/charts.js:152-169 | the least row whose cumulative revenue reaches the CapEx of row 0, and none when there is no CapEx or no row reaches it |
| BreakEven.AnnotationColumn | static/js/charts.js:182-186 | the annotation is set on exactly the break-even row, and holds the break-even label |
| BreakEven.OneMarker | static/js/charts.js:182-186 | exactly one row is annotated when the break-even row is on the chart, none otherwise |
| ChartWindow.Earliest | static/js/charts-data.js:133-141 | the minimum of a non-empty date column |
| ChartWindow.Latest | static/js/charts-data.js:133-141 | the maximum of a non-empty date column |
| ChartWindow.DateExtent | static/js/charts-data.js:133-143 | the min/max scan gives no bounds for an empty column, otherwise its minimum and maximum |
| ChartWindow.InitialWindow | static/js/charts-data.js:145-154 | with an install range the window is `[max(range.start, min), min(range.end, max)]`; without one it is `[min, max]` |
| ChartWindow.WindowInsideBounds | static/js/charts-data.js:145-154 | when the install range meets the data, the first window is a non-empty part of the data bounds |
| ChartWindow.InitChartDateBounds | static/js/charts-data.js:124-155 | nothing changes for an empty column; a change of device forgets the old window; the bounds are the column's extent; an existing window of the same device is never recomputed |
| Loader.DecimalString | utili_project_v0/static/js/api.js:57 | the status code is written as a non-empty string of digits |
| Loader.DecimalRoundTrip | utili_project_v0/static/js/api.js:57 | reading those digits back gives the status code |
| Loader.HttpMessage | utili_project_v0/static/js/api.js:57 | the message is `HTTP `, the status digits, ` : ` and the status text, and nothing else |
| Loader.HttpMessageStatus | utili_project_v0/static/js/api.js:57 | the fallback message starts with `HTTP `, followed by the status code, which can be read back from it |
| Loader.SafeFetchJson | utili_project_v0/static/js/api.js:44-60 | an ok response yields its data, null when unparseable; a failed one throws the body's own error when it has one, otherwise `HTTP <status> : <statusText>` |
| Loader.StoreCatalogue | utili_project_v0/static/js/api.js:76-95 | stores the catalogue and the hierarchy reduced from it, and every title filed in it is a catalogue device |
| Loader.FiledAreCatalogued | utili_project_v0/static/js/api.js:85-95 | every title in any list of the hierarchy is a key of the catalogue |
| Loader.CataloguedIsFiled | utili_project_v0/static/js/api.js:85-95 | every catalogue device is in the list under its own two keys |
| Loader.LoadInitialData | utili_project_v0/static/js/api.js:65-103 | the catalogue (`{}` when absent) and its hierarchy are stored and the view is cleared; with an `ae` parameter that is a catalogue device, that device's BME, brand/model and title are selected, page 0, and the title is in the list under those keys; otherwise the selection and page are unchanged |
| Loader.IssuedMonotone | utili_project_v0/static/js/api.js:120 | the request counter never goes down |
| Loader.IdsIncrease | utili_project_v0/static/js/api.js:112-120 | request ids strictly increase in issue order |
| Loader.LatestWins | utili_project_v0/static/js/api.js:134-137 | a response is accepted only when no request was issued after its own |
| Loader.AcceptedIsLatest | utili_project_v0/static/js/api.js:120-137 | a request whose id is the counter's is the last request issued |
| Loader.Decide | utili_project_v0/static/js/api.js:134-144 | a stale response is ignored whatever it holds; otherwise a thrown error, a non-object body or a body with `error` goes to the error display, and only an error-free object is loaded |
| Loader.DeviceLoader.constructor | utili_project_v0/static/js/api.js:112 | the counter starts at 0 with no events |
| Loader.DeviceLoader.Start | utili_project_v0/static/js/api.js:114-120 | an empty title issues no request and keeps the counter; otherwise the request gets id counter + 1, which becomes the counter |
| Loader.DeviceLoader.Finish | utili_project_v0/static/js/api.js:130-179 | the response is accepted exactly when its id is the counter's; only an accepted, loadable response writes state: the defaults `{}`, `[]`, `[]` and null, and as current title the title of the last request issued; anything else writes nothing |
| Timeline.MonthField | utils.py:25 | a `%m` field is a month from 1 to 12 and consumes at least one character |
| Timeline.DayField | utils.py:25 | a `%d` field is a day from 1 to 31 |
| Timeline.ParseYmd | utils.py:25 | `strptime` with `%Y-%m-%d` only yields dates `datetime` accepts |
| Timeline.FormatYmd | utils.py:42 | `strftime('%Y-%m-%d')` writes ten characters with dashes at positions 4 and 7 |
| Timeline.Pad2Value | utils.py:42 | a two-digit field reads back as its number |
| Timeline.Pad4Value | utils.py:42 | a four-digit year reads back as its number |
| Timeline.Pad2Month | utils.py:42 | a written month parses back as that month |
| Timeline.Pad2Day | utils.py:42 | a written day parses back as that day |
| Timeline.MonthFieldShift | utils.py:25 | reading the month depends only on the characters it looks at |
| Timeline.FormatParses | utils.py:25-42 | parsing a written date gives the date back |
| Timeline.ParsedAll | utils.py:22-27 | one parse result per input, in order |
| Timeline.ValidDates | utils.py:21-27 | every kept date is a valid date |
| Timeline.ValidDatesMembers | utils.py:21-27 | a date is kept exactly when some input string parses to it; non-strings and unparseable strings are skipped |
| Timeline.CollectValidDates | utils.py:21-27 | the first loop builds exactly the kept dates, in input order |
| Timeline.MinDate | utils.py:32 | `min` of a non-empty list: an element no later than any other |
| Timeline.MaxDate | utils.py:33 | `max` of a non-empty list: an element no earlier than any other |
| Timeline.FutureStartMonth | utils.py:35-36 | the future start is day 1 of the month three months after today's month |
| Timeline.FutureOverflows | utils.py:35-36 | when today is in the last three months of year 9999, the bound lies in December 9999 or later |
| Timeline.Advance | utils.py:43 | n steps of one month keep the day and move the month number on by n |
| Timeline.AdvanceStep | utils.py:43 | n + 1 steps are one step after n steps |
| Timeline.FirstsOrdered | utils.py:41 | a first of a month is not after a date exactly when its month is not after the date's month |
| Timeline.LeqMonthIndex | utils.py:37 | a date not after another has a month number not after the other's |
| Timeline.SameMonth | utils.py:43 | a date is fixed by its month number and its day |
| Timeline.MonthRun | utils.py:40-43 | entry k of a run of month starts is k months after its start |
| Timeline.TimelineOf | utils.py:29-43 | on valid dates whose bound lies before December 9999, every entry of the timeline is a date `datetime` can hold, year at most 9999 |
| Timeline.TimelineDates | utils.py:17-43 | when the bound lies before December 9999, every entry of the timeline of an input list is a date `datetime` can hold |
| Timeline.Formatted | utils.py:42 | one string per date, each written as `%Y-%m-%d` |
| Timeline.TimelineShape | utils.py:32-43 | the timeline runs from the earliest date's month to the month of `max(latest date, future start)` |
| Timeline.WalkStep | utils.py:41-43 | one pass of the walk appends the current month start and moves one month on |
| Timeline.MonthRunStep | utils.py:41-43 | a run one longer ends with the next month start |
| Timeline.FormattedAppend | utils.py:42 | writing a list one longer appends the last date's string |
| Timeline.WalkMonths | utils.py:39-43 | the while loop lists every month start from the first month to the bound's month, written out; it fails, as stepping past December 9999 raises, exactly when the bound's month is December 9999 or later |
| Timeline.GenerateDateTimeline | utils.py:17-45 | `generate_date_timeline` returns the timeline of its input as strings, `[]` for an empty input or one with no valid date; it fails, where Python raises `ValueError`, exactly when the bound lies in December 9999 or later |
| Timeline.TimelineStart | utils.py:32-42 | the first entry is day 1 of the earliest valid date's month |
| Timeline.TimelineSteps | utils.py:40-43 | consecutive entries are on day 1, exactly one calendar month apart, and strictly increasing |
| Timeline.TimelineEnd | utils.py:33-41 | the last entry is the latest month start not after `max(latest date, future start)` |
| Timeline.RunEnd | utils.py:41 | a run of month starts up to a bound's month ends on the latest month start not after the bound |
| Timeline.TimelineCovers | utils.py:32-43 | the month of every valid input date is on the timeline |
| Timeline.TimelineCoversFuture | utils.py:36-43 | the first of the month three months ahead is on the timeline whenever the data begins no later |
| Timeline.RunCovers | utils.py:40-43 | every month start between the run's start and its bound is in the run |
| Timeline.ExtremesOfSameDates | utils.py:32-33 | the earliest and latest dates depend only on which dates there are |
| Timeline.SameDatesBothEmpty | utils.py:29-30 | two lists with the same dates are both empty or both not |
| Timeline.TimelineOrderIndependent | utils.py:17-45 | the timeline depends neither on the order of the input nor on repetitions in it |

## Left out

- Google Charts and the DOM are not modelled: `DataTable`/`DataView` building, chart options, `draw` and `setSelection`, `innerHTML` and element creation. The style strings of the table are reduced to the facts they encode, the future flag and the line colour. Tooltips and titles are not modelled.
- `fetch`, the `AbortController` timeout and `response.text()` are network I/O. A settled fetch is an input: the parsed body, or the message it threw.
- URL handling is a browser API. The `ae` query parameter is an input, and navigating to `?ae=<title>` is reported as the device to open.
- `formatShortNumber` is float formatting for display and is not modelled.
- `getInitialDateRange` uses `Date.setFullYear`. Its result is an optional input to `InitChartDateBounds`, and the chart window is a pair of timestamps.
- A month click turns the clicked `Date` into `YYYY-MM` with local-time getters. The model takes that string as the input.
- The backend is not modelled: the Flask routes, the database and pandas loading, and the cost fallback of `services.py`. `robust_parse_date` is not modelled either. Only `generate_date_timeline` is part of this model.
- Console logging and warnings are left out, including the warning for a missing SAP key.
- The older dashboard defines its own copies of `clearView`, `clearAllFilters`, the drop-down handlers, the click handlers and `changeServicePage`. Each of these assigns the same state fields as the current code and is modelled once. Only the two aggregators, the two breakdown panels and the two `changeServicePage`s redraw differently, so those are modelled twice.
- `loadDeviceData` of the older dashboard, which has no request guard, is left out. Its state writes are those of `Loader.DeviceLoader.Finish` on an accepted response.
- `state.deviceInfo` is written by `loadDeviceData` but read by nothing in the modelled core. The `installDate` conversion to a `Date` is not modelled either.
- `drawChartAndTable` is not modelled. It only orchestrates the drawing and calls the aggregator and the panels modelled here. Handlers that end by calling it are modelled up to that call.
- `populateBmeDropdown`, `showLoadingSpinner` and `showError` only write HTML and are not modelled.
- Loader.LoadInitialData: only the successful load is modelled. A failed fetch or a body with an `error` field goes to the error display and writes no state, which this model does not show.
- Loader.DeviceLoader.Finish: the `sapMap` field is absent or a map. A truthy non-object value, which `data.sapMap || {}` would store as is, is not representable. An `error` field that is not a string is not modelled.
- CrossFilter.ApplyInitialSelectionFromUrl: the drop-down options are computed from the synced selection. The source instead calls `handleBmeChange` and `handleBrandModelChange`, which read the select elements. Those elements hold the same keys whenever the hierarchy was built from the catalogue, as `CrossFilter.UrlDeviceIsOffered` proves. The intermediate state those two handlers write is overwritten by the sync and is not modelled.
- `localeCompare` in the year sort is modelled as code-unit order. The two orders agree on the four-digit years this list holds. Strings are sequences of characters, not UTF-16 code units.
- A JavaScript object key that collides with a prototype property, such as `__proto__`, is not modelled.
- The aggregator receives the AE title as a string. A null title, which finds no device, is not modelled.
- `strptime` is modelled for ASCII digits only, and `%Y` as exactly four digits. Python also accepts other Unicode decimal digits there.
- Timeline.Pad4: writes years up to 9999 only. A timeline that would step past December 9999 is a failure (`None`), as Python raises before such a date exists; the message of the `ValueError` or `OverflowError` is not modelled.
- Timeline.GenerateDateTimeline: dates are compared by calendar day. The time of day of `datetime.today()` cannot change the result, because every other date involved is at midnight and the future start is a first of a month. Today is a parameter.
- Timeline.TimelineStart, Timeline.TimelineEnd, Timeline.TimelineCovers and Timeline.TimelineCoversFuture are stated about `Timeline.TimelineOf` for any list of dates within `datetime`'s ranges. `Timeline.ValidDates` guarantees this for every parsed input, and `Timeline.GenerateDateTimeline` returns exactly that timeline whenever it does not fail.
