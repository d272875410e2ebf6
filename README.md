# Two-period stock comparison engine, in Dafny

This project models the core of *dollarstock*: a command-line analyser (`stock_analyzer.py`) and a Streamlit page (`streamlit_app.py`). Both compare a stock's daily trading over two date periods. Both take one table of daily rows (date, close, volume), fetched for the window that spans both periods, and repeat the same engine for each chart and table:

- **Dollar volume.** Every row gets `close × volume`, computed over the whole table before any slicing.
- **Period slice.** The rows whose date lies in the closed interval `[start, end]`, kept in table order.
- **Alignment offset.** Each sliced row's offset is the number of calendar days since the requested period start.
- **Month ticks.** A loop walks from the first period's start to the first of each following month, wrapping December into January of the next year. It emits one (offset, month name) tick per month until it passes the first period's end.
- **Monthly buckets.** A period's rows are grouped by (year, month) in ascending order. Each bucket holds the volume sum, the unweighted mean close and the dollar-volume sum.
- **Period summary.** The same three figures over the whole slice. A period gets a summary only when its slice is non-empty.
- **Orchestration.** The fetch window is the earliest start to the latest end. The summary and monthly tables are built period by period. The Streamlit page also builds a merged, sorted, de-duplicated month axis and upper-cases the ticker symbol.

## Representation

- Dates are proleptic-Gregorian `(year, month, day)` triples.
- A day difference is the difference of day ordinals. The ordinal counts the days before the year, then the days before the month, then the day.
- Prices are whole cents (`nat`) and volumes are `nat`, so a dollar volume is an exact `nat`.
- The mean close is an exact `real`.
- A period is `(name, start, end)`.

Modules, one per file:

- `Dates` (`dates.dfy`): calendar, ordinals, day differences, month stepping.
- `Frames` (`frames.dfy`):
  - row types;
  - the `PriceFrame` class, whose dollar-volume column is added in place;
  - the generic period slice, offsets and observed date range.
- `MonthTicks` (`month_ticks.dfy`): the tick loop, specified by tick functions.
- `Monthly` (`monthly.dfy`): the group-by, the reductions and their reconciliation.
- `Reports` (`reports.dfy`):
  - fetch window;
  - symbol upper-casing;
  - the summary and monthly tables as functions of the period list.
- `Analyzer` (`analyzer.dfy`): the command-line report loop.
- `App` (`app.dfy`): the Streamlit accumulator loops and the merged month axis.

The summary's "Date Range" column in `stock_analyzer.py` (line 276) prints the **requested** start and end dates. It does not print the dates actually observed. The model follows the code: `SummaryRow` carries the requested `Period`. `Frames.ObservedRange` gives the observed first and last dates, which the command-line tool prints at lines 100-103.

## Model

| member | source | states |
|---|---|---|
| Dates.DaysSinceStart | stock_analyzer.py:34-35 | The offset is 0 exactly when the date is the start. It is positive exactly when the date is later and negative exactly when it is earlier. |
| Dates.DaysSinceStartCountsDays | stock_analyzer.py:119-120 | Stepping n calendar days forward from the start (leap days included) gives an offset of exactly n. |
| Dates.OffsetReachesDate | streamlit_app.py:60-61 | Stepping forward from the start by a later date's offset lands exactly on that date, so the offset is the true calendar-day difference. |
| Dates.OrdinalOrder | stock_analyzer.py:65 | Day ordinals order valid dates exactly as the calendar does: <, <= and = each agree in both directions. |
| Dates.NextMonthStartFacts | stock_analyzer.py:70-72 | Moving to the next month gives a valid first-of-month date one month index later, strictly after the current date. December wraps to January of the next year. |
| Dates.FirstOfMonthLe | stock_analyzer.py:156 | A first-of-month date is on or before a valid date exactly when its month index is not after that date's. |
| Frames.Enrich | stock_analyzer.py:123-125 | The enriched table has the same length. Each row keeps its date, close and volume, and gains dollar volume equal to close times volume. |
| Frames.DollarVolumes | stock_analyzer.py:123 | The column has one entry per row, each that row's close times its volume. |
| Frames.PriceFrame.Copy | stock_analyzer.py:124 | The copy is a new object with the same rows and the same dollar-volume column, so later changes to it leave the original alone. |
| Frames.PriceFrame.AddDollarVolume | streamlit_app.py:45 | Adds the dollar-volume column in place: the rows are unchanged and the column equals close times volume for every row. |
| Frames.WithDollarVolume | stock_analyzer.py:257-259 | Returns a fresh copy of the frame, with the dollar-volume column added, whose enriched table is the enrichment of the original rows. |
| Frames.Slice | stock_analyzer.py:44 | A row is in the slice exactly when it is in the table and its date lies in [start, end]. The slice is no longer than the table. |
| Frames.SliceAppend | streamlit_app.py:72 | Slicing a concatenation is the concatenation of the slices, so the slice keeps rows in table order. |
| Frames.SliceIdempotent | stock_analyzer.py:134 | Slicing an already-sliced table by the same period returns it unchanged. |
| Frames.SliceChronological | stock_analyzer.py:271 | The slice of a chronological table is chronological: the slice keeps the table's date order. |
| Frames.SliceEnrichCommute | stock_analyzer.py:194-196 | Slicing the enriched table equals enriching the slice. |
| Frames.Offsets | stock_analyzer.py:47 | One offset per row, each the day difference from the given start. |
| Frames.OffsetsInPeriod | streamlit_app.py:74 | Every offset of a sliced row lies in [0, end - start], and an offset is 0 exactly when the row falls on the start date. |
| Frames.OffsetsIncreasing | stock_analyzer.py:137 | On a chronological table the offsets strictly increase. |
| Frames.ObservedRangeWithinPeriod | stock_analyzer.py:100-103 | A non-empty chronological slice has first and last dates with start <= first <= last <= end. |
| MonthTicks.MonthsTouched | stock_analyzer.py:62-64 | The count of calendar months [start, end] touches is positive exactly when start <= end. |
| MonthTicks.TickDate | stock_analyzer.py:63 | Tick i is a valid date i months after the start's month, and every tick after the first falls on the 1st. |
| MonthTicks.TickDateStep | stock_analyzer.py:160-163 | The loop's month step takes tick i to tick i+1, and the offset strictly grows. |
| MonthTicks.TickOffsets | stock_analyzer.py:157-158 | Tick i's offset is the day difference from the start to tick date i. |
| MonthTicks.TickLabels | stock_analyzer.py:159 | Tick i's label is the month name of tick date i. |
| MonthTicks.TickOffsetsIncreasing | stock_analyzer.py:151-163 | The first tick offset is 0 and tick offsets strictly increase. |
| MonthTicks.TickOffsetsBounded | stock_analyzer.py:156 | When the last tick date is not past the end, every tick offset lies in [0, end - start]. |
| MonthTicks.TickCountAtExit | stock_analyzer.py:65 | When the loop stops, it has emitted exactly one tick per month touched by [start, end]. |
| MonthTicks.Ticks | stock_analyzer.py:60-72 | The loop terminates and emits one tick per month touched by period 1's [start, end]. The first tick is 0 with the start's month name. Ticks strictly increase and lie in [0, end - start]. |
| Monthly.Insert | stock_analyzer.py:283 | Inserting a month key into a strictly ascending key list keeps it strictly ascending, and adds exactly that key. |
| Monthly.SortedDistinct | streamlit_app.py:155-156 | The result is strictly ascending and holds exactly the keys of its input. |
| Monthly.GroupKeys | streamlit_app.py:136 | The group keys are strictly ascending and are exactly the months present in the rows. |
| Monthly.GroupByMonth | stock_analyzer.py:283-287 | There is one bucket per (year, month) present, in strictly ascending order, none empty. Each bucket's totals are the volume sum, mean close and dollar-volume sum of that month's rows. |
| Monthly.Summarize | stock_analyzer.py:272-280 | None exactly when the slice is empty; otherwise the totals of the whole slice. |
| Monthly.MonthlyTotalsReconcile | stock_analyzer.py:277-279 | For a non-empty slice, the monthly buckets' volume totals and dollar-volume totals add up to the period summary's totals. |
| Monthly.MeanCloseBounded | stock_analyzer.py:278 | When every close lies in [lo, hi], the mean close lies in [lo, hi]. |
| Monthly.InMonth | streamlit_app.py:136 | A month's group holds exactly the rows of the table that fall in that (year, month), and is no longer than the table. |
| Monthly.InMonthNonEmpty | stock_analyzer.py:216 | A month that occurs among the rows has at least one row, so no bucket is empty. |
| Reports.FetchWindow | stock_analyzer.py:398-399 | The window's start is one of the two starts and no later than either. Its end is one of the two ends and no earlier than either. |
| Reports.FetchWindowCovers | streamlit_app.py:36-37 | Every date inside either period lies inside the fetch window. |
| Reports.Upper | streamlit_app.py:17 | Upper-casing keeps the length, leaves no lower-case letter, shifts each lower-case letter to its capital and leaves every other character unchanged. |
| Reports.UpperIdempotent | streamlit_app.py:17 | Upper-casing twice is the same as upper-casing once. |
| Reports.SummaryFor | stock_analyzer.py:270-280 | A period gets no summary row when its slice is empty. Otherwise it gets exactly one, holding the period and the slice's totals. |
| Reports.MonthlyFor | streamlit_app.py:129-145 | An empty slice contributes no rows. Otherwise every row is tagged with the period's name and months strictly ascend. |
| Reports.SummaryRowsPerPeriod | streamlit_app.py:194-205 | Every summary row belongs to a listed period with data and holds that period's totals. Every listed period with data has a row, and a period without data has none. |
| Reports.SummaryReconcilesWithMonthly | stock_analyzer.py:283-297 | A period's summary-row totals equal the sums over its monthly rows' volume and dollar volume. |
| Reports.MonthlyRowsTwoPeriods | stock_analyzer.py:289-297 | For the two periods, the monthly table is period 1's rows followed by period 2's rows. |
| Reports.FlattenMonthlyGroups | streamlit_app.py:148 | Concatenating the per-period monthly tables gives the monthly table. |
| Analyzer.AppendTagged | stock_analyzer.py:289-297 | Appending the tagged buckets extends the monthly list by exactly the tagged rows. |
| Analyzer.SummaryTables | stock_analyzer.py:267-297 | The period-summary and monthly-summary lists built by the loop are the summary table and the monthly table of the period list. |
| App.MonthlyDataAll | streamlit_app.py:128-145 | The accumulated list holds, in period order, one tagged monthly table per period with data. |
| App.MonthlyDataAllTagged | streamlit_app.py:142-145 | Every table in that list is non-empty and is the monthly table of a listed period whose slice has data. |
| App.MergedMonths | streamlit_app.py:148-156 | The merged month axis is strictly ascending and holds exactly the months that occur in the monthly tables. |
| App.MergedMonthLabels | streamlit_app.py:157 | One label per merged month, each that month's name. |
| App.MergedMonthsOfTwoPeriods | streamlit_app.py:155-157 | A month is on the merged axis exactly when it occurs in period 1's slice or period 2's slice. |
| App.MergedMonthsNamed | streamlit_app.py:157 | On a table of valid dates every merged month is in 1..12, so every axis label exists. |
| App.SliceMonthsNamed | streamlit_app.py:134-135 | Every (year, month) key of a slice of a table with valid dates has a month in 1..12. |
| App.MonthlyForMonths | streamlit_app.py:133-140 | The months in a period's monthly rows are exactly the months in its slice. |
| App.SummaryData | streamlit_app.py:193-205 | The summary list built by the loop is the summary table of the period list. |
| App.MonthlyBreakdown | streamlit_app.py:211-222 | The breakdown is the rows of each accumulated table, table after table, in order. |
| App.BreakdownIsMonthlyTable | streamlit_app.py:211-222 | The breakdown equals the monthly table. For two periods it is period 1's months in ascending order followed by period 2's. |

## Left out

- Fetching data from Yahoo Finance (`yf.download`, `Ticker.history`) is network I/O. The table is a parameter. That the fetch's end date is exclusive is not modelled.
- Plotly figures, layouts, colours, hover text and HTML files are presentation only and not modelled. This includes the bar chart whose category axis is the merged month list while each period's bar heights are its own months (streamlit_app.py:164-165).
- The HTML table text, the f-string number formatting and the `MonthLabel` strings (streamlit_app.py:143-144) are not modelled.
- Argument parsing, `strptime`, Streamlit widgets, tabs and `try/except` error display are not modelled. Dates are assumed already parsed, and `ValidDate` states when a date is well formed.
- Floating-point prices and pandas' summation order are not modelled. Prices are exact cents, and the mean is an exact `real`.
- The time-zone-aware versus naive timestamp comparison at stock_analyzer.py:44 is not modelled. Rows carry calendar dates.
- The `Year`/`Month` columns added in place (streamlit_app.py:134-135) are modelled as the key function `Monthly.MonthOf` rather than as mutated columns.
- `Frames.Slice` is modelled on values. Pandas' boolean-mask copy and its index are not represented.
- MonthTicks.Ticks: does not model Python's `datetime` year limit of 9999. In Python, stepping past December 9999 raises `ValueError`, but dates here are unbounded.
- Reports.Upper: upper-cases only ASCII letters `a`-`z`. Python's `str.upper` also maps other Unicode letters.
- The Streamlit page's volume and dollar-volume traces (streamlit_app.py:71-84, 100-114) reuse `Frames.Slice` and `Frames.Offsets`. They have no separate member.
- The command-line monthly bar chart (stock_analyzer.py:213-225) uses only the dollar-volume sum of `Monthly.GroupByMonth`'s buckets.
