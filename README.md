# Business dashboard pipeline, modelled in Dafny

This project models the data core of a Streamlit sales dashboard. The model
covers:

- **The filter pipeline** (`utils/data_utils.py`):
  - `process_and_filter` restricts the transactions to a date range, a set
    of regions, a set of categories and, optionally, a customer segment.
  - `get_trend` compares the revenue of the earlier and the later half of
    the date-sorted rows.
  - `get_summary` computes the KPI summary: completed revenue, mean order
    value, refund rate, mean conversion rate, distinct customers, and the
    top region and top category. It also returns a completed-only per-day
    join.
  - `get_enriched_metrics` groups the rows of every status by date (summed
    amount, row count) and inner-joins those groups with the dataset's
    daily metrics, sorted by date.
- **The arithmetic of the UI helpers** (`utils/ui_components.py`):
  - the paged table: page count, page slice, and the "Showing a to b of n"
    line;
  - the filter panel: date presets, segment options, and the filter record
    it returns;
  - the aggregations behind the line, pie and bar charts.

Every part of this core is a chain of dataframe expressions or
straight-line arithmetic. So the model is made of datatypes, functions and
lemmas over sequences.

The modules are:

- `Records` (`records.dfy`) holds the row shapes of `models.py`.
- `Aggregates` (`aggregates.dfy`) holds the dataframe operations the
  pipeline is built from: `filter`, `sum`, `sort("date")`,
  `group_by("date")`, and `group_by(col).agg(sum).sort(descending)`.
- `DataUtils` (`data_utils.dfy`) holds the four pipeline functions.
- `UiComponents` (`ui_components.dfy`) holds the UI arithmetic.

Modelling choices:

- Dates are ordinal day numbers, after parsing.
- Amounts and rates are exact `real`s, so sums, means and percentages have
  no rounding.
- A widget's value (the page picked, the period chosen, the segment radio
  index) is a parameter of the function that uses it.

## Model

| member | source | states |
|---|---|---|
| Aggregates.Filter | utils/data_utils.py:13-18 | a filter keeps at most the input's rows; each kept row is an input row satisfying the predicate, and each satisfying input row is kept |
| Aggregates.FilterIsSubsequence | utils/data_utils.py:13-21 | a filter's result is an order-preserving subsequence of its input |
| Aggregates.FilterMultiset | utils/data_utils.py:13-21 | a filter keeps every satisfying row exactly as often as it occurs and drops every other row |
| Aggregates.FilterUnique | utils/data_utils.py:13-21 | any order-preserving subsequence of satisfying rows with the input's multiplicities is the filter's result |
| Aggregates.FilterFilter | utils/data_utils.py:13-21 | filtering by p and then by q is filtering by "p and q" |
| Aggregates.FilterCongruent | utils/data_utils.py:13-21 | filters whose predicates agree on every row give the same rows |
| Aggregates.FilterNone | utils/data_utils.py:13-18 | a filter that no row satisfies gives the empty frame |
| Aggregates.FilterAll | utils/data_utils.py:13-18 | a filter that every row satisfies gives the frame unchanged |
| Aggregates.FilterSplitCount | utils/data_utils.py:64-67 | the rows satisfying p split, by count, into those that also satisfy q and those that do not |
| Aggregates.Sum | utils/data_utils.py:32-33 | `df["amount"].sum()`: the amounts added up, 0 for no rows |
| Aggregates.SumConcat | utils/data_utils.py:32-33 | the amount sum of two frames concatenated is the sum of their sums |
| Aggregates.FilterSplitSum | utils/data_utils.py:64-67 | the rows satisfying p split, by summed amount, into those that also satisfy q and those that do not |
| Aggregates.SortedByDateOrdered | utils/data_utils.py:30 | a date-sorted frame is ordered between any two positions |
| Aggregates.InsertByDate | utils/data_utils.py:30 | inserting a row into a date-sorted frame keeps it sorted and adds one row, which is the new row or the old first row at the head |
| Aggregates.InsertByDatePermutes | utils/data_utils.py:30 | inserting a row adds exactly that row (as a multiset) |
| Aggregates.SortByDate | utils/data_utils.py:30 | `sort("date")` gives the same rows (as a multiset), with non-decreasing dates |
| Aggregates.InsertByDateSum | utils/data_utils.py:30-33 | inserting a row adds its amount to the sum |
| Aggregates.SortByDateSum | utils/data_utils.py:30-33 | sorting by date keeps the sum of the amounts |
| Aggregates.InsertDate | utils/data_utils.py:64 | adding a date to a strictly ascending date list keeps it strictly ascending and adds exactly that date |
| Aggregates.DistinctDates | utils/data_utils.py:64 | the group keys of `group_by("date")`: strictly ascending, each a date of some row, and every row's date among them |
| Aggregates.SumOnDate | utils/data_utils.py:65 | `revenue_filtered` of one date: the summed amount of the rows on that date, 0 on a date without rows |
| Aggregates.CountOnDate | utils/data_utils.py:66 | `orders_filtered` of one date: the number of rows on that date, at least 1 exactly when some row falls on it, and at most the rows |
| Aggregates.CountOnPresentDates | utils/data_utils.py:66 | a date carried by some row counts at least one row |
| Aggregates.StatsOn | utils/data_utils.py:64-67 | one group per listed date, carrying that date's summed amount and row count |
| Aggregates.StatDates | utils/data_utils.py:64 | the date column of the groups, position by position |
| Aggregates.StatDatesOn | utils/data_utils.py:64 | the groups' dates are exactly the dates they were built from, in order |
| Aggregates.DailyStats | utils/data_utils.py:64-67 | `group_by("date").agg(sum, len)`: groups strictly ascending by date; every row's date has a group; each group's date has rows, and the group holds its summed amount (`revenue_filtered`) and its count (`orders_filtered`, at least 1) |
| Aggregates.StatsOnTotals | utils/data_utils.py:64-67 | over distinct dates, the groups' revenues and counts add up to the sum and count of the rows on those dates |
| Aggregates.DailyStatsTotals | utils/data_utils.py:64-67 | the daily groups share out the rows: their revenues add up to the total amount and their counts to the number of rows |
| Aggregates.GroupSum | utils/data_utils.py:59-60 | the `amount` of group `k` in `group_by(col).agg(pl.col("amount").sum())`: the summed amount of the rows whose column is `k` (the same aggregation feeds the pie and bar charts, utils/ui_components.py:38, 45-46) |
| Aggregates.DistinctKeys | utils/data_utils.py:59 | the distinct values of a column, each once, and exactly those present |
| Aggregates.GroupKeysMembership | utils/data_utils.py:59 | a key is in the key set of the groups exactly when some group carries it |
| Aggregates.UniqueKeysIndexed | utils/data_utils.py:59 | unique keys means no two positions carry the same key |
| Aggregates.SortedDescendingFirstIsMax | utils/data_utils.py:59 | in groups sorted by descending sum, the first has the largest sum |
| Aggregates.TotalsFor | utils/ui_components.py:38 | one group per listed key, in the list's order, each with that key's summed amount |
| Aggregates.TotalsForKeys | utils/ui_components.py:38 | the groups' keys are exactly the listed keys |
| Aggregates.TotalsForUnique | utils/ui_components.py:38 | distinct listed keys give groups with no key twice |
| Aggregates.GroupTotals | utils/ui_components.py:38 | `group_by(col).agg(sum)`: one group per value present, no key twice, each with its value's summed amount |
| Aggregates.InsertDescending | utils/ui_components.py:47 | inserting a group into a descending list keeps it descending and adds one group, which is the new group or the old first group at the head |
| Aggregates.InsertDescendingPermutes | utils/ui_components.py:47 | inserting a group adds exactly that group (as a multiset) |
| Aggregates.InsertDescendingKeys | utils/ui_components.py:47 | inserting a group adds its key, and keeps the keys unique when that key is new |
| Aggregates.SortDescending | utils/ui_components.py:47 | `sort("amount", descending=True)`: the same groups (as a multiset) with non-increasing sums |
| Aggregates.SortDescendingKeys | utils/ui_components.py:47 | sorting keeps the set of keys and their uniqueness |
| Aggregates.RankedGroups | utils/ui_components.py:44-48 | the groups by a column, sorted: descending sums, unique keys, exactly the values present, each with its summed amount |
| Aggregates.KeyInSplit | utils/ui_components.py:38 | a row keyed by one of the distinct keys k::ks is keyed either by k or by one of ks, never both |
| Aggregates.TotalsForAmount | utils/ui_components.py:38 | the groups' amounts add up to the listed keys' group sums |
| Aggregates.KeySumsFiltered | utils/ui_components.py:38 | for distinct keys, the group sums add up to the summed amount of the rows carrying one of those keys |
| Aggregates.GroupTotalsSum | utils/ui_components.py:38 | the groups share out the rows: their sums add up to the total amount |
| Aggregates.InsertDescendingAmount | utils/ui_components.py:47 | inserting a group adds its amount to the total |
| Aggregates.SortDescendingAmount | utils/ui_components.py:47 | sorting the groups keeps the total of their amounts |
| Aggregates.RankedGroupsSum | utils/ui_components.py:44-48 | the ranked groups' sums add up to the total amount |
| DataUtils.Kept | utils/data_utils.py:13-21 | the whole filter condition of `process_and_filter`: date within `[start_date, end_date]`, region and category selected, and the selected segment unless that is "All" |
| DataUtils.InRangeAndSelected | utils/data_utils.py:13-18 | the first filter pass: date within `[start_date, end_date]`, region selected, category selected; together with the segment test it is exactly the whole condition `Kept` |
| DataUtils.InSegment | utils/data_utils.py:20-21 | the second filter pass: the customer's segment equals the selected one |
| DataUtils.ProcessAndFilter | utils/data_utils.py:7-23 | every kept transaction comes from the input, lies in `[start_date, end_date]`, has a selected region and category, and has the selected segment unless that is "All"; the result is no longer than the input |
| DataUtils.ProcessAndFilterIsOnePass | utils/data_utils.py:13-21 | the two filter passes amount to one filter by the whole condition |
| DataUtils.ProcessAndFilterCharacterised | utils/data_utils.py:13-23 | a frame is the filter's result if and only if it is an order-preserving subsequence of the input, holds only kept rows, and holds every kept row as often as the input does |
| DataUtils.InvertedRangeKeepsNothing | utils/data_utils.py:14-15 | when `start_date > end_date` nothing is kept |
| DataUtils.ProcessAndFilterIdempotent | utils/data_utils.py:13-23 | filtering the filtered frame again with the same filters changes nothing |
| DataUtils.AllSegmentsIgnoresSegment | utils/data_utils.py:20-21 | with segment "All", relabelling every customer's segment before filtering gives the rows that relabelling after filtering gives: segments play no role (the relabelling, `Resegment`, is a device of this statement and models nothing in the source) |
| DataUtils.TrendHalves | utils/data_utils.py:30-33 | the date-sorted rows split into `head(n // 2)` and `tail(n - n // 2)`: these are the sizes, the halves together are the input's rows sorted by date, and their sums add up to the total |
| DataUtils.HalvesAreChronological | utils/data_utils.py:30-33 | no row of the first half is dated later than a row of the second half |
| DataUtils.GetTrend | utils/data_utils.py:27-37 | "0%" exactly when there are fewer than 2 rows; "N/A" exactly when there are at least 2 rows and the first half's sum is not positive; otherwise a percentage, namely `PercentChange` from the first half's sum (positive) to the second half's |
| DataUtils.PercentChange | utils/data_utils.py:35 | `(second - first) / first * 100` over a positive `first`: the value that, times `first`, is 100 times `second - first` |
| DataUtils.RelativeChangeSign | utils/data_utils.py:35 | over a positive base a, the change in percent from a to b is positive, negative or zero exactly when b is greater than, less than or equal to a |
| DataUtils.TrendPercentSign | utils/data_utils.py:34-36 | a percentage trend has a positive first-half sum; the second half holds the rest of the total; the percentage is positive, negative or zero exactly when the later half earned more, less or the same |
| DataUtils.StatusIs | utils/data_utils.py:41-42 | the row test `status.str.to_lowercase() == word` |
| DataUtils.WithStatus | utils/data_utils.py:41-42 | the status filter: an order-preserving subsequence of the rows that holds each row with lowercased status `w` as often as the input does, and no other row |
| DataUtils.Completed | utils/data_utils.py:41 | `completed_df`: the status filter for "completed" |
| DataUtils.Refunded | utils/data_utils.py:42 | `refunds_df`: the status filter for "refunded" |
| DataUtils.LowerChar | utils/data_utils.py:41-42 | the per-character case map behind `str.to_lowercase`: an ASCII capital goes to its small letter, every other character is kept |
| DataUtils.ToLower | utils/data_utils.py:41-42 | `str.to_lowercase` keeps the length and lowercases each character |
| DataUtils.LowerCharMatch | utils/data_utils.py:41-42 | one character lowercases to a lowercase letter exactly when it is that letter in either case |
| DataUtils.LowercaseMatch | utils/data_utils.py:41-42 | status matching is case-insensitive: a status lowercases to "completed" (or "refunded") exactly when it has that word's length and each letter is the word's letter in either case |
| DataUtils.ConversionSum | utils/data_utils.py:56 | the conversion rates of the daily metrics added up |
| DataUtils.MeanConversion | utils/data_utils.py:56 | the mean conversion rate is 0 when there are no daily metrics |
| DataUtils.MeanConversionTimesDays | utils/data_utils.py:56 | over at least one metric, the mean times the number of metrics is the summed conversion rate |
| DataUtils.CustomerIds | utils/data_utils.py:57 | the set of customer ids over the rows, whose size is `n_unique()` |
| DataUtils.CustomerIdsBound | utils/data_utils.py:57 | the distinct customer ids are no more than the rows, and at least one when there are rows |
| DataUtils.TopKey | utils/data_utils.py:59-60 | "N/A" for no completed rows; otherwise a value present whose summed completed amount is no smaller than any other value's |
| DataUtils.TopOfRankedIsMaximal | utils/data_utils.py:59-60 | the first of the ranked groups carries a key with the largest summed amount among all keys present |
| DataUtils.AverageOrderValue | utils/data_utils.py:49 | the mean order value is 0 when nothing is completed |
| DataUtils.AverageTimesOrders | utils/data_utils.py:49 | with completed rows, the mean order value times their count is their revenue |
| DataUtils.RefundRate | utils/data_utils.py:51 | the refund rate is 0 when completed revenue is not positive |
| DataUtils.RefundRateShare | utils/data_utils.py:51 | over a positive completed revenue, refund rate times that revenue is 100 times the refunded amount (the refunded share in percent) |
| DataUtils.GetSummary | utils/data_utils.py:40-71 | `totalRevenue` is the sum over rows whose lowercased status is "completed"; `averageOrderValue` is their mean order value; `refundRate` is their refund rate; `conversionRate` is the mean over the daily metrics; `totalCustomers` is the number of distinct customer ids over all rows of all statuses (at most the row count, at least 1 for rows present); both top keys are "N/A" when nothing is completed and otherwise have a maximal summed completed amount; the returned join is the daily join of the completed rows |
| DataUtils.Matches | utils/data_utils.py:82 | a group's joined rows are exactly the group paired with each daily metric of the same date |
| DataUtils.MatchesMultiset | utils/data_utils.py:82 | a group joins with each daily metric of its date once per occurrence of that metric, and with no other metric |
| DataUtils.MatchesCount | utils/data_utils.py:82 | a group joins into as many rows as there are daily metrics of its date |
| DataUtils.InnerJoin | utils/data_utils.py:82 | each joined row pairs a group with a metric of the same date, and every such pair is joined |
| DataUtils.InnerJoinMultiset | utils/data_utils.py:82 | the inner join holds each same-date (group, metric) pair as many times as the group occurs times as many times as the metric occurs, and no other row |
| DataUtils.InnerJoinCount | utils/data_utils.py:82 | groups with distinct dates join into one row per daily metric whose date has a group |
| DataUtils.GetEnrichedMetrics | utils/data_utils.py:74-86 | each joined row's date has transactions and a daily metric; it carries that date's summed amount and row count (at least 1); every transaction date with a metric appears with every metric of that date; rows are ascending by date; there is one row per daily metric whose date has transactions |
| DataUtils.AscendingStatsOnce | utils/data_utils.py:75-78 | groups with strictly ascending dates each occur once |
| DataUtils.DailyStatsMembers | utils/data_utils.py:75-78 | a group is among the daily groups exactly when its date has rows and it carries that date's sum and count |
| DataUtils.EnrichedMetricsMultiset | utils/data_utils.py:74-86 | the result of `get_enriched_metrics` holds each row of a date with transactions, carrying that date's sum and count, once per occurrence of its daily metric, and no other row |
| DataUtils.NoMatches | utils/data_utils.py:82 | a group with no metric of its date joins into no rows |
| DataUtils.MatchesAtMostOne | utils/data_utils.py:82 | with one metric per date a group joins into at most one row |
| DataUtils.LaterGroupsLaterRows | utils/data_utils.py:80-84 | rows joined from later groups carry later dates than the first group |
| DataUtils.ConcatAscending | utils/data_utils.py:80-84 | rows of one date followed by ascending rows of later dates are ascending, and strictly so if there is at most one of the former |
| DataUtils.MatchesOnDate | utils/data_utils.py:82 | every row a group joins into carries the group's date |
| DataUtils.JoinAscending | utils/data_utils.py:80-84 | the join of date-ascending groups is sorted by date |
| DataUtils.JoinStrictlyAscending | utils/data_utils.py:80-84 | with one metric per date, the join has at most one row per date, strictly ascending |
| DataUtils.JoinDates | utils/data_utils.py:80-84 | the date column of the joined rows, position by position |
| DataUtils.OrdersTotalCounts | utils/data_utils.py:75-84 | when each joined row of a distinct date counts the rows of its date, the counts add up to the number of rows on the joined dates |
| DataUtils.JoinDatesAreMetricDates | utils/data_utils.py:74-86 | a row's date is a date of the join exactly when some daily metric carries it |
| DataUtils.OrdersTotalOfJoin | utils/data_utils.py:74-86 | with one metric per date, `orders_filtered` sums to the number of rows whose date has a metric, so never more than the rows |
| DataUtils.SummaryJoinOrders | utils/data_utils.py:64-69 | with one metric per date, the completed-only join's orders are at most the completed rows, hence at most the rows |
| DataUtils.DuplicateMetricDatesRepeatCounts | utils/data_utils.py:74-86 | two daily metrics on one date make the join repeat that date's count: one row and two metrics give two orders |
| DataUtils.CompletedJoinWithinAllStatusJoin | utils/data_utils.py:64-69 | every row of the completed-only join has a row of the same date and metric in the all-status join, with at least as many orders |
| DataUtils.CompletedCountBound | utils/data_utils.py:41 | a day has no more completed rows than rows |
| UiComponents.SizeOptions | utils/ui_components.py:191 | the "Rows per page" options 20, 50, 100 and "Unlimited", the first being the default |
| UiComponents.LargeDatasetRows | utils/ui_components.py:195 | the 10000-row threshold above which "Unlimited" warns |
| UiComponents.TotalPages | utils/ui_components.py:200 | `max(1, (total_rows - 1) // page_size + 1)` is at least 1, is 1 for no rows, and for rows present is the p with `(p - 1) * page_size < total_rows <= p * page_size` |
| UiComponents.TotalPagesIsCeiling | utils/ui_components.py:200 | for rows present, no fewer pages can hold every row: the page count is `ceil(total_rows / page_size)` |
| UiComponents.Slice | utils/ui_components.py:206 | `slice(offset, length)` is the rows from offset on, at most length of them, and none past the end |
| UiComponents.PageStart | utils/ui_components.py:205 | `start_idx = (current_page - 1) * page_size`, 0 on the first page |
| UiComponents.RenderPagedTable | utils/ui_components.py:184-213 | no table exactly when there are no rows; "Unlimited" shows every row unchanged with no info line, and warns exactly above 10000 rows; a page size shows the rows from `start_idx = (page - 1) * page_size` on, `min(page_size, total_rows - start_idx)` of them, with `start_idx < total_rows` and an info line `a = start_idx + 1`, `b`, `n = total_rows` where `1 <= a <= b <= n` and `b - a + 1` is the number of rows shown |
| UiComponents.DefaultViewShowsFirstRows | utils/ui_components.py:191-209 | with the first size option (20) on page 1, the table shows the first 20 rows, or all when fewer, with "Showing 1 to min(20, n) of n" and no warning |
| UiComponents.StartWithinRows | utils/ui_components.py:203-205 | every page the page widget offers starts at a row that exists |
| UiComponents.PageOfRow | utils/ui_components.py:200-206 | every row is shown on some offered page: row i on page `i // page_size + 1` at position `i % page_size` |
| UiComponents.PeriodOptions | utils/ui_components.py:99 | the "Select Period" options, in order: All Time, Last 7 Days, Last 30 Days, Last 90 Days, Custom Range |
| UiComponents.Lookback | utils/ui_components.py:104-109 | exactly the "Last 7/30/90 Days" presets reach back from the end date |
| UiComponents.PresetRange | utils/ui_components.py:102-113 | "All Time" selects `(min_date, max_date)`; "Last N Days" selects `(max_date - N, max_date)` for N in 7, 30, 90; "Custom Range" selects the two date inputs |
| UiComponents.PresetsEndAtMaxDate | utils/ui_components.py:102-109 | every preset ends at the dataset's end date, and a "Last N Days" window spans N + 1 days, both ends included |
| UiComponents.DefaultSegments | utils/ui_components.py:128 | the fallback segments "Enterprise", "SMB", "Individual" |
| UiComponents.SegmentOptions | utils/ui_components.py:128-133 | the segment options are "All" followed by the configured segments, or by "Enterprise", "SMB", "Individual" when the configuration has no `availableSegments` field (a configured empty list gives only "All") |
| UiComponents.DefaultChoices | utils/ui_components.py:97-133 | the widgets' initial values: the first period ("All Time"), every available region and category, segment index 0; they select the dataset's whole date range and the segment "All" |
| UiComponents.RenderFilters | utils/ui_components.py:89-141 | the returned filters carry the chosen period's range, the chosen regions and categories, and the segment option at the radio's index |
| UiComponents.DefaultFiltersKeep | utils/ui_components.py:97-133 | with the widgets' initial values (All Time, every region and category, segment index 0) the segment is "All", and a row is kept exactly when it lies within the dataset's dates and has an available region and category |
| UiComponents.LookbackKeepsRecentRows | utils/ui_components.py:104-109 | under a "Last N Days" preset every kept row is at most N days before the dataset's last day and not after it |
| UiComponents.PointsOf | utils/ui_components.py:32 | one point per daily group: its date and its summed amount |
| UiComponents.PointsAmountOf | utils/ui_components.py:32 | the points' amounts add up to the groups' revenues |
| UiComponents.PointsAscending | utils/ui_components.py:32 | the line's points are strictly ascending by date |
| UiComponents.PointsSums | utils/ui_components.py:32 | each point is a date of the rows with that date's summed amount |
| UiComponents.PointsCoverRows | utils/ui_components.py:32 | every row's date has a point |
| UiComponents.LineChart | utils/ui_components.py:30-33 | no figure exactly for no rows; otherwise one point per date present, strictly ascending by date, each with its date's summed amount, and every row's date has a point |
| UiComponents.LineChartTotal | utils/ui_components.py:30-33 | the line's points add up to the total amount |
| UiComponents.PieChart | utils/ui_components.py:36-39 | no figure exactly for no rows; otherwise one slice per category present, no category twice, each with its summed amount, and the slices add up to the total |
| UiComponents.BarChart | utils/ui_components.py:42-48 | no figure exactly for no rows; otherwise one bar per region present, no region twice, sorted by descending sum, each with its summed amount, and the bars add up to the total |
| UiComponents.BarChartLeadsWithTopRegion | utils/ui_components.py:42-48 | the first bar is a region with the largest summed amount |

## Left out

- `utils/export_utils.py` is not part of this model. It is an HTML and JavaScript template. Its refund rate in JavaScript is a ratio of counts, not the revenue ratio of `get_summary`.
- `data_manager.py` is not part of this model. It loads JSON files, builds records and parses date strings. Dates here are already ordinal day numbers.
- The wiring in `app.py` is not part of this model. The app shows the all-status join of `get_enriched_metrics` in the "Daily Stats History" paged table (app.py:27, app.py:61, utils/ui_components.py:179-181). It builds the charts from the filtered transactions (app.py:57) and discards the completed-only join that `get_summary` returns (app.py:28). The model keeps the two joins apart and relates them in `DataUtils.CompletedJoinWithinAllStatusJoin`.
- Streamlit widgets, Plotly figures and `st.cache_data` are not modelled. Caching only memoises. Each chart function returns the aggregated data the figure is built from.
- Number and string formatting is not modelled. This covers the `+.1f` trend label and the summary table's formatting loop in `Tables.render` (utils/ui_components.py:161-171). The trend is the datatype `Zero | NA | Pct(percent)`.
- Floating point is not modelled. Amounts and rates are exact reals, so IEEE rounding and a float mean are not captured.
- `DataUtils.ToLower` lowercases ASCII letters only. Unicode case mapping is not modelled.
- The `"customer" in df.columns` test (utils/data_utils.py:57) is not modelled. The schema is fixed, and every row carries a customer, so `totalCustomers` is always the distinct count.
- The `hasattr` fallback for segments (utils/ui_components.py:128) is modelled as an optional field of the configuration. In this program the fallback cannot fire: `availableSegments` is a required field of the `Filters` dataclass (models.py:81), and the configuration is built with dacite's `from_dict` (data_manager.py:15), which fails when a field is missing. So the model's `None` case (`UiComponents.SegmentOptions` with `DefaultSegments`) describes code that is unreachable here.
- `process_and_filter` returns its frame with an extra top-level `segment` column copied from `customer.segment` (utils/data_utils.py:9-11). The model returns the transactions unchanged, and reads the segment from the customer.
- A transaction carries only id, date, amount, category, region, customer and status. The model drops `timestamp`, `product`, `productId`, `paymentMethod` and the customer's `lifetimeValue` (models.py:39-57), which no modelled function reads.
- Only date and conversion rate of a daily metric are modelled. The other fields of `models.py` DailyMetric only ride along through the join.
- Polars output order is not modelled in three places:
  - Group order from `group_by` is unspecified. The model lists groups in an order of its own, which is date order for the date groups.
  - `GetTrend`: polars' `sort("date")` is not stable, and the model uses one stable sort. When rows tie on a date across the midpoint, which of them falls in each half (and so the percentage) is that of the model's order. The contract states only sizes, sortedness, multiset and sums.
  - `TopKey`: polars does not specify tie-breaking between equal sums, so the contract states only that the key is some key with a maximal sum.
- `DataUtils.OrdersTotalOfJoin`, `DataUtils.SummaryJoinOrders`, `DataUtils.JoinStrictlyAscending`: these require one daily metric per date. With repeated metric dates the join repeats a date's count. `DataUtils.DuplicateMetricDatesRepeatCounts` shows an example.
- `UiComponents.RenderPagedTable`: the page number must lie within the widget's bounds, 1 to the page count, which the page widget itself enforces.
- `UiComponents.RenderFilters`: the segment index must be one of the offered options, which the radio widget enforces.
- The type checks of widget values (`int(selected_size)`, date inputs) are not modelled. Values are typed.
