/** The arithmetic inside the dashboard's UI helpers (utils/ui_components.py):
    the paged table, the filter panel's presets and options, and the
    aggregations behind the three charts. Widgets and figures are left out;
    what a user picks in a widget is a parameter. */
module UiComponents {
  import opened Records
  import opened Aggregates
  import opened DataUtils

  // ---------------------------------------------------------------------
  // Tables._render_paged_table
  // ---------------------------------------------------------------------

  /** A "Rows per page" choice. */
  datatype PageSize = Rows(count: nat) | Unlimited

  /** The choices offered, the first being the default. */
  const SizeOptions: seq<PageSize> := [Rows(20), Rows(50), Rows(100), Unlimited]

  /** The smaller of two counts, as in `min(start_idx + page_size, total_rows)`. */
  function Min(a: int, b: int): int { if a <= b then a else b }

  /** Above this many rows "Unlimited" shows a warning. */
  const LargeDatasetRows: nat := 10000

  /** `max(1, (total_rows - 1) // page_size + 1)`. */
  function TotalPages(totalRows: nat, pageSize: nat): (p: nat)
    requires pageSize > 0
    ensures p >= 1
    ensures totalRows == 0 ==> p == 1
    ensures totalRows > 0 ==> (p - 1) * pageSize < totalRows <= p * pageSize
  {
    var q := (totalRows - 1) / pageSize + 1;
    if q > 1 then q else 1
  }

  /** For rows present, the page count is the least number of pages that
      holds them all: `ceil(total_rows / page_size)`. */
  lemma TotalPagesIsCeiling(totalRows: nat, pageSize: nat, k: nat)
    requires pageSize > 0 && totalRows > 0
    requires k * pageSize >= totalRows
    ensures TotalPages(totalRows, pageSize) <= k
  {
    var p := TotalPages(totalRows, pageSize);
    if k < p {
      MulMonotone(k, p - 1, pageSize);
    }
  }

  lemma MulMonotone(a: nat, b: nat, c: nat)
    requires a <= b
    ensures a * c <= b * c
  {
  }

  /** `DataFrame.slice(offset, length)`: up to `length` rows from `offset`. */
  function Slice<T>(s: seq<T>, offset: nat, length: nat): (r: seq<T>)
    ensures |r| == if offset >= |s| then 0 else Min(length, |s| - offset)
    ensures forall i :: 0 <= i < |r| ==> r[i] == s[offset + i]
  {
    if offset >= |s| then [] else s[offset .. offset + Min(length, |s| - offset)]
  }

  /** `start_idx = (current_page - 1) * page_size`. */
  function PageStart(page: nat, pageSize: nat): (start: nat)
    requires page >= 1
    ensures page == 1 ==> start == 0
  {
    (page - 1) * pageSize
  }

  /** The "Showing a to b of n" line. */
  datatype Info = Info(first: int, last: int, total: nat)

  /** What the table area shows: the no-data warning, or a table with its
      rows, the info line (paged only) and the large-dataset warning. */
  datatype TableView<T> = NoData | Table(shown: seq<T>, info: Option<Info>, largeWarning: bool)

  /** `_render_paged_table`, for the chosen page size and page number (the
      page widget only offers 1 to the page count). */
  function RenderPagedTable<T>(rows: seq<T>, size: PageSize, page: nat): (v: TableView<T>)
    requires size.Rows? ==> size.count > 0
    requires size.Rows? && |rows| > 0 ==> 1 <= page <= TotalPages(|rows|, size.count)
    ensures v.NoData? <==> |rows| == 0
    ensures size.Unlimited? && |rows| > 0 ==>
      v.shown == rows && v.info.None? && (v.largeWarning <==> |rows| > LargeDatasetRows)
    ensures size.Rows? && |rows| > 0 ==>
      var start := PageStart(page, size.count);
      && start < |rows|
      && |v.shown| == Min(size.count, |rows| - start)
      && (forall i :: 0 <= i < |v.shown| ==> v.shown[i] == rows[start + i])
      && !v.largeWarning
      && v.info.Some?
      && 1 <= v.info.value.first <= v.info.value.last <= v.info.value.total == |rows|
      && v.info.value.first == start + 1
      && v.info.value.last - v.info.value.first + 1 == |v.shown|
  {
    var totalRows := |rows|;
    if totalRows > 0 then
      if size.Unlimited? then
        Table(rows, None, totalRows > LargeDatasetRows)
      else
        var pageSize := size.count;
        var startIdx := PageStart(page, pageSize);
        StartWithinRows(totalRows, pageSize, page);
        Table(Slice(rows, startIdx, pageSize),
              Some(Info(startIdx + 1, Min(startIdx + pageSize, totalRows), totalRows)),
              false)
    else
      NoData
  }

  /** With the initial choices, the first size option on page 1, the table
      shows the first 20 rows (all of them when fewer) and says so. */
  lemma DefaultViewShowsFirstRows<T>(rows: seq<T>)
    requires |rows| > 0
    ensures var v := RenderPagedTable(rows, SizeOptions[0], 1);
      && v.shown == rows[..Min(20, |rows|)]
      && v.info == Some(Info(1, Min(20, |rows|), |rows|))
      && !v.largeWarning
  {
    var v := RenderPagedTable(rows, SizeOptions[0], 1);
    assert SizeOptions[0] == Rows(20);
    assert v.shown == rows[..Min(20, |rows|)];
  }

  /** A page the widget offers starts at a row that exists. */
  lemma StartWithinRows(totalRows: nat, pageSize: nat, page: nat)
    requires pageSize > 0 && totalRows > 0
    requires 1 <= page <= TotalPages(totalRows, pageSize)
    ensures PageStart(page, pageSize) < totalRows
  {
    MulMonotone(page - 1, TotalPages(totalRows, pageSize) - 1, pageSize);
  }

  /** Every row is reachable: row `i` is shown on page `i / page_size + 1`,
      at position `i % page_size`. */
  lemma PageOfRow<T>(rows: seq<T>, pageSize: nat, i: nat)
    requires pageSize > 0 && i < |rows|
    ensures 1 <= i / pageSize + 1 <= TotalPages(|rows|, pageSize)
    ensures var v := RenderPagedTable(rows, Rows(pageSize), i / pageSize + 1);
      i % pageSize < |v.shown| && v.shown[i % pageSize] == rows[i]
  {
    var p := TotalPages(|rows|, pageSize);
    var q := i / pageSize;
    assert q * pageSize + i % pageSize == i;
    if q + 1 > p {
      MulMonotone(p, q, pageSize);
    }
    assert PageStart(q + 1, pageSize) == q * pageSize;
  }

  // ---------------------------------------------------------------------
  // FilterPanel.render
  // ---------------------------------------------------------------------

  /** The "Select Period" choices. */
  datatype Period = AllTime | Last7Days | Last30Days | Last90Days | CustomRange

  const PeriodOptions: seq<Period> := [AllTime, Last7Days, Last30Days, Last90Days, CustomRange]

  /** How far back a "Last N Days" preset reaches from the dataset end. */
  function Lookback(p: Period): (n: Option<nat>)
    ensures n.Some? <==> p in {Last7Days, Last30Days, Last90Days}
  {
    match p
    case Last7Days => Some(7)
    case Last30Days => Some(30)
    case Last90Days => Some(90)
    case _ => None
  }

  /** The (start, end) dates a period selects; `customFrom`/`customTo` are the
      two date inputs of "Custom Range", which start at the dataset bounds. */
  function PresetRange(p: Period, minDate: int, maxDate: int, customFrom: int, customTo: int): (r: (int, int))
    ensures p == AllTime ==> r == (minDate, maxDate)
    ensures Lookback(p).Some? ==> r == (maxDate - Lookback(p).value, maxDate)
    ensures p == CustomRange ==> r == (customFrom, customTo)
  {
    match p
    case AllTime => (minDate, maxDate)
    case Last7Days => (maxDate - 7, maxDate)
    case Last30Days => (maxDate - 30, maxDate)
    case Last90Days => (maxDate - 90, maxDate)
    case CustomRange => (customFrom, customTo)
  }

  /** Every preset ends at the dataset end date, and a "Last N Days" window
      covers N + 1 calendar days, both ends included. */
  lemma PresetsEndAtMaxDate(p: Period, minDate: int, maxDate: int, customFrom: int, customTo: int)
    requires p != CustomRange
    ensures PresetRange(p, minDate, maxDate, customFrom, customTo).1 == maxDate
    ensures Lookback(p).Some? ==>
      var r := PresetRange(p, minDate, maxDate, customFrom, customTo);
      r.1 - r.0 + 1 == Lookback(p).value + 1
  {
  }

  /** The filter configuration of the dataset; `availableSegments` may be
      absent. */
  datatype FilterConfig = FilterConfig(
    availableRegions: seq<string>,
    availableCategories: seq<string>,
    availableSegments: Option<seq<string>>)

  const DefaultSegments: seq<string> := ["Enterprise", "SMB", "Individual"]

  /** The "Select Segment" options: "All" first, then the configured segments
      or, when the configuration has no such field, the default three. */
  function SegmentOptions(cfg: FilterConfig): (opts: seq<string>)
    ensures |opts| >= 1 && opts[0] == AllSegments
    ensures cfg.availableSegments.Some? ==> opts[1..] == cfg.availableSegments.value
    ensures cfg.availableSegments.None? ==> opts[1..] == DefaultSegments
  {
    var available := if cfg.availableSegments.Some? then cfg.availableSegments.value else DefaultSegments;
    [AllSegments] + available
  }

  /** What the user picked in the sidebar: the period, the custom dates, the
      region and category selections, and the index of the segment radio. */
  datatype Choices = Choices(
    period: Period,
    customFrom: int,
    customTo: int,
    regions: seq<string>,
    categories: seq<string>,
    segmentIndex: nat)

  /** The widgets' initial values: the first period ("All Time"), the custom
      inputs at the dataset bounds, every region and category, and the first
      segment option. They select the dataset's whole date range and "All". */
  function DefaultChoices(cfg: FilterConfig, minDate: int, maxDate: int): (c: Choices)
    ensures c.segmentIndex < |SegmentOptions(cfg)| && SegmentOptions(cfg)[c.segmentIndex] == AllSegments
    ensures PresetRange(c.period, minDate, maxDate, c.customFrom, c.customTo) == (minDate, maxDate)
    ensures c.regions == cfg.availableRegions && c.categories == cfg.availableCategories
    ensures c.period == PeriodOptions[0] == AllTime && c.segmentIndex == 0
  {
    Choices(PeriodOptions[0], minDate, maxDate, cfg.availableRegions, cfg.availableCategories, 0)
  }

  /** `FilterPanel.render`: the filter record built from the choices. */
  function RenderFilters(cfg: FilterConfig, minDate: int, maxDate: int, c: Choices): (f: Filters)
    requires c.segmentIndex < |SegmentOptions(cfg)|
    ensures (f.startDate, f.endDate) == PresetRange(c.period, minDate, maxDate, c.customFrom, c.customTo)
    ensures f.selectedRegions == c.regions && f.selectedCategories == c.categories
    ensures f.selectedSegment in SegmentOptions(cfg)
    ensures f.selectedSegment == SegmentOptions(cfg)[c.segmentIndex]
  {
    var range := PresetRange(c.period, minDate, maxDate, c.customFrom, c.customTo);
    Filters(range.0, range.1, c.regions, c.categories, SegmentOptions(cfg)[c.segmentIndex])
  }

  /** With the initial choices the panel filters on nothing but the dataset's
      own bounds: a row is kept exactly when its date lies between the
      dataset's first and last day and its region and category are available;
      the segment plays no role. */
  lemma DefaultFiltersKeep(txns: seq<Txn>, cfg: FilterConfig, minDate: int, maxDate: int)
    ensures var f := RenderFilters(cfg, minDate, maxDate, DefaultChoices(cfg, minDate, maxDate));
      && f.selectedSegment == AllSegments
      && ProcessAndFilter(txns, f) == Filter(txns, (t: Txn) =>
           minDate <= t.date <= maxDate && t.region in cfg.availableRegions && t.category in cfg.availableCategories)
  {
    var f := RenderFilters(cfg, minDate, maxDate, DefaultChoices(cfg, minDate, maxDate));
    ProcessAndFilterIsOnePass(txns, f);
    FilterCongruent(txns, KeptBy(f), (t: Txn) =>
      minDate <= t.date <= maxDate && t.region in cfg.availableRegions && t.category in cfg.availableCategories);
  }

  /** A "Last N Days" preset keeps only rows at most N days before the
      dataset's last day, and none after it. */
  lemma LookbackKeepsRecentRows(txns: seq<Txn>, cfg: FilterConfig, minDate: int, maxDate: int, c: Choices)
    requires c.segmentIndex < |SegmentOptions(cfg)|
    requires Lookback(c.period).Some?
    ensures forall t :: t in ProcessAndFilter(txns, RenderFilters(cfg, minDate, maxDate, c)) ==>
      maxDate - Lookback(c.period).value <= t.date <= maxDate
  {
  }

  // ---------------------------------------------------------------------
  // ChartComponents.line_ch / pie_ch / bar_ch
  // ---------------------------------------------------------------------

  /** One point of the revenue line: a date and its summed amount. */
  datatype DatePoint = DatePoint(date: int, amount: real)

  function PointsOf(ss: seq<DailyStat>): (r: seq<DatePoint>)
    ensures |r| == |ss|
    ensures forall i :: 0 <= i < |r| ==> r[i] == DatePoint(ss[i].date, ss[i].revenueFiltered)
  {
    if ss == [] then [] else [DatePoint(ss[0].date, ss[0].revenueFiltered)] + PointsOf(ss[1..])
  }

  function PointsAmount(ps: seq<DatePoint>): real
  {
    if ps == [] then 0.0 else ps[0].amount + PointsAmount(ps[1..])
  }

  lemma {:induction false} PointsAmountOf(ss: seq<DailyStat>)
    ensures PointsAmount(PointsOf(ss)) == DailyRevenue(ss)
  {
    if ss != [] {
      PointsAmountOf(ss[1..]);
    }
  }

  /** The points of the daily groups are strictly ascending by date. */
  lemma PointsAscending(data: seq<Txn>)
    ensures var ps := PointsOf(DailyStats(data));
      forall i, j :: 0 <= i < j < |ps| ==> ps[i].date < ps[j].date
  {
    var stats := DailyStats(data);
    var ps := PointsOf(stats);
    forall i, j | 0 <= i < j < |ps|
      ensures ps[i].date < ps[j].date
    {
      assert ps[i].date == stats[i].date && ps[j].date == stats[j].date;
    }
  }

  /** Each point is a date of the rows with that date's summed amount. */
  lemma PointsSums(data: seq<Txn>)
    ensures var ps := PointsOf(DailyStats(data));
      forall i :: 0 <= i < |ps| ==> HasDate(data, ps[i].date) && ps[i].amount == SumOnDate(data, ps[i].date)
  {
    var stats := DailyStats(data);
    var ps := PointsOf(stats);
    forall i | 0 <= i < |ps|
      ensures HasDate(data, ps[i].date) && ps[i].amount == SumOnDate(data, ps[i].date)
    {
      assert stats[i] in stats;
    }
  }

  /** Some point is on day `d`. */
  predicate HasPoint(ps: seq<DatePoint>, d: int)
  {
    exists i :: 0 <= i < |ps| && ps[i].date == d
  }

  /** Every row's date has a point. */
  lemma PointsCoverRows(data: seq<Txn>)
    ensures var ps := PointsOf(DailyStats(data));
      forall t :: t in data ==> HasPoint(ps, t.date)
  {
    var stats := DailyStats(data);
    var ps := PointsOf(stats);
    forall t | t in data
      ensures HasPoint(ps, t.date)
    {
      assert t.date in StatDates(stats);
      var i :| 0 <= i < |stats| && StatDates(stats)[i] == t.date;
      assert ps[i].date == t.date;
    }
  }

  /** `line_ch`: no figure for no rows; otherwise one point per date present,
      ascending by date, with that date's summed amount. */
  function LineChart(data: seq<Txn>): (r: Option<seq<DatePoint>>)
    ensures r.None? <==> data == []
    ensures r.Some? ==>
      && (forall i, j :: 0 <= i < j < |r.value| ==> r.value[i].date < r.value[j].date)
      && (forall i :: 0 <= i < |r.value| ==>
            HasDate(data, r.value[i].date) && r.value[i].amount == SumOnDate(data, r.value[i].date))
      && (forall t :: t in data ==> HasPoint(r.value, t.date))
  {
    if data == [] then None
    else
      PointsAscending(data);
      PointsSums(data);
      PointsCoverRows(data);
      Some(PointsOf(DailyStats(data)))
  }

  /** The line's points add up to the total amount. */
  lemma LineChartTotal(data: seq<Txn>)
    requires data != []
    ensures PointsAmount(LineChart(data).value) == Sum(data)
  {
    PointsAmountOf(DailyStats(data));
    DailyStatsTotals(data);
  }

  /** `pie_ch`: no figure for no rows; otherwise one slice per category present
      with its summed amount. */
  function PieChart(data: seq<Txn>): (r: Option<seq<GroupTotal>>)
    ensures r.None? <==> data == []
    ensures r.Some? ==>
      && UniqueKeys(r.value)
      && GroupKeys(r.value) == KeysIn(data, Category)
      && (forall g :: g in r.value ==> g.amount == GroupSum(data, Category, g.key))
      && GroupAmount(r.value) == Sum(data)
  {
    if data == [] then None
    else
      GroupTotalsSum(data, Category);
      Some(GroupTotals(data, Category))
  }

  /** `bar_ch`: no figure for no rows; otherwise one bar per region present with
      its summed amount, largest first. */
  function BarChart(data: seq<Txn>): (r: Option<seq<GroupTotal>>)
    ensures r.None? <==> data == []
    ensures r.Some? ==>
      && SortedDescending(r.value)
      && UniqueKeys(r.value)
      && GroupKeys(r.value) == KeysIn(data, Region)
      && (forall g :: g in r.value ==> g.amount == GroupSum(data, Region, g.key))
      && GroupAmount(r.value) == Sum(data)
  {
    if data == [] then None
    else
      RankedGroupsSum(data, Region);
      Some(RankedGroups(data, Region))
  }

  /** The first bar is the top region of those rows. */
  lemma BarChartLeadsWithTopRegion(data: seq<Txn>)
    requires data != []
    ensures BarChart(data).value != []
    ensures IsTopKey(data, Region, BarChart(data).value[0].key)
  {
    assert data[0] in data;
    GroupKeysMembership(BarChart(data).value);
    TopOfRankedIsMaximal(data, Region, RankedGroups(data, Region));
  }
}
