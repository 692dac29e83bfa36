/** The dashboard pipeline of utils/data_utils.py: the filter applied to the
    transactions, the trend label, the KPI summary, and the per-day join of
    filtered transaction aggregates with the dataset's daily metrics. */
module DataUtils {
  import opened Records
  import opened Aggregates

  // ---------------------------------------------------------------------
  // process_and_filter
  // ---------------------------------------------------------------------

  /** The selection the filter panel hands to the pipeline. */
  datatype Filters = Filters(
    startDate: int,
    endDate: int,
    selectedRegions: seq<string>,
    selectedCategories: seq<string>,
    selectedSegment: string)

  /** The segment value that switches the segment filter off. */
  const AllSegments := "All"

  /** First filter pass: date range, region and category membership; with
      the segment test it is the whole condition. */
  function InRangeAndSelected(f: Filters): (p: Txn -> bool)
    ensures forall t ::
      (p(t) && (f.selectedSegment == AllSegments || t.customer.segment == f.selectedSegment)) <==> Kept(f, t)
  {
    (t: Txn) =>
      f.startDate <= t.date && t.date <= f.endDate &&
      t.region in f.selectedRegions && t.category in f.selectedCategories
  }

  /** Second filter pass: the customer's segment. */
  function InSegment(segment: string): Txn -> bool
  {
    (t: Txn) => t.customer.segment == segment
  }

  /** The whole condition a transaction must meet to be kept. */
  predicate Kept(f: Filters, t: Txn)
  {
    && f.startDate <= t.date <= f.endDate
    && t.region in f.selectedRegions
    && t.category in f.selectedCategories
    && (f.selectedSegment == AllSegments || t.customer.segment == f.selectedSegment)
  }

  function KeptBy(f: Filters): Txn -> bool
  {
    (t: Txn) => Kept(f, t)
  }

  /** `process_and_filter`: the range/region/category filter, then, unless the
      segment is "All", the segment filter. */
  function ProcessAndFilter(txns: seq<Txn>, f: Filters): (r: seq<Txn>)
    ensures |r| <= |txns|
    ensures forall t :: t in r ==> t in txns && Kept(f, t)
  {
    var df := Filter(txns, InRangeAndSelected(f));
    if f.selectedSegment != AllSegments then Filter(df, InSegment(f.selectedSegment)) else df
  }

  /** The two passes amount to one filter by `Kept`. */
  lemma ProcessAndFilterIsOnePass(txns: seq<Txn>, f: Filters)
    ensures ProcessAndFilter(txns, f) == Filter(txns, KeptBy(f))
  {
    if f.selectedSegment != AllSegments {
      FilterFilter(txns, InRangeAndSelected(f), InSegment(f.selectedSegment));
      FilterCongruent(txns, Both(InRangeAndSelected(f), InSegment(f.selectedSegment)), KeptBy(f));
    } else {
      FilterCongruent(txns, InRangeAndSelected(f), KeptBy(f));
    }
  }

  /** The filter result is exactly the order-preserving subsequence of the input
      holding every kept row (with its multiplicity) and no other row. */
  lemma ProcessAndFilterCharacterised(txns: seq<Txn>, f: Filters, r: seq<Txn>)
    ensures r == ProcessAndFilter(txns, f) <==>
      && IsSubsequence(r, txns)
      && (forall t :: t in r ==> Kept(f, t))
      && (forall t :: Kept(f, t) ==> multiset(r)[t] == multiset(txns)[t])
  {
    ProcessAndFilterIsOnePass(txns, f);
    FilterIsSubsequence(txns, KeptBy(f));
    FilterMultiset(txns, KeptBy(f));
    if && IsSubsequence(r, txns)
       && (forall t :: t in r ==> Kept(f, t))
       && (forall t :: Kept(f, t) ==> multiset(r)[t] == multiset(txns)[t])
    {
      FilterUnique(txns, KeptBy(f), r);
    }
  }

  /** An inverted date range keeps nothing. */
  lemma InvertedRangeKeepsNothing(txns: seq<Txn>, f: Filters)
    requires f.startDate > f.endDate
    ensures ProcessAndFilter(txns, f) == []
  {
    ProcessAndFilterIsOnePass(txns, f);
    FilterNone(txns, KeptBy(f));
  }

  /** Applying the same filter again changes nothing. */
  lemma ProcessAndFilterIdempotent(txns: seq<Txn>, f: Filters)
    ensures ProcessAndFilter(ProcessAndFilter(txns, f), f) == ProcessAndFilter(txns, f)
  {
    var r := ProcessAndFilter(txns, f);
    ProcessAndFilterIsOnePass(txns, f);
    ProcessAndFilterIsOnePass(r, f);
    FilterFilter(txns, KeptBy(f), KeptBy(f));
    FilterCongruent(txns, Both(KeptBy(f), KeptBy(f)), KeptBy(f));
  }

  /** Every row with its customer's segment replaced by `s`. */
  function Resegment(txns: seq<Txn>, s: string): (r: seq<Txn>)
    ensures |r| == |txns|
    ensures forall i :: 0 <= i < |r| ==>
      r[i] == txns[i].(customer := txns[i].customer.(segment := s))
  {
    if txns == [] then []
    else [txns[0].(customer := txns[0].customer.(segment := s))] + Resegment(txns[1..], s)
  }

  /** With segment "All" the customers' segments play no role: relabelling
      every segment before filtering gives the same rows as relabelling after. */
  lemma {:induction false} AllSegmentsIgnoresSegment(txns: seq<Txn>, f: Filters, s: string)
    requires f.selectedSegment == AllSegments
    ensures ProcessAndFilter(Resegment(txns, s), f) == Resegment(ProcessAndFilter(txns, f), s)
  {
    if txns != [] {
      AllSegmentsIgnoresSegment(txns[1..], f, s);
      assert Resegment(txns, s)[1..] == Resegment(txns[1..], s);
      if InRangeAndSelected(f)(txns[0]) {
        assert ProcessAndFilter(txns, f) == [txns[0]] + ProcessAndFilter(txns[1..], f);
        assert Resegment([txns[0]] + ProcessAndFilter(txns[1..], f), s)[1..]
            == Resegment(ProcessAndFilter(txns[1..], f), s);
      }
    }
  }

  // ---------------------------------------------------------------------
  // get_trend
  // ---------------------------------------------------------------------

  /** The trend label: "0%", "N/A", or a signed percentage. */
  datatype Trend = Zero | NA | Pct(percent: real)

  /** The date-sorted rows split at n/2: `head(mid)` and `tail(n - mid)`. */
  function TrendHalves(df: seq<Txn>): (h: (seq<Txn>, seq<Txn>))
    ensures |h.0| == |df| / 2 && |h.1| == |df| - |df| / 2
    ensures SortedByDate(h.0 + h.1)
    ensures multiset(h.0 + h.1) == multiset(df)
    ensures Sum(h.0) + Sum(h.1) == Sum(df)
  {
    var s := SortByDate(df);
    SortByDateSum(df);
    var mid := |s| / 2;
    assert s == s[..mid] + s[mid..];
    SumConcat(s[..mid], s[mid..]);
    (s[..mid], s[mid..])
  }

  /** No row of the first half is later than a row of the second half. */
  lemma HalvesAreChronological(df: seq<Txn>)
    ensures forall a, b :: a in TrendHalves(df).0 && b in TrendHalves(df).1 ==> a.date <= b.date
  {
    var h := TrendHalves(df);
    var s := h.0 + h.1;
    SortedByDateOrdered(s);
    forall a, b | a in h.0 && b in h.1
      ensures a.date <= b.date
    {
      var i :| 0 <= i < |h.0| && h.0[i] == a;
      var j :| 0 <= j < |h.1| && h.1[j] == b;
      assert s[i] == a && s[|h.0| + j] == b;
    }
  }

  /** `get_trend`. */
  function GetTrend(df: seq<Txn>): (r: Trend)
    ensures r == Zero <==> |df| < 2
    ensures r == NA <==> |df| >= 2 && Sum(TrendHalves(df).0) <= 0.0
    ensures r.Pct? ==>
      Sum(TrendHalves(df).0) > 0.0 && r.percent == PercentChange(Sum(TrendHalves(df).0), Sum(TrendHalves(df).1))
  {
    if |df| < 2 then Zero
    else
      var h := TrendHalves(df);
      var first, second := Sum(h.0), Sum(h.1);
      if first > 0.0 then Pct(PercentChange(first, second)) else NA
  }

  /** The change from `a` to `b` in percent of `a`: times the base it is
      100 times the difference. */
  function PercentChange(a: real, b: real): (p: real)
    requires a > 0.0
    ensures p * a == (b - a) * 100.0
  {
    var q := (b - a) / a;
    QuotientTimesDivisor(b - a, a);
    assert q * 100.0 * a == q * a * 100.0;
    q * 100.0
  }

  /** The sign of a relative change `(b - a) / a * 100` over a positive base
      is the sign of `b - a`. */
  lemma RelativeChangeSign(a: real, b: real)
    requires a > 0.0
    ensures PercentChange(a, b) > 0.0 <==> b > a
    ensures PercentChange(a, b) < 0.0 <==> b < a
    ensures PercentChange(a, b) == 0.0 <==> b == a
  {
    var p := PercentChange(a, b);
    if p > 0.0 { assert p * a > 0.0; }
    if p < 0.0 { assert p * a < 0.0; }
    if b > a { assert p * a > 0.0; }
    if b < a { assert p * a < 0.0; }
  }

  /** A percentage trend compares the later half's revenue with the earlier
      half's (which is positive): it is positive exactly when revenue grew,
      negative exactly when it fell, and the halves share out the total. */
  lemma TrendPercentSign(df: seq<Txn>)
    requires GetTrend(df).Pct?
    ensures Sum(TrendHalves(df).0) > 0.0
    ensures Sum(TrendHalves(df).1) == Sum(df) - Sum(TrendHalves(df).0)
    ensures GetTrend(df).percent > 0.0 <==> Sum(TrendHalves(df).1) > Sum(TrendHalves(df).0)
    ensures GetTrend(df).percent < 0.0 <==> Sum(TrendHalves(df).1) < Sum(TrendHalves(df).0)
    ensures GetTrend(df).percent == 0.0 <==> Sum(TrendHalves(df).1) == Sum(TrendHalves(df).0)
  {
    RelativeChangeSign(Sum(TrendHalves(df).0), Sum(TrendHalves(df).1));
  }

  // ---------------------------------------------------------------------
  // get_summary
  // ---------------------------------------------------------------------

  /** `str.to_lowercase` on one character (ASCII letters). */
  function LowerChar(c: char): char
  {
    if 'A' <= c <= 'Z' then (c as int + 32) as char else c
  }

  function UpperChar(c: char): char
  {
    if 'a' <= c <= 'z' then (c as int - 32) as char else c
  }

  /** `str.to_lowercase`. */
  function ToLower(s: string): (r: string)
    ensures |r| == |s|
    ensures forall i :: 0 <= i < |s| ==> r[i] == LowerChar(s[i])
  {
    if s == [] then [] else [LowerChar(s[0])] + ToLower(s[1..])
  }

  predicate IsLowerWord(w: string)
  {
    forall i :: 0 <= i < |w| ==> 'a' <= w[i] <= 'z'
  }

  /** One character lowercases to a lowercase letter exactly when it is that
      letter in either case. */
  lemma LowerCharMatch(c: char, w: char)
    requires 'a' <= w <= 'z'
    ensures LowerChar(c) == w <==> c == w || c == UpperChar(w)
  {
  }

  /** Status matching is case-insensitive: a status lowercases to the word
      exactly when each of its letters is the word's letter in either case. */
  lemma LowercaseMatch(s: string, w: string)
    requires IsLowerWord(w)
    ensures ToLower(s) == w <==>
      |s| == |w| && forall i :: 0 <= i < |s| ==> s[i] == w[i] || s[i] == UpperChar(w[i])
  {
    if |s| == |w| {
      forall i | 0 <= i < |s|
        ensures ToLower(s)[i] == w[i] <==> s[i] == w[i] || s[i] == UpperChar(w[i])
      {
        LowerCharMatch(s[i], w[i]);
      }
    }
  }

  function StatusIs(w: string): Txn -> bool
  {
    (t: Txn) => ToLower(t.status) == w
  }

  /** `df.filter(pl.col("status").str.to_lowercase() == w)`: the rows whose
      lowercased status is `w`, in their order and with their multiplicities. */
  function WithStatus(df: seq<Txn>, w: string): (r: seq<Txn>)
    ensures |r| <= |df|
    ensures IsSubsequence(r, df)
    ensures forall t :: multiset(r)[t] == if ToLower(t.status) == w then multiset(df)[t] else 0
    ensures forall t :: t in r <==> t in df && ToLower(t.status) == w
  {
    FilterIsSubsequence(df, StatusIs(w));
    FilterMultiset(df, StatusIs(w));
    Filter(df, StatusIs(w))
  }

  /** `completed_df`. */
  function Completed(df: seq<Txn>): seq<Txn>
  {
    WithStatus(df, "completed")
  }

  /** `refunds_df`. */
  function Refunded(df: seq<Txn>): seq<Txn>
  {
    WithStatus(df, "refunded")
  }

  function ConversionSum(ms: seq<DailyMetric>): real
  {
    if ms == [] then 0.0 else ms[0].conversionRate + ConversionSum(ms[1..])
  }

  /** `daily_metrics_df["conversionRate"].mean()`, or 0 for no metrics. */
  function MeanConversion(ms: seq<DailyMetric>): (r: real)
    ensures ms == [] ==> r == 0.0
  {
    if ms == [] then 0.0 else ConversionSum(ms) / (|ms| as real)
  }

  /** The mean times the number of days is the summed conversion rate. */
  lemma MeanConversionTimesDays(ms: seq<DailyMetric>)
    requires ms != []
    ensures MeanConversion(ms) * (|ms| as real) == ConversionSum(ms)
  {
    QuotientTimesDivisor(ConversionSum(ms), |ms| as real);
  }

  lemma QuotientTimesDivisor(x: real, n: real)
    requires n != 0.0
    ensures x / n * n == x
  {
  }

  /** The distinct customer ids of the rows (`n_unique`). */
  function CustomerIds(df: seq<Txn>): set<string>
  {
    set t | t in df :: t.customer.id
  }

  lemma {:induction false} CustomerIdsBound(df: seq<Txn>)
    ensures |CustomerIds(df)| <= |df|
    ensures df != [] ==> |CustomerIds(df)| >= 1
  {
    if df != [] {
      CustomerIdsBound(df[1..]);
      assert forall t :: t in df <==> t == df[0] || t in df[1..];
      assert CustomerIds(df) == {df[0].customer.id} + CustomerIds(df[1..]);
    }
  }

  /** `k` is a key with the largest summed amount among the keys present. */
  predicate IsTopKey(rows: seq<Txn>, dim: Dimension, k: string)
  {
    && k in KeysIn(rows, dim)
    && forall t :: t in rows ==> GroupSum(rows, dim, KeyOf(t, dim)) <= GroupSum(rows, dim, k)
  }

  /** `group_by(dim).agg(sum).sort(desc).head(1)[dim][0]`, or "N/A" for no rows. */
  function TopKey(rows: seq<Txn>, dim: Dimension): (k: string)
    ensures rows == [] ==> k == "N/A"
    ensures rows != [] ==> IsTopKey(rows, dim, k)
  {
    if rows == [] then "N/A"
    else
      var ranked := RankedGroups(rows, dim);
      assert rows[0] in rows;
      assert GroupKeys([]) == {};
      TopOfRankedIsMaximal(rows, dim, ranked);
      ranked[0].key
  }

  lemma TopOfRankedIsMaximal(rows: seq<Txn>, dim: Dimension, ranked: seq<GroupTotal>)
    requires ranked == RankedGroups(rows, dim) && ranked != []
    ensures IsTopKey(rows, dim, ranked[0].key)
  {
    SortedDescendingFirstIsMax(ranked);
    GroupKeysMembership(ranked);
    forall t | t in rows
      ensures GroupSum(rows, dim, KeyOf(t, dim)) <= GroupSum(rows, dim, ranked[0].key)
    {
      assert KeyOf(t, dim) in KeysIn(rows, dim);
      var g :| g in ranked && g.key == KeyOf(t, dim);
    }
  }

  /** Average order value: revenue over the number of completed orders, or 0
      when there are none. */
  function AverageOrderValue(completed: seq<Txn>): (v: real)
    ensures completed == [] ==> v == 0.0
  {
    if completed != [] then Sum(completed) / (|completed| as real) else 0.0
  }

  /** The average times the number of orders is the revenue. */
  lemma AverageTimesOrders(completed: seq<Txn>)
    requires completed != []
    ensures AverageOrderValue(completed) * (|completed| as real) == Sum(completed)
  {
    QuotientTimesDivisor(Sum(completed), |completed| as real);
  }

  /** Refund rate in percent of the completed revenue, or 0 when that revenue
      is not positive. */
  function RefundRate(refundRevenue: real, completedRevenue: real): (v: real)
    ensures completedRevenue <= 0.0 ==> v == 0.0
  {
    if completedRevenue > 0.0 then refundRevenue / completedRevenue * 100.0 else 0.0
  }

  /** Over a positive revenue, the rate is the refunded share in percent. */
  lemma RefundRateShare(refundRevenue: real, completedRevenue: real)
    requires completedRevenue > 0.0
    ensures RefundRate(refundRevenue, completedRevenue) * completedRevenue == refundRevenue * 100.0
  {
    QuotientTimesDivisor(refundRevenue, completedRevenue);
    var q := refundRevenue / completedRevenue;
    assert q * 100.0 * completedRevenue == q * completedRevenue * 100.0;
  }

  /** `get_summary`: the KPI summary and the completed-only daily join. */
  function GetSummary(df: seq<Txn>, metrics: seq<DailyMetric>): (r: (Summary, seq<EnrichedRow>))
    ensures r.0.totalRevenue == Sum(Completed(df))
    ensures r.0.averageOrderValue == AverageOrderValue(Completed(df))
    ensures r.0.refundRate == RefundRate(Sum(Refunded(df)), Sum(Completed(df)))
    ensures r.0.conversionRate == MeanConversion(metrics)
    ensures r.0.totalCustomers == |CustomerIds(df)| <= |df|
    ensures df != [] ==> r.0.totalCustomers >= 1
    ensures Completed(df) == [] ==> r.0.topRegion == "N/A" && r.0.topCategory == "N/A"
    ensures Completed(df) != [] ==>
      IsTopKey(Completed(df), Region, r.0.topRegion) && IsTopKey(Completed(df), Category, r.0.topCategory)
    ensures r.1 == GetEnrichedMetrics(Completed(df), metrics)
  {
    var completed := Completed(df);
    var refunds := Refunded(df);
    var completedRevenue := if completed != [] then Sum(completed) else 0.0;
    var refundRevenue := if refunds != [] then Sum(refunds) else 0.0;
    var avgOrderVal := AverageOrderValue(completed);
    var refundRate := RefundRate(refundRevenue, completedRevenue);
    var conversion := MeanConversion(metrics);
    CustomerIdsBound(df);
    var summary := Summary(
      totalRevenue := completedRevenue,
      averageOrderValue := avgOrderVal,
      conversionRate := conversion,
      totalCustomers := |CustomerIds(df)|,
      refundRate := refundRate,
      topRegion := TopKey(completed, Region),
      topCategory := TopKey(completed, Category));
    (summary, GetEnrichedMetrics(completed, metrics))
  }

  // ---------------------------------------------------------------------
  // The daily join (get_enriched_metrics, and the tail of get_summary)
  // ---------------------------------------------------------------------

  /** One row of `daily_stats.join(daily_metrics_df, on="date", how="inner")`. */
  datatype EnrichedRow = EnrichedRow(date: int, revenueFiltered: real, ordersFiltered: nat, metric: DailyMetric)

  function Enrich(s: DailyStat, m: DailyMetric): EnrichedRow
  {
    EnrichedRow(s.date, s.revenueFiltered, s.ordersFiltered, m)
  }

  /** The group a joined row was built from. */
  function StatOf(e: EnrichedRow): DailyStat
  {
    DailyStat(e.date, e.revenueFiltered, e.ordersFiltered)
  }

  /** Daily metrics of day `d`. */
  function MetricOn(d: int): DailyMetric -> bool
  {
    (m: DailyMetric) => m.date == d
  }

  /** The joined rows of one group: one per occurrence of a daily metric of
      the same date. */
  function Matches(s: DailyStat, metrics: seq<DailyMetric>): (r: seq<EnrichedRow>)
    ensures forall e :: e in r ==> e.metric in metrics && e.metric.date == s.date && e == Enrich(s, e.metric)
    ensures forall m :: m in metrics && m.date == s.date ==> Enrich(s, m) in r
  {
    if metrics == [] then []
    else
      var rest := Matches(s, metrics[1..]);
      assert forall m :: m in metrics <==> m == metrics[0] || m in metrics[1..];
      if metrics[0].date == s.date then [Enrich(s, metrics[0])] + rest else rest
  }

  /** A group joins with each daily metric of its date once per occurrence of
      that metric. */
  lemma {:induction false} MatchesMultiset(s: DailyStat, metrics: seq<DailyMetric>)
    ensures forall m :: multiset(Matches(s, metrics))[Enrich(s, m)] == if m.date == s.date then multiset(metrics)[m] else 0
  {
    if metrics != [] {
      MatchesMultiset(s, metrics[1..]);
      assert metrics == [metrics[0]] + metrics[1..];
    }
  }

  /** A group joins into as many rows as there are daily metrics of its date. */
  lemma {:induction false} MatchesCount(s: DailyStat, metrics: seq<DailyMetric>)
    ensures |Matches(s, metrics)| == |Filter(metrics, MetricOn(s.date))|
  {
    if metrics != [] {
      MatchesCount(s, metrics[1..]);
    }
  }

  /** The joined row comes from one of the groups. */
  predicate FromStat(stats: seq<DailyStat>, e: EnrichedRow)
  {
    exists s :: s in stats && e == Enrich(s, e.metric)
  }

  /** Inner join on date, groups taken in order. */
  function InnerJoin(stats: seq<DailyStat>, metrics: seq<DailyMetric>): (r: seq<EnrichedRow>)
    ensures forall e :: e in r ==> FromStat(stats, e) && e.metric in metrics && e.metric.date == e.date
    ensures forall s, m :: s in stats && m in metrics && s.date == m.date ==> Enrich(s, m) in r
  {
    if stats == [] then []
    else
      var here := Matches(stats[0], metrics);
      var rest := InnerJoin(stats[1..], metrics);
      assert forall s :: s in stats <==> s == stats[0] || s in stats[1..];
      assert forall e :: e in rest ==> FromStat(stats, e) by {
        forall e | e in rest ensures FromStat(stats, e) {
          var s :| s in stats[1..] && e == Enrich(s, e.metric);
          assert s in stats;
        }
      }
      assert forall e :: e in here ==> FromStat(stats, e) by {
        forall e | e in here ensures FromStat(stats, e) {
          assert stats[0] in stats && e == Enrich(stats[0], e.metric);
        }
      }
      here + rest
  }

  /** How often the join of `stats` with `ms` should hold row `e`. */
  function JoinCount(stats: seq<DailyStat>, ms: seq<DailyMetric>, e: EnrichedRow): nat
  {
    if e.metric.date == e.date then multiset(stats)[StatOf(e)] * multiset(ms)[e.metric] else 0
  }

  /** The join holds each same-date pair of a group and a daily metric as
      often as the group occurs times as often as the metric occurs. */
  lemma {:induction false} InnerJoinMultiset(stats: seq<DailyStat>, ms: seq<DailyMetric>)
    ensures forall e :: multiset(InnerJoin(stats, ms))[e] == JoinCount(stats, ms, e)
  {
    if stats != [] {
      InnerJoinMultiset(stats[1..], ms);
      forall e
        ensures multiset(InnerJoin(stats, ms))[e] == JoinCount(stats, ms, e)
      {
        InnerJoinMultisetStep(stats, ms, e);
      }
    }
  }

  lemma InnerJoinMultisetStep(stats: seq<DailyStat>, ms: seq<DailyMetric>, e: EnrichedRow)
    requires stats != []
    requires multiset(InnerJoin(stats[1..], ms))[e] == JoinCount(stats[1..], ms, e)
    ensures multiset(InnerJoin(stats, ms))[e] == JoinCount(stats, ms, e)
  {
    var here := Matches(stats[0], ms);
    var rest := InnerJoin(stats[1..], ms);
    assert InnerJoin(stats, ms) == here + rest;
    assert multiset(InnerJoin(stats, ms))[e] == multiset(here)[e] + multiset(rest)[e];
    assert stats == [stats[0]] + stats[1..];
    var a := multiset(stats[1..])[StatOf(e)];
    var b := multiset(ms)[e.metric];
    if StatOf(e) == stats[0] {
      assert multiset(stats)[StatOf(e)] == a + 1;
      assert e == Enrich(stats[0], e.metric);
      MatchesMultiset(stats[0], ms);
      assert multiset(here)[e] == if e.metric.date == e.date then b else 0;
      MulSucc(a, b);
    } else {
      assert multiset(stats)[StatOf(e)] == a;
      assert e !in here;
    }
  }

  lemma MulSucc(a: nat, b: nat)
    ensures (a + 1) * b == a * b + b
  {
  }

  /** Days of the groups, as a predicate on daily metrics. */
  function InStatDates(stats: seq<DailyStat>): DailyMetric -> bool
  {
    (m: DailyMetric) => m.date in StatDates(stats)
  }

  /** Groups with distinct, ascending dates join into one row per daily metric
      whose date has a group. */
  lemma {:induction false} InnerJoinCount(stats: seq<DailyStat>, ms: seq<DailyMetric>)
    requires StatsAscending(stats)
    ensures |InnerJoin(stats, ms)| == |Filter(ms, InStatDates(stats))|
  {
    if stats == [] {
      FilterNone(ms, InStatDates(stats));
    } else {
      var d := stats[0].date;
      LaterGroupsLaterRows(stats, ms);
      InnerJoinCount(stats[1..], ms);
      MatchesCount(stats[0], ms);
      var rest := StatDates(stats[1..]);
      assert StatDates(stats) == [d] + rest;
      assert d !in rest by {
        assert forall k :: 0 <= k < |rest| ==> rest[k] == stats[k + 1].date;
      }
      FilterSplitCount(ms, InStatDates(stats), MetricOn(d), MetricOn(d), InStatDates(stats[1..]));
    }
  }

  /** Daily metrics of a day on which some row falls. */
  function MetricHasRows(df: seq<Txn>): DailyMetric -> bool
  {
    (m: DailyMetric) => HasDate(df, m.date)
  }

  /** `get_enriched_metrics`: per-date sum and count of the rows, inner-joined
      with the daily metrics on date, sorted by date. */
  function GetEnrichedMetrics(df: seq<Txn>, metrics: seq<DailyMetric>): (r: seq<EnrichedRow>)
    ensures forall e :: e in r ==>
      && HasDate(df, e.date)
      && e.metric in metrics && e.metric.date == e.date
      && e.revenueFiltered == SumOnDate(df, e.date)
      && e.ordersFiltered == CountOnDate(df, e.date)
      && e.ordersFiltered >= 1
    ensures forall t, m :: t in df && m in metrics && t.date == m.date ==>
      EnrichedRow(t.date, SumOnDate(df, t.date), CountOnDate(df, t.date), m) in r
    ensures RowsAscending(r)
    ensures |r| == |Filter(metrics, MetricHasRows(df))|
  {
    var stats := DailyStats(df);
    var r := InnerJoin(stats, metrics);
    JoinAscending(stats, metrics);
    InnerJoinCount(stats, metrics);
    assert forall m :: InStatDates(stats)(m) == MetricHasRows(df)(m) by {
      forall m ensures InStatDates(stats)(m) == MetricHasRows(df)(m) {
        if HasDate(df, m.date) {
          var t :| t in df && t.date == m.date;
        }
        if m.date in StatDates(stats) {
          var i :| 0 <= i < |stats| && StatDates(stats)[i] == m.date;
          assert stats[i] in stats;
        }
      }
    }
    FilterCongruent(metrics, InStatDates(stats), MetricHasRows(df));
    assert forall e :: e in r ==> HasDate(df, e.date) && e.revenueFiltered == SumOnDate(df, e.date) by {
      forall e | e in r
        ensures HasDate(df, e.date) && e.revenueFiltered == SumOnDate(df, e.date)
      {
        var s :| s in stats && e == Enrich(s, e.metric);
      }
    }
    forall t, m | t in df && m in metrics && t.date == m.date
      ensures EnrichedRow(t.date, SumOnDate(df, t.date), CountOnDate(df, t.date), m) in r
    {
      assert t.date in StatDates(stats);
      var i :| 0 <= i < |stats| && StatDates(stats)[i] == t.date;
      var st := stats[i];
      assert st in stats;
      assert st.revenueFiltered == SumOnDate(df, t.date) && st.ordersFiltered == CountOnDate(df, t.date);
      assert Enrich(st, m) in r;
    }
    r
  }

  lemma StatsAscendingTail(stats: seq<DailyStat>)
    requires stats != [] && StatsAscending(stats)
    ensures StatsAscending(stats[1..])
    ensures stats[0] !in stats[1..]
  {
    assert forall k :: 0 <= k < |stats[1..]| ==> stats[1..][k] == stats[k + 1];
  }

  /** Groups with strictly ascending dates occur once each. */
  lemma {:induction false} AscendingStatsOnce(stats: seq<DailyStat>)
    requires StatsAscending(stats)
    ensures forall s :: multiset(stats)[s] == if s in stats then 1 else 0
  {
    if stats != [] {
      StatsAscendingTail(stats);
      AscendingStatsOnce(stats[1..]);
      assert stats == [stats[0]] + stats[1..];
      forall s
        ensures multiset(stats)[s] == if s in stats then 1 else 0
      {
        assert multiset(stats)[s] == multiset([stats[0]])[s] + multiset(stats[1..])[s];
        assert s in stats <==> s == stats[0] || s in stats[1..];
      }
    }
  }

  /** A daily group is in `DailyStats(df)` exactly when its date has rows and
      it carries that date's sum and count. */
  lemma DailyStatsMembers(df: seq<Txn>, s: DailyStat)
    ensures s in DailyStats(df) <==>
      HasDate(df, s.date) && s.revenueFiltered == SumOnDate(df, s.date) && s.ordersFiltered == CountOnDate(df, s.date)
  {
    var stats := DailyStats(df);
    if HasDate(df, s.date) && s.revenueFiltered == SumOnDate(df, s.date) && s.ordersFiltered == CountOnDate(df, s.date) {
      var t :| t in df && t.date == s.date;
      var i :| 0 <= i < |stats| && StatDates(stats)[i] == s.date;
      assert stats[i] in stats;
    }
  }

  /** A joined row of a date with transactions that carries that date's sum
      and count, and a daily metric of the same date. */
  predicate DailyJoinRow(df: seq<Txn>, e: EnrichedRow)
  {
    && e.metric.date == e.date
    && HasDate(df, e.date)
    && e.revenueFiltered == SumOnDate(df, e.date)
    && e.ordersFiltered == CountOnDate(df, e.date)
  }

  /** The join of `get_enriched_metrics` holds each row of a date with
      transactions, carrying that date's sum and count, once per occurrence of
      its daily metric, and nothing else. */
  lemma EnrichedMetricsMultiset(df: seq<Txn>, metrics: seq<DailyMetric>)
    ensures forall e ::
      (multiset(GetEnrichedMetrics(df, metrics))[e] == if DailyJoinRow(df, e) then multiset(metrics)[e.metric] else 0)
  {
    var stats := DailyStats(df);
    InnerJoinMultiset(stats, metrics);
    AscendingStatsOnce(stats);
    forall e
      ensures multiset(GetEnrichedMetrics(df, metrics))[e] ==
        if DailyJoinRow(df, e) then multiset(metrics)[e.metric] else 0
    {
      DailyStatsMembers(df, StatOf(e));
      var b := multiset(metrics)[e.metric];
      assert 1 * b == b && 0 * b == 0;
    }
  }

  predicate UniqueMetricDates(ms: seq<DailyMetric>)
  {
    forall i, j :: 0 <= i < j < |ms| ==> ms[i].date != ms[j].date
  }

  lemma {:induction false} NoMatches(s: DailyStat, ms: seq<DailyMetric>)
    requires forall m :: m in ms ==> m.date != s.date
    ensures Matches(s, ms) == []
  {
    if ms != [] {
      NoMatches(s, ms[1..]);
    }
  }

  /** With one metric per date, a group joins with at most one metric. */
  lemma MatchesAtMostOne(s: DailyStat, ms: seq<DailyMetric>)
    requires UniqueMetricDates(ms)
    ensures |Matches(s, ms)| <= 1
  {
    if ms != [] {
      if ms[0].date == s.date {
        assert forall m :: m in ms[1..] ==> m.date != s.date by {
          forall m | m in ms[1..] ensures m.date != s.date {
            var k :| 0 <= k < |ms[1..]| && ms[1..][k] == m;
            assert ms[k + 1] == m;
          }
        }
        NoMatches(s, ms[1..]);
      } else {
        assert UniqueMetricDates(ms[1..]) by {
          assert forall k :: 0 <= k < |ms[1..]| ==> ms[1..][k] == ms[k + 1];
        }
        MatchesAtMostOne(s, ms[1..]);
      }
    }
  }

  predicate RowsAscending(es: seq<EnrichedRow>)
  {
    forall i, j :: 0 <= i < j < |es| ==> es[i].date <= es[j].date
  }

  predicate RowsStrictlyAscending(es: seq<EnrichedRow>)
  {
    forall i, j :: 0 <= i < j < |es| ==> es[i].date < es[j].date
  }

  /** The rows joined from later groups carry later dates than the first group. */
  lemma LaterGroupsLaterRows(stats: seq<DailyStat>, ms: seq<DailyMetric>)
    requires stats != [] && StatsAscending(stats)
    ensures StatsAscending(stats[1..])
    ensures forall e :: e in InnerJoin(stats[1..], ms) ==> e.date > stats[0].date
  {
    forall e | e in InnerJoin(stats[1..], ms)
      ensures e.date > stats[0].date
    {
      var s :| s in stats[1..] && e == Enrich(s, e.metric);
      var k :| 0 <= k < |stats[1..]| && stats[1..][k] == s;
      assert stats[k + 1] == s;
    }
  }

  /** Rows of one date followed by ascending rows of later dates are ascending;
      strictly so when there is at most one of the former. */
  lemma ConcatAscending(here: seq<EnrichedRow>, rest: seq<EnrichedRow>, d: int)
    requires forall e :: e in here ==> e.date == d
    requires forall e :: e in rest ==> e.date > d
    ensures RowsAscending(rest) ==> RowsAscending(here + rest)
    ensures RowsStrictlyAscending(rest) && |here| <= 1 ==> RowsStrictlyAscending(here + rest)
  {
    var r := here + rest;
    assert forall i :: 0 <= i < |here| ==> r[i] == here[i] && here[i] in here;
    assert forall j :: |here| <= j < |r| ==> r[j] == rest[j - |here|] && rest[j - |here|] in rest;
  }

  /** The rows one group joins into all carry the group's date. */
  lemma MatchesOnDate(s: DailyStat, ms: seq<DailyMetric>)
    ensures forall e :: e in Matches(s, ms) ==> e.date == s.date
  {
  }

  /** Joining date-ascending groups gives date-ascending rows. */
  lemma {:induction false} JoinAscending(stats: seq<DailyStat>, ms: seq<DailyMetric>)
    requires StatsAscending(stats)
    ensures RowsAscending(InnerJoin(stats, ms))
  {
    if stats != [] {
      LaterGroupsLaterRows(stats, ms);
      JoinAscending(stats[1..], ms);
      MatchesOnDate(stats[0], ms);
      ConcatAscending(Matches(stats[0], ms), InnerJoin(stats[1..], ms), stats[0].date);
    }
  }

  /** With one metric per date, the joined rows are strictly date-ascending:
      one row per date. */
  lemma {:induction false} JoinStrictlyAscending(stats: seq<DailyStat>, ms: seq<DailyMetric>)
    requires StatsAscending(stats) && UniqueMetricDates(ms)
    ensures RowsStrictlyAscending(InnerJoin(stats, ms))
  {
    if stats != [] {
      LaterGroupsLaterRows(stats, ms);
      JoinStrictlyAscending(stats[1..], ms);
      MatchesAtMostOne(stats[0], ms);
      MatchesOnDate(stats[0], ms);
      ConcatAscending(Matches(stats[0], ms), InnerJoin(stats[1..], ms), stats[0].date);
    }
  }

  /** Sum of `orders_filtered` over the joined rows. */
  function OrdersTotal(es: seq<EnrichedRow>): nat
  {
    if es == [] then 0 else es[0].ordersFiltered + OrdersTotal(es[1..])
  }

  function JoinDates(es: seq<EnrichedRow>): (ds: seq<int>)
    ensures |ds| == |es| && forall i :: 0 <= i < |es| ==> ds[i] == es[i].date
  {
    if es == [] then [] else [es[0].date] + JoinDates(es[1..])
  }

  /** When every joined row counts the rows of its (distinct) date, the counts
      add up to the number of rows on the joined dates. */
  lemma {:induction false} OrdersTotalCounts(es: seq<EnrichedRow>, df: seq<Txn>)
    requires RowsStrictlyAscending(es)
    requires forall e :: e in es ==> e.ordersFiltered == CountOnDate(df, e.date)
    ensures OrdersTotal(es) == |Filter(df, InDates(JoinDates(es)))|
  {
    if es == [] {
      FilterNone(df, InDates(JoinDates(es)));
    } else {
      var d := es[0].date;
      var rest := JoinDates(es[1..]);
      assert JoinDates(es) == [d] + rest;
      assert d !in rest;
      assert es[0] in es;
      assert forall e :: e in es[1..] ==> e in es;
      OrdersTotalCounts(es[1..], df);
      FilterSplitCount(df, InDates(JoinDates(es)), OnDate(d), OnDate(d), InDates(rest));
    }
  }

  /** The dates carried by some daily metric. */
  function MetricDates(ms: seq<DailyMetric>): set<int>
  {
    set m | m in ms :: m.date
  }

  /** With one metric per date, the orders of the all-status join add up to the
      number of rows whose date has a daily metric, so never more than the rows. */
  lemma OrdersTotalOfJoin(df: seq<Txn>, ms: seq<DailyMetric>)
    requires UniqueMetricDates(ms)
    ensures OrdersTotal(GetEnrichedMetrics(df, ms)) == |Filter(df, (t: Txn) => t.date in MetricDates(ms))|
    ensures OrdersTotal(GetEnrichedMetrics(df, ms)) <= |df|
  {
    var r := GetEnrichedMetrics(df, ms);
    JoinStrictlyAscending(DailyStats(df), ms);
    OrdersTotalCounts(r, df);
    JoinDatesAreMetricDates(df, ms);
    FilterCongruent(df, InDates(JoinDates(r)), (t: Txn) => t.date in MetricDates(ms));
  }

  /** A row's date is a date of the join exactly when some daily metric
      carries it. */
  lemma JoinDatesAreMetricDates(df: seq<Txn>, ms: seq<DailyMetric>)
    ensures forall t :: t in df ==>
      (InDates(JoinDates(GetEnrichedMetrics(df, ms)))(t) <==> t.date in MetricDates(ms))
  {
    var r := GetEnrichedMetrics(df, ms);
    forall t | t in df
      ensures InDates(JoinDates(r))(t) <==> t.date in MetricDates(ms)
    {
      if t.date in MetricDates(ms) {
        var m :| m in ms && m.date == t.date;
        var e := EnrichedRow(t.date, SumOnDate(df, t.date), CountOnDate(df, t.date), m);
        assert e in r;
        var i :| 0 <= i < |r| && r[i] == e;
        assert JoinDates(r)[i] == t.date;
      }
      if t.date in JoinDates(r) {
        var i :| 0 <= i < |r| && JoinDates(r)[i] == t.date;
        assert r[i] in r;
      }
    }
  }

  /** The completed-only join counts no more orders than there are completed
      rows. */
  lemma SummaryJoinOrders(df: seq<Txn>, ms: seq<DailyMetric>)
    requires UniqueMetricDates(ms)
    ensures OrdersTotal(GetSummary(df, ms).1) <= |Completed(df)| <= |df|
  {
    OrdersTotalOfJoin(Completed(df), ms);
  }

  /** Two daily metrics on one date make the join repeat that date's count,
      so its orders exceed the rows: one row, two metrics, two orders. */
  lemma DuplicateMetricDatesRepeatCounts()
    ensures var t := Txn("t1", 5, 10.0, "Books", "North", Customer("c1", "SMB"), "completed");
      var ms := [DailyMetric(5, 0.1), DailyMetric(5, 0.2)];
      OrdersTotal(GetEnrichedMetrics([t], ms)) == 2
  {
    var t := Txn("t1", 5, 10.0, "Books", "North", Customer("c1", "SMB"), "completed");
    var ms := [DailyMetric(5, 0.1), DailyMetric(5, 0.2)];
    assert [t][1..] == [];
    assert Filter([t], OnDate(5)) == [t];
    assert CountOnDate([t], 5) == 1;
    assert DistinctDates([t]) == [5];
    var st := DailyStat(5, SumOnDate([t], 5), 1);
    assert StatsOn([5], [t]) == [st];
    assert DailyStats([t]) == [st];
    assert ms[1..][1..] == [];
    assert Matches(st, ms[1..]) == [Enrich(st, ms[1])];
    assert Matches(st, ms) == [Enrich(st, ms[0]), Enrich(st, ms[1])];
    assert [st][1..] == [];
    var r := InnerJoin([st], ms);
    assert r == Matches(st, ms) + InnerJoin([], ms);
    assert r == [Enrich(st, ms[0]), Enrich(st, ms[1])];
    assert GetEnrichedMetrics([t], ms) == r;
    assert r[1..][1..] == [];
    assert OrdersTotal(r) == 1 + OrdersTotal(r[1..]);
    assert OrdersTotal(r[1..]) == 1 + OrdersTotal(r[1..][1..]);
  }

  /** The completed-only join of `get_summary` is a sub-join of the all-status join:
      each of its rows has a row of the same date and metric in the all-status
      join, with at least as many orders. */
  lemma CompletedJoinWithinAllStatusJoin(df: seq<Txn>, ms: seq<DailyMetric>)
    ensures forall e :: e in GetSummary(df, ms).1 ==>
      && EnrichedRow(e.date, SumOnDate(df, e.date), CountOnDate(df, e.date), e.metric) in GetEnrichedMetrics(df, ms)
      && e.ordersFiltered <= CountOnDate(df, e.date)
  {
    var c := Completed(df);
    var all := GetEnrichedMetrics(df, ms);
    forall e | e in GetEnrichedMetrics(c, ms)
      ensures EnrichedRow(e.date, SumOnDate(df, e.date), CountOnDate(df, e.date), e.metric) in all
      ensures e.ordersFiltered <= CountOnDate(df, e.date)
    {
      var t :| t in c && t.date == e.date;
      assert t in df;
      CompletedCountBound(df, e.date);
    }
  }

  /** A day has no more completed rows than rows. */
  lemma CompletedCountBound(df: seq<Txn>, d: int)
    ensures CountOnDate(Completed(df), d) <= CountOnDate(df, d)
  {
    FilterFilter(df, StatusIs("completed"), OnDate(d));
    FilterCongruent(df, Both(StatusIs("completed"), OnDate(d)), Both(OnDate(d), StatusIs("completed")));
    FilterSplitCount(df, OnDate(d), StatusIs("completed"),
      Both(OnDate(d), StatusIs("completed")), ButNot(OnDate(d), StatusIs("completed")));
  }
}
