/** The dataframe operations the dashboard is built from, on sequences of
    rows: `filter`, `sum`, `sort("date")`, `group_by("date")` and
    `group_by(column).agg(sum).sort(descending)`. */
module Aggregates {
  import opened Records

  // ---------------------------------------------------------------------
  // Filtering
  // ---------------------------------------------------------------------

  /** `df.filter(p)`: the rows satisfying `p`, in their original order. */
  function Filter<T>(s: seq<T>, p: T -> bool): (r: seq<T>)
    ensures |r| <= |s|
    ensures forall x :: x in r ==> x in s && p(x)
    ensures forall x :: x in s && p(x) ==> x in r
  {
    if s == [] then []
    else if p(s[0]) then [s[0]] + Filter(s[1..], p)
    else Filter(s[1..], p)
  }

  /** The conjunction of two row predicates. */
  function Both<T>(p: T -> bool, q: T -> bool): T -> bool
  {
    (x: T) => p(x) && q(x)
  }

  /** `r` is obtained from `s` by deleting elements (order is kept). */
  predicate IsSubsequence<T(==)>(r: seq<T>, s: seq<T>)
  {
    if r == [] then true
    else if s == [] then false
    else (r[0] == s[0] && IsSubsequence(r[1..], s[1..])) || IsSubsequence(r, s[1..])
  }

  lemma {:induction false} FilterIsSubsequence<T>(s: seq<T>, p: T -> bool)
    ensures IsSubsequence(Filter(s, p), s)
  {
    if s != [] {
      FilterIsSubsequence(s[1..], p);
      if p(s[0]) {
        assert Filter(s, p)[1..] == Filter(s[1..], p);
      }
    }
  }

  /** A filter keeps every satisfying row as often as it occurs, and nothing else. */
  lemma {:induction false} FilterMultiset<T>(s: seq<T>, p: T -> bool)
    ensures forall x :: multiset(Filter(s, p))[x] == if p(x) then multiset(s)[x] else 0
  {
    if s != [] {
      FilterMultiset(s[1..], p);
      assert s == [s[0]] + s[1..];
    }
  }

  lemma {:induction false} SubsequenceMultiset<T>(r: seq<T>, s: seq<T>)
    requires IsSubsequence(r, s)
    ensures multiset(r) <= multiset(s)
  {
    if r != [] {
      assert s == [s[0]] + s[1..];
      if r[0] == s[0] && IsSubsequence(r[1..], s[1..]) {
        SubsequenceMultiset(r[1..], s[1..]);
        assert r == [r[0]] + r[1..];
      } else {
        SubsequenceMultiset(r, s[1..]);
      }
    }
  }

  /** The filter result is the only order-preserving subsequence that holds
      exactly the satisfying rows with their multiplicities. */
  lemma {:induction false} FilterUnique<T>(s: seq<T>, p: T -> bool, r: seq<T>)
    requires IsSubsequence(r, s)
    requires forall x :: x in r ==> p(x)
    requires forall x :: p(x) ==> multiset(r)[x] == multiset(s)[x]
    ensures r == Filter(s, p)
  {
    if s == [] {
    } else {
      assert s == [s[0]] + s[1..];
      if p(s[0]) {
        assert multiset(s)[s[0]] == multiset(s[1..])[s[0]] + 1;
        if IsSubsequence(r, s[1..]) {
          SubsequenceMultiset(r, s[1..]);
          assert false;
        }
        assert r == [r[0]] + r[1..];
        FilterUnique(s[1..], p, r[1..]);
      } else {
        assert s[0] !in r;
        assert IsSubsequence(r, s[1..]);
        FilterUnique(s[1..], p, r);
      }
    }
  }

  /** Filtering twice is filtering once by the conjunction. */
  lemma {:induction false} FilterFilter<T>(s: seq<T>, p: T -> bool, q: T -> bool)
    ensures Filter(Filter(s, p), q) == Filter(s, Both(p, q))
  {
    if s != [] {
      FilterFilter(s[1..], p, q);
    }
  }

  /** Filters by predicates that agree on the rows give the same result. */
  lemma {:induction false} FilterCongruent<T>(s: seq<T>, p: T -> bool, q: T -> bool)
    requires forall x :: x in s ==> p(x) == q(x)
    ensures Filter(s, p) == Filter(s, q)
  {
    if s != [] {
      FilterCongruent(s[1..], p, q);
    }
  }

  /** Rows satisfying `p` but not `q`. */
  function ButNot<T>(p: T -> bool, q: T -> bool): T -> bool
  {
    (x: T) => p(x) && !q(x)
  }

  /** A filter that no row satisfies keeps nothing. */
  lemma {:induction false} FilterNone<T>(s: seq<T>, p: T -> bool)
    requires forall x :: x in s ==> !p(x)
    ensures Filter(s, p) == []
  {
    if s != [] {
      FilterNone(s[1..], p);
    }
  }

  /** A filter every row satisfies keeps every row. */
  lemma {:induction false} FilterAll<T>(s: seq<T>, p: T -> bool)
    requires forall x :: x in s ==> p(x)
    ensures Filter(s, p) == s
  {
    if s != [] {
      FilterAll(s[1..], p);
    }
  }

  /** Counting: rows satisfying `p` split into those that also satisfy `q`
      and those that do not. */
  lemma {:induction false} FilterSplitCount<T>(s: seq<T>, p: T -> bool, q: T -> bool, pq: T -> bool, pnq: T -> bool)
    requires forall x :: pq(x) == (p(x) && q(x))
    requires forall x :: pnq(x) == (p(x) && !q(x))
    ensures |Filter(s, p)| == |Filter(s, pq)| + |Filter(s, pnq)|
  {
    if s != [] {
      FilterSplitCount(s[1..], p, q, pq, pnq);
    }
  }

  // ---------------------------------------------------------------------
  // Sums
  // ---------------------------------------------------------------------

  /** `df["amount"].sum()`; the sum of no rows is 0. */
  function Sum(rows: seq<Txn>): real
  {
    if rows == [] then 0.0 else rows[0].amount + Sum(rows[1..])
  }

  lemma {:induction false} SumConcat(a: seq<Txn>, b: seq<Txn>)
    ensures Sum(a + b) == Sum(a) + Sum(b)
  {
    if a == [] {
      assert a + b == b;
    } else {
      assert (a + b)[1..] == a[1..] + b;
      SumConcat(a[1..], b);
    }
  }

  /** Summing: rows satisfying `p` split into those that also satisfy `q` and
      those that do not, and so does their summed amount. */
  lemma {:induction false} FilterSplitSum(s: seq<Txn>, p: Txn -> bool, q: Txn -> bool, pq: Txn -> bool, pnq: Txn -> bool)
    requires forall x :: pq(x) == (p(x) && q(x))
    requires forall x :: pnq(x) == (p(x) && !q(x))
    ensures Sum(Filter(s, p)) == Sum(Filter(s, pq)) + Sum(Filter(s, pnq))
  {
    if s != [] {
      FilterSplitSum(s[1..], p, q, pq, pnq);
    }
  }

  // ---------------------------------------------------------------------
  // Sorting by date (`df.sort("date")`)
  // ---------------------------------------------------------------------

  /** Dates never decrease from one row to the next. */
  predicate SortedByDate(s: seq<Txn>)
  {
    |s| <= 1 || (s[0].date <= s[1].date && SortedByDate(s[1..]))
  }

  /** A sorted sequence is ordered between any two positions, not only neighbours. */
  lemma {:induction false} SortedByDateOrdered(s: seq<Txn>)
    requires SortedByDate(s)
    ensures forall i, j :: 0 <= i < j < |s| ==> s[i].date <= s[j].date
  {
    if |s| > 1 {
      SortedByDateOrdered(s[1..]);
      assert forall j :: 1 <= j < |s| ==> s[j] == s[1..][j - 1];
    }
  }

  function InsertByDate(t: Txn, s: seq<Txn>): (r: seq<Txn>)
    requires SortedByDate(s)
    ensures |r| == |s| + 1
    ensures r[0] == t || (s != [] && r[0] == s[0])
    ensures SortedByDate(r)
  {
    if s == [] || t.date <= s[0].date then
      assert ([t] + s)[1..] == s;
      [t] + s
    else
      var rest := InsertByDate(t, s[1..]);
      assert ([s[0]] + rest)[1..] == rest;
      [s[0]] + rest
  }

  /** Inserting a row adds exactly that row. */
  lemma {:induction false} InsertByDatePermutes(t: Txn, s: seq<Txn>)
    requires SortedByDate(s)
    ensures multiset(InsertByDate(t, s)) == multiset(s) + multiset{t}
  {
    if s != [] && t.date > s[0].date {
      InsertByDatePermutes(t, s[1..]);
      assert s == [s[0]] + s[1..];
    }
  }

  /** A sort by date: the same rows, with non-decreasing dates. */
  function SortByDate(s: seq<Txn>): (r: seq<Txn>)
    ensures |r| == |s|
    ensures SortedByDate(r)
    ensures multiset(r) == multiset(s)
  {
    if s == [] then []
    else
      assert s == [s[0]] + s[1..];
      InsertByDatePermutes(s[0], SortByDate(s[1..]));
      InsertByDate(s[0], SortByDate(s[1..]))
  }

  /** Inserting a row adds its amount to the sum. */
  lemma {:induction false} InsertByDateSum(t: Txn, s: seq<Txn>)
    requires SortedByDate(s)
    ensures Sum(InsertByDate(t, s)) == Sum(s) + t.amount
  {
    if s != [] && t.date > s[0].date {
      InsertByDateSum(t, s[1..]);
      var rest := InsertByDate(t, s[1..]);
      assert ([s[0]] + rest)[1..] == rest;
    } else {
      assert ([t] + s)[1..] == s;
    }
  }

  /** Sorting by date keeps the sum of the amounts. */
  lemma {:induction false} SortByDateSum(s: seq<Txn>)
    ensures Sum(SortByDate(s)) == Sum(s)
  {
    if s != [] {
      SortByDateSum(s[1..]);
      InsertByDateSum(s[0], SortByDate(s[1..]));
    }
  }

  // ---------------------------------------------------------------------
  // Grouping by date (`df.group_by("date").agg(sum, len)`, sorted by date)
  // ---------------------------------------------------------------------

  predicate StrictlyIncreasing(ds: seq<int>)
  {
    forall i, j :: 0 <= i < j < |ds| ==> ds[i] < ds[j]
  }

  lemma StrictlyIncreasingTail(ds: seq<int>)
    requires ds != [] && StrictlyIncreasing(ds)
    ensures StrictlyIncreasing(ds[1..])
    ensures forall x :: x in ds[1..] ==> ds[0] < x
  {
    assert forall k :: 0 <= k < |ds[1..]| ==> ds[1..][k] == ds[k + 1];
  }

  lemma StrictlyIncreasingCons(x: int, ds: seq<int>)
    requires StrictlyIncreasing(ds)
    requires forall y :: y in ds ==> x < y
    ensures StrictlyIncreasing([x] + ds)
  {
    var r := [x] + ds;
    forall i, j | 0 <= i < j < |r|
      ensures r[i] < r[j]
    {
      assert r[j] == ds[j - 1];
      if i > 0 {
        assert r[i] == ds[i - 1];
      } else {
        assert ds[j - 1] in ds;
      }
    }
  }

  function InsertDate(d: int, ds: seq<int>): (r: seq<int>)
    requires StrictlyIncreasing(ds)
    ensures StrictlyIncreasing(r)
    ensures forall x :: x in r <==> x == d || x in ds
  {
    if ds == [] || d < ds[0] then
      assert forall y :: y in ds ==> d < y by {
        if ds != [] {
          StrictlyIncreasingTail(ds);
        }
      }
      StrictlyIncreasingCons(d, ds);
      [d] + ds
    else if d == ds[0] then ds
    else
      StrictlyIncreasingTail(ds);
      var rest := InsertDate(d, ds[1..]);
      StrictlyIncreasingCons(ds[0], rest);
      assert forall x :: x in ds <==> x == ds[0] || x in ds[1..] by {
        assert ds == [ds[0]] + ds[1..];
      }
      [ds[0]] + rest
  }

  /** Some row falls on day `d`. */
  predicate HasDate(rows: seq<Txn>, d: int)
  {
    exists t :: t in rows && t.date == d
  }

  /** The distinct dates of the rows, ascending. */
  function DistinctDates(rows: seq<Txn>): (r: seq<int>)
    ensures StrictlyIncreasing(r)
    ensures forall d :: d in r ==> HasDate(rows, d)
    ensures forall t :: t in rows ==> t.date in r
  {
    if rows == [] then []
    else
      var rest := DistinctDates(rows[1..]);
      assert forall t :: t in rows <==> t == rows[0] || t in rows[1..];
      InsertDate(rows[0].date, rest)
  }

  function OnDate(d: int): Txn -> bool
  {
    (t: Txn) => t.date == d
  }

  /** Sum of the amounts on day `d`; 0 on a day without rows. */
  function SumOnDate(rows: seq<Txn>, d: int): (r: real)
    ensures !HasDate(rows, d) ==> r == 0.0
  {
    var on := Filter(rows, OnDate(d));
    assert !HasDate(rows, d) ==> on == [] by {
      if !HasDate(rows, d) {
        FilterNone(rows, OnDate(d));
      }
    }
    Sum(on)
  }

  /** Number of rows on day `d`: at least one exactly on the days some row
      falls on, and never more than the rows. */
  function CountOnDate(rows: seq<Txn>, d: int): (c: nat)
    ensures c <= |rows|
    ensures c >= 1 <==> HasDate(rows, d)
  {
    var on := Filter(rows, OnDate(d));
    assert on != [] ==> on[0] in on;
    assert HasDate(rows, d) ==> on != [] by {
      if HasDate(rows, d) {
        var t :| t in rows && t.date == d;
        assert t in on;
      }
    }
    |on|
  }

  /** A date that occurs in the rows has at least one row. */
  lemma CountOnPresentDates(rows: seq<Txn>, ds: seq<int>)
    requires forall d :: d in ds ==> HasDate(rows, d)
    ensures forall d :: d in ds ==> CountOnDate(rows, d) >= 1
  {
    forall d | d in ds
      ensures CountOnDate(rows, d) >= 1
    {
      var t :| t in rows && t.date == d;
      assert t in Filter(rows, OnDate(d));
    }
  }

  /** One output row of `group_by("date")`: revenue_filtered and orders_filtered. */
  datatype DailyStat = DailyStat(date: int, revenueFiltered: real, ordersFiltered: nat)

  function StatsOn(ds: seq<int>, rows: seq<Txn>): (r: seq<DailyStat>)
    ensures |r| == |ds|
    ensures forall i :: 0 <= i < |r| ==>
      r[i].date == ds[i] &&
      r[i].revenueFiltered == SumOnDate(rows, ds[i]) &&
      r[i].ordersFiltered == CountOnDate(rows, ds[i])
  {
    if ds == [] then []
    else [DailyStat(ds[0], SumOnDate(rows, ds[0]), CountOnDate(rows, ds[0]))] + StatsOn(ds[1..], rows)
  }

  /** The dates of the daily groups, in order. */
  function StatDates(ss: seq<DailyStat>): (ds: seq<int>)
    ensures |ds| == |ss|
    ensures forall i :: 0 <= i < |ss| ==> ds[i] == ss[i].date
  {
    if ss == [] then [] else [ss[0].date] + StatDates(ss[1..])
  }

  /** Groups strictly ascending by date, so no date twice. */
  predicate StatsAscending(stats: seq<DailyStat>)
  {
    forall i, j :: 0 <= i < j < |stats| ==> stats[i].date < stats[j].date
  }

  /** The per-date groups of the rows: one per date present, ascending by date,
      each with the summed amount and the number of rows of that date. */
  function DailyStats(rows: seq<Txn>): (r: seq<DailyStat>)
    ensures StatsAscending(r)
    ensures forall t :: t in rows ==> t.date in StatDates(r)
    ensures forall s :: s in r ==>
      HasDate(rows, s.date) &&
      s.revenueFiltered == SumOnDate(rows, s.date) &&
      s.ordersFiltered == CountOnDate(rows, s.date) &&
      s.ordersFiltered >= 1
  {
    var ds := DistinctDates(rows);
    CountOnPresentDates(rows, ds);
    StatDatesOn(ds, rows);
    assert forall i :: 0 <= i < |ds| ==> ds[i] in ds;
    StatsOn(ds, rows)
  }

  lemma {:induction false} StatDatesOn(ds: seq<int>, rows: seq<Txn>)
    ensures StatDates(StatsOn(ds, rows)) == ds
  {
    if ds != [] {
      StatDatesOn(ds[1..], rows);
      var r := StatsOn(ds, rows);
      assert r[1..] == StatsOn(ds[1..], rows);
    }
  }

  /** Rows whose date is one of `ds`. */
  function InDates(ds: seq<int>): Txn -> bool
  {
    (t: Txn) => t.date in ds
  }

  /** Summed `revenue_filtered` of the daily groups. */
  function DailyRevenue(ss: seq<DailyStat>): real
  {
    if ss == [] then 0.0 else ss[0].revenueFiltered + DailyRevenue(ss[1..])
  }

  /** Summed `orders_filtered` of the daily groups. */
  function DailyOrders(ss: seq<DailyStat>): nat
  {
    if ss == [] then 0 else ss[0].ordersFiltered + DailyOrders(ss[1..])
  }

  lemma {:induction false} StatsOnTotals(ds: seq<int>, rows: seq<Txn>)
    requires StrictlyIncreasing(ds)
    ensures DailyRevenue(StatsOn(ds, rows)) == Sum(Filter(rows, InDates(ds)))
    ensures DailyOrders(StatsOn(ds, rows)) == |Filter(rows, InDates(ds))|
  {
    if ds == [] {
      FilterNone(rows, InDates(ds));
    } else {
      var d := ds[0];
      assert StrictlyIncreasing(ds[1..]) by {
        assert forall k :: 0 <= k < |ds[1..]| ==> ds[1..][k] == ds[k + 1];
      }
      assert d !in ds[1..] by {
        assert forall k :: 0 <= k < |ds[1..]| ==> ds[1..][k] == ds[k + 1];
      }
      assert forall x :: x in ds <==> x == d || x in ds[1..] by {
        assert ds == [d] + ds[1..];
      }
      StatsOnTotals(ds[1..], rows);
      FilterSplitSum(rows, InDates(ds), OnDate(d), OnDate(d), InDates(ds[1..]));
      FilterSplitCount(rows, InDates(ds), OnDate(d), OnDate(d), InDates(ds[1..]));
    }
  }

  /** The daily groups share out the rows: their revenues add up to the total
      amount and their order counts to the number of rows. */
  lemma DailyStatsTotals(rows: seq<Txn>)
    ensures DailyRevenue(DailyStats(rows)) == Sum(rows)
    ensures DailyOrders(DailyStats(rows)) == |rows|
  {
    var ds := DistinctDates(rows);
    StatsOnTotals(ds, rows);
    FilterAll(rows, InDates(ds));
  }


  // ---------------------------------------------------------------------
  // Grouping by a text column (`group_by(col).agg(sum).sort(descending)`)
  // ---------------------------------------------------------------------

  datatype Dimension = Region | Category

  function KeyOf(t: Txn, dim: Dimension): string
  {
    match dim
    case Region => t.region
    case Category => t.category
  }

  function HasKey(dim: Dimension, k: string): Txn -> bool
  {
    (t: Txn) => KeyOf(t, dim) == k
  }

  /** The summed amount of the rows whose `dim` column is `k`. */
  function GroupSum(rows: seq<Txn>, dim: Dimension, k: string): real
  {
    Sum(Filter(rows, HasKey(dim, k)))
  }

  /** The set of `dim` values present in the rows. */
  function KeysIn(rows: seq<Txn>, dim: Dimension): set<string>
  {
    set t | t in rows :: KeyOf(t, dim)
  }

  /** The distinct `dim` values of the rows, each once. */
  function DistinctKeys(rows: seq<Txn>, dim: Dimension): (r: seq<string>)
    ensures forall i, j :: 0 <= i < j < |r| ==> r[i] != r[j]
    ensures forall k :: k in r <==> k in KeysIn(rows, dim)
  {
    if rows == [] then []
    else
      var rest := DistinctKeys(rows[1..], dim);
      var k := KeyOf(rows[0], dim);
      assert forall t :: t in rows <==> t == rows[0] || t in rows[1..];
      assert KeysIn(rows, dim) == {k} + KeysIn(rows[1..], dim);
      if k in rest then rest else [k] + rest
  }

  /** One output row of `group_by(col).agg(pl.col("amount").sum())`. */
  datatype GroupTotal = GroupTotal(key: string, amount: real)

  /** The keys of a list of groups. */
  function GroupKeys(gs: seq<GroupTotal>): set<string>
  {
    if gs == [] then {} else {gs[0].key} + GroupKeys(gs[1..])
  }

  lemma {:induction false} GroupKeysMembership(gs: seq<GroupTotal>)
    ensures forall g :: g in gs ==> g.key in GroupKeys(gs)
    ensures forall k :: k in GroupKeys(gs) ==> exists g :: g in gs && g.key == k
  {
    if gs != [] {
      GroupKeysMembership(gs[1..]);
      assert forall g :: g in gs ==> g == gs[0] || g in gs[1..];
    }
  }

  /** No key occurs in two groups. */
  predicate UniqueKeys(gs: seq<GroupTotal>)
  {
    gs == [] || (gs[0].key !in GroupKeys(gs[1..]) && UniqueKeys(gs[1..]))
  }

  lemma {:induction false} UniqueKeysIndexed(gs: seq<GroupTotal>)
    requires UniqueKeys(gs)
    ensures forall i, j :: 0 <= i < j < |gs| ==> gs[i].key != gs[j].key
  {
    if gs != [] {
      UniqueKeysIndexed(gs[1..]);
      GroupKeysMembership(gs[1..]);
      assert forall j :: 1 <= j < |gs| ==> gs[j] == gs[1..][j - 1] && gs[j] in gs[1..];
    }
  }

  /** Sums never increase from one group to the next. */
  predicate SortedDescending(gs: seq<GroupTotal>)
  {
    |gs| <= 1 || (gs[0].amount >= gs[1].amount && SortedDescending(gs[1..]))
  }

  /** The first group of a descending list has the largest sum. */
  lemma {:induction false} SortedDescendingFirstIsMax(gs: seq<GroupTotal>)
    requires SortedDescending(gs) && gs != []
    ensures forall g :: g in gs ==> g.amount <= gs[0].amount
  {
    if |gs| > 1 {
      SortedDescendingFirstIsMax(gs[1..]);
      assert forall g :: g in gs ==> g == gs[0] || g in gs[1..];
    }
  }

  function TotalsFor(ks: seq<string>, rows: seq<Txn>, dim: Dimension): (r: seq<GroupTotal>)
    ensures |r| == |ks|
    ensures forall i :: 0 <= i < |r| ==> r[i] == GroupTotal(ks[i], GroupSum(rows, dim, ks[i]))
  {
    if ks == [] then []
    else [GroupTotal(ks[0], GroupSum(rows, dim, ks[0]))] + TotalsFor(ks[1..], rows, dim)
  }

  /** The groups' keys are exactly the listed keys. */
  lemma {:induction false} TotalsForKeys(ks: seq<string>, rows: seq<Txn>, dim: Dimension)
    ensures forall k :: k in GroupKeys(TotalsFor(ks, rows, dim)) <==> k in ks
  {
    if ks != [] {
      TotalsForKeys(ks[1..], rows, dim);
      var r := TotalsFor(ks, rows, dim);
      assert r[1..] == TotalsFor(ks[1..], rows, dim);
      assert forall k :: k in ks <==> k == ks[0] || k in ks[1..];
    }
  }

  /** Distinct listed keys give groups with unique keys. */
  lemma {:induction false} TotalsForUnique(ks: seq<string>, rows: seq<Txn>, dim: Dimension)
    requires forall i, j :: 0 <= i < j < |ks| ==> ks[i] != ks[j]
    ensures UniqueKeys(TotalsFor(ks, rows, dim))
  {
    if ks != [] {
      var tail := ks[1..];
      assert forall i :: 0 <= i < |tail| ==> tail[i] == ks[i + 1];
      TotalsForUnique(tail, rows, dim);
      TotalsForKeys(tail, rows, dim);
      var r := TotalsFor(ks, rows, dim);
      assert r[1..] == TotalsFor(tail, rows, dim);
      assert ks[0] !in tail;
    }
  }

  /** The groups of the rows by `dim`, one per present value, with its sum. */
  function GroupTotals(rows: seq<Txn>, dim: Dimension): (r: seq<GroupTotal>)
    ensures UniqueKeys(r)
    ensures GroupKeys(r) == KeysIn(rows, dim)
    ensures forall g :: g in r ==> g.amount == GroupSum(rows, dim, g.key)
  {
    var ks := DistinctKeys(rows, dim);
    TotalsForKeys(ks, rows, dim);
    TotalsForUnique(ks, rows, dim);
    TotalsFor(ks, rows, dim)
  }

  function InsertDescending(g: GroupTotal, s: seq<GroupTotal>): (r: seq<GroupTotal>)
    requires SortedDescending(s)
    ensures |r| == |s| + 1
    ensures r[0] == g || (s != [] && r[0] == s[0])
    ensures SortedDescending(r)
  {
    if s == [] || g.amount >= s[0].amount then
      assert ([g] + s)[1..] == s;
      [g] + s
    else
      var rest := InsertDescending(g, s[1..]);
      assert ([s[0]] + rest)[1..] == rest;
      [s[0]] + rest
  }

  /** Inserting a group adds exactly that group. */
  lemma {:induction false} InsertDescendingPermutes(g: GroupTotal, s: seq<GroupTotal>)
    requires SortedDescending(s)
    ensures multiset(InsertDescending(g, s)) == multiset(s) + multiset{g}
  {
    if s != [] && g.amount < s[0].amount {
      InsertDescendingPermutes(g, s[1..]);
      assert s == [s[0]] + s[1..];
    }
  }

  /** Inserting a group adds its key, and keeps keys unique if it is new. */
  lemma {:induction false} InsertDescendingKeys(g: GroupTotal, s: seq<GroupTotal>)
    requires SortedDescending(s)
    ensures GroupKeys(InsertDescending(g, s)) == GroupKeys(s) + {g.key}
    ensures UniqueKeys(s) && g.key !in GroupKeys(s) ==> UniqueKeys(InsertDescending(g, s))
  {
    var r := InsertDescending(g, s);
    if s == [] || g.amount >= s[0].amount {
      assert r[1..] == s;
    } else {
      var rest := InsertDescending(g, s[1..]);
      InsertDescendingKeys(g, s[1..]);
      assert r[1..] == rest;
      assert GroupKeys(r) == {s[0].key} + GroupKeys(rest);
      assert GroupKeys(s) == {s[0].key} + GroupKeys(s[1..]);
    }
  }

  /** `.sort("amount", descending=True)`: the same groups, non-increasing sums. */
  function SortDescending(s: seq<GroupTotal>): (r: seq<GroupTotal>)
    ensures |r| == |s|
    ensures SortedDescending(r)
    ensures multiset(r) == multiset(s)
  {
    if s == [] then []
    else
      assert s == [s[0]] + s[1..];
      InsertDescendingPermutes(s[0], SortDescending(s[1..]));
      InsertDescending(s[0], SortDescending(s[1..]))
  }

  /** Sorting keeps the set of keys and their uniqueness. */
  lemma {:induction false} SortDescendingKeys(s: seq<GroupTotal>)
    ensures GroupKeys(SortDescending(s)) == GroupKeys(s)
    ensures UniqueKeys(s) ==> UniqueKeys(SortDescending(s))
  {
    if s != [] {
      SortDescendingKeys(s[1..]);
      InsertDescendingKeys(s[0], SortDescending(s[1..]));
    }
  }

  /** `group_by(dim).agg(sum).sort(descending)`: one group per present value,
      with its summed amount, largest first. */
  function RankedGroups(rows: seq<Txn>, dim: Dimension): (r: seq<GroupTotal>)
    ensures SortedDescending(r)
    ensures UniqueKeys(r)
    ensures GroupKeys(r) == KeysIn(rows, dim)
    ensures forall g :: g in r ==> g.amount == GroupSum(rows, dim, g.key)
  {
    var gs := GroupTotals(rows, dim);
    var r := SortDescending(gs);
    SortDescendingKeys(gs);
    assert forall g :: g in r ==> g in multiset(gs);
    r
  }

  /** Rows whose `dim` value is one of `ks`. */
  function KeyIn(dim: Dimension, ks: seq<string>): Txn -> bool
  {
    (t: Txn) => KeyOf(t, dim) in ks
  }

  /** Summed amount of the groups. */
  function GroupAmount(gs: seq<GroupTotal>): real
  {
    if gs == [] then 0.0 else gs[0].amount + GroupAmount(gs[1..])
  }

  /** The rows keyed by one of `ks` split into those keyed by its first key and
      those keyed by one of the others. */
  lemma KeyInSplit(dim: Dimension, ks: seq<string>)
    requires ks != [] && ks[0] !in ks[1..]
    ensures forall x :: HasKey(dim, ks[0])(x) == (KeyIn(dim, ks)(x) && HasKey(dim, ks[0])(x))
    ensures forall x :: KeyIn(dim, ks[1..])(x) == (KeyIn(dim, ks)(x) && !HasKey(dim, ks[0])(x))
  {
    assert forall x :: x in ks <==> x == ks[0] || x in ks[1..] by {
      assert ks == [ks[0]] + ks[1..];
    }
  }

  /** The group sums of the keys `ks`, added up. */
  function KeySums(ks: seq<string>, rows: seq<Txn>, dim: Dimension): real
  {
    if ks == [] then 0.0 else GroupSum(rows, dim, ks[0]) + KeySums(ks[1..], rows, dim)
  }

  lemma {:induction false} TotalsForAmount(ks: seq<string>, rows: seq<Txn>, dim: Dimension)
    ensures GroupAmount(TotalsFor(ks, rows, dim)) == KeySums(ks, rows, dim)
  {
    if ks != [] {
      TotalsForAmount(ks[1..], rows, dim);
      var r := TotalsFor(ks, rows, dim);
      assert r[1..] == TotalsFor(ks[1..], rows, dim);
    }
  }

  /** For distinct keys, adding up their group sums sums the rows with one of
      those keys. */
  lemma {:induction false} KeySumsFiltered(ks: seq<string>, rows: seq<Txn>, dim: Dimension)
    requires forall i, j :: 0 <= i < j < |ks| ==> ks[i] != ks[j]
    ensures KeySums(ks, rows, dim) == Sum(Filter(rows, KeyIn(dim, ks)))
  {
    if ks == [] {
      FilterNone(rows, KeyIn(dim, ks));
    } else {
      var k := ks[0];
      assert forall x :: 0 <= x < |ks[1..]| ==> ks[1..][x] == ks[x + 1];
      assert k !in ks[1..];
      KeySumsFiltered(ks[1..], rows, dim);
      KeyInSplit(dim, ks);
      FilterSplitSum(rows, KeyIn(dim, ks), HasKey(dim, k), HasKey(dim, k), KeyIn(dim, ks[1..]));
    }
  }

  /** The groups share out the rows: their sums add up to the total amount
      (the pie chart's slices make up the whole). */
  lemma GroupTotalsSum(rows: seq<Txn>, dim: Dimension)
    ensures GroupAmount(GroupTotals(rows, dim)) == Sum(rows)
  {
    var ks := DistinctKeys(rows, dim);
    TotalsForAmount(ks, rows, dim);
    KeySumsFiltered(ks, rows, dim);
    assert forall t :: t in rows ==> KeyOf(t, dim) in KeysIn(rows, dim);
    FilterAll(rows, KeyIn(dim, ks));
  }

  lemma {:induction false} InsertDescendingAmount(g: GroupTotal, s: seq<GroupTotal>)
    requires SortedDescending(s)
    ensures GroupAmount(InsertDescending(g, s)) == g.amount + GroupAmount(s)
  {
    if s != [] && g.amount < s[0].amount {
      InsertDescendingAmount(g, s[1..]);
      var rest := InsertDescending(g, s[1..]);
      assert ([s[0]] + rest)[1..] == rest;
    } else {
      assert ([g] + s)[1..] == s;
    }
  }

  lemma {:induction false} SortDescendingAmount(s: seq<GroupTotal>)
    ensures GroupAmount(SortDescending(s)) == GroupAmount(s)
  {
    if s != [] {
      SortDescendingAmount(s[1..]);
      InsertDescendingAmount(s[0], SortDescending(s[1..]));
    }
  }

  /** Ranking reorders the groups without changing their total. */
  lemma RankedGroupsSum(rows: seq<Txn>, dim: Dimension)
    ensures GroupAmount(RankedGroups(rows, dim)) == Sum(rows)
  {
    SortDescendingAmount(GroupTotals(rows, dim));
    GroupTotalsSum(rows, dim);
  }
}
