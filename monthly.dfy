/**
 * Monthly aggregation of a period's rows (`groupby([year, month]).agg(...)`)
 * and the whole-period summary, with the same three reductions: sum of
 * volume, unweighted mean of the close, sum of dollar volume.
 */
module Monthly {
  import opened Dates
  import opened Frames

  /** A group-by key: calendar year and month. */
  datatype YearMonth = YearMonth(year: int, month: int)

  function MonthOf(d: Date): YearMonth {
    YearMonth(d.year, d.month)
  }

  /** The order pandas sorts group keys in: by year, then by month. */
  predicate Before(a: YearMonth, b: YearMonth) {
    a.year < b.year || (a.year == b.year && a.month < b.month)
  }

  predicate StrictlyAscending(ks: seq<YearMonth>) {
    forall i, j :: 0 <= i < j < |ks| ==> Before(ks[i], ks[j])
  }

  // ---------------------------------------------------------------------------
  // Sorted, de-duplicated keys
  // ---------------------------------------------------------------------------

  /** Adds a key to a strictly ascending key list, keeping it strictly ascending and free of repeats. */
  function Insert(k: YearMonth, ks: seq<YearMonth>): (r: seq<YearMonth>)
    requires StrictlyAscending(ks)
    ensures StrictlyAscending(r)
    ensures forall x :: x in r <==> x == k || x in ks
  {
    if ks == [] then [k]
    else if k == ks[0] then ks
    else if Before(k, ks[0]) then [k] + ks
    else
      var rest := Insert(k, ks[1..]);
      assert forall x :: x in rest ==> Before(ks[0], x);
      assert forall j :: 0 < j < |[ks[0]] + rest| ==> ([ks[0]] + rest)[j] in rest;
      [ks[0]] + rest
  }

  /** The distinct keys of a list, in ascending order. */
  function SortedDistinct(ks: seq<YearMonth>): (r: seq<YearMonth>)
    ensures StrictlyAscending(r)
    ensures forall x :: x in r <==> x in ks
  {
    if ks == [] then [] else Insert(ks[0], SortedDistinct(ks[1..]))
  }

  /** The key of every row, in table order. */
  function MonthsOf(rows: seq<EnrichedRow>): (ks: seq<YearMonth>)
    ensures |ks| == |rows|
    ensures forall i :: 0 <= i < |rows| ==> ks[i] == MonthOf(rows[i].date)
  {
    seq(|rows|, i requires 0 <= i < |rows| => MonthOf(rows[i].date))
  }

  /** The group keys of a period's rows: every month present, once, ascending. */
  function GroupKeys(rows: seq<EnrichedRow>): (ks: seq<YearMonth>)
    ensures StrictlyAscending(ks)
    ensures forall k :: k in ks <==> k in MonthsOf(rows)
  {
    SortedDistinct(MonthsOf(rows))
  }

  // ---------------------------------------------------------------------------
  // Reductions
  // ---------------------------------------------------------------------------

  /** The three aggregated columns. */
  datatype Column = Volume | Close | DollarVolume

  function Value(r: EnrichedRow, c: Column): nat {
    match c
    case Volume => r.volume
    case Close => r.close
    case DollarVolume => r.dollarVolume
  }

  /** `column.sum()` over some rows. */
  function Sum(rows: seq<EnrichedRow>, c: Column): nat {
    if rows == [] then 0 else Value(rows[0], c) + Sum(rows[1..], c)
  }

  /** `Close.mean()`: the unweighted mean of the closing price, in cents. */
  function MeanClose(rows: seq<EnrichedRow>): real
    requires |rows| > 0
  {
    Sum(rows, Close) as real / |rows| as real
  }

  /** Total volume, mean close and total dollar volume of a group of rows. */
  datatype Totals = Totals(totalVolume: nat, avgPrice: real, totalDollarVolume: nat)

  function Aggregate(rows: seq<EnrichedRow>): Totals
    requires |rows| > 0
  {
    Totals(Sum(rows, Volume), MeanClose(rows), Sum(rows, DollarVolume))
  }

  /** The rows of one calendar month, in table order. */
  function InMonth(rows: seq<EnrichedRow>, k: YearMonth): (s: seq<EnrichedRow>)
    ensures |s| <= |rows|
    ensures forall r :: r in s <==> r in rows && MonthOf(r.date) == k
  {
    if rows == [] then []
    else (if MonthOf(rows[0].date) == k then [rows[0]] else []) + InMonth(rows[1..], k)
  }

  /** One output row of the monthly group-by. */
  datatype MonthlyBucket = MonthlyBucket(month: YearMonth, totals: Totals)

  /** A month that some row belongs to has rows. */
  lemma InMonthNonEmpty(rows: seq<EnrichedRow>, k: YearMonth)
    requires k in MonthsOf(rows)
    ensures |InMonth(rows, k)| > 0
  {
    var i :| 0 <= i < |rows| && MonthsOf(rows)[i] == k;
    assert rows[i] in InMonth(rows, k);
  }

  function BucketsFor(rows: seq<EnrichedRow>, ks: seq<YearMonth>): (buckets: seq<MonthlyBucket>)
    requires forall k :: k in ks ==> |InMonth(rows, k)| > 0
    ensures |buckets| == |ks|
    ensures forall i :: 0 <= i < |ks| ==>
      && buckets[i].month == ks[i]
      && |InMonth(rows, ks[i])| > 0
      && buckets[i].totals == Aggregate(InMonth(rows, ks[i]))
  {
    if ks == [] then []
    else [MonthlyBucket(ks[0], Aggregate(InMonth(rows, ks[0])))] + BucketsFor(rows, ks[1..])
  }

  /**
   * `groupby([year, month]).agg({Volume: sum, Close: mean, DollarVolume: sum})`:
   * one bucket per month present in the rows and no other, in ascending
   * (year, month) order, each holding the reductions of that month's rows.
   */
  function GroupByMonth(rows: seq<EnrichedRow>): (buckets: seq<MonthlyBucket>)
    ensures forall i, j :: 0 <= i < j < |buckets| ==> Before(buckets[i].month, buckets[j].month)
    ensures forall k :: k in MonthsOf(rows) <==> exists i :: 0 <= i < |buckets| && buckets[i].month == k
    ensures forall i :: 0 <= i < |buckets| ==>
      && |InMonth(rows, buckets[i].month)| > 0
      && buckets[i].totals == Aggregate(InMonth(rows, buckets[i].month))
  {
    var ks := GroupKeys(rows);
    forall k | k in ks ensures |InMonth(rows, k)| > 0 {
      InMonthNonEmpty(rows, k);
    }
    var buckets := BucketsFor(rows, ks);
    assert forall k :: k in ks ==> exists i :: 0 <= i < |buckets| && buckets[i].month == k by {
      forall k | k in ks ensures exists i :: 0 <= i < |buckets| && buckets[i].month == k {
        var i :| 0 <= i < |ks| && ks[i] == k;
        assert buckets[i].month == k;
      }
    }
    buckets
  }

  /** The whole-period summary: no summary at all for a period without rows. */
  function Summarize(rows: seq<EnrichedRow>): (summary: Option<Totals>)
    ensures summary.None? <==> |rows| == 0
  {
    if |rows| == 0 then None else Some(Aggregate(rows))
  }

  function TotalVolume(buckets: seq<MonthlyBucket>): nat {
    if buckets == [] then 0 else buckets[0].totals.totalVolume + TotalVolume(buckets[1..])
  }

  function TotalDollarVolume(buckets: seq<MonthlyBucket>): nat {
    if buckets == [] then 0 else buckets[0].totals.totalDollarVolume + TotalDollarVolume(buckets[1..])
  }

  // ---------------------------------------------------------------------------
  // Reconciliation of the monthly buckets with the period summary
  // ---------------------------------------------------------------------------

  /** Sum of a column over the rows of each listed month. */
  function SumOverMonths(rows: seq<EnrichedRow>, ks: seq<YearMonth>, c: Column): nat {
    if ks == [] then 0 else Sum(InMonth(rows, ks[0]), c) + SumOverMonths(rows, ks[1..], c)
  }

  lemma {:induction false} SumAppend(xs: seq<EnrichedRow>, ys: seq<EnrichedRow>, c: Column)
    ensures Sum(xs + ys, c) == Sum(xs, c) + Sum(ys, c)
    decreases |xs|
  {
    if xs == [] {
      assert xs + ys == ys;
    } else {
      assert (xs + ys)[1..] == xs[1..] + ys;
      SumAppend(xs[1..], ys, c);
    }
  }

  lemma {:induction false} BucketTotals(rows: seq<EnrichedRow>, ks: seq<YearMonth>)
    requires forall k :: k in ks ==> |InMonth(rows, k)| > 0
    ensures TotalVolume(BucketsFor(rows, ks)) == SumOverMonths(rows, ks, Volume)
    ensures TotalDollarVolume(BucketsFor(rows, ks)) == SumOverMonths(rows, ks, DollarVolume)
    decreases |ks|
  {
    if ks != [] {
      var b := BucketsFor(rows, ks);
      assert b[1..] == BucketsFor(rows, ks[1..]);
      BucketTotals(rows, ks[1..]);
    }
  }

  /** Adding one row in front adds its value to exactly the one month it belongs to. */
  lemma {:induction false} SumOverMonthsCons(r: EnrichedRow, rest: seq<EnrichedRow>, ks: seq<YearMonth>, c: Column)
    requires StrictlyAscending(ks)
    ensures SumOverMonths([r] + rest, ks, c)
      == (if MonthOf(r.date) in ks then Value(r, c) else 0) + SumOverMonths(rest, ks, c)
    decreases |ks|
  {
    if ks != [] {
      assert ([r] + rest)[1..] == rest;
      var head := if MonthOf(r.date) == ks[0] then [r] else [];
      assert InMonth([r] + rest, ks[0]) == head + InMonth(rest, ks[0]);
      SumAppend(head, InMonth(rest, ks[0]), c);
      assert Sum(head, c) == if MonthOf(r.date) == ks[0] then Value(r, c) else 0;
      assert StrictlyAscending(ks[1..]);
      SumOverMonthsCons(r, rest, ks[1..], c);
      if MonthOf(r.date) == ks[0] {
        assert MonthOf(r.date) !in ks[1..];
      }
    }
  }

  /** Summing month by month over distinct months that cover every row gives the plain sum. */
  lemma {:induction false} SumOverMonthsCovers(rows: seq<EnrichedRow>, ks: seq<YearMonth>, c: Column)
    requires StrictlyAscending(ks)
    requires forall r :: r in rows ==> MonthOf(r.date) in ks
    ensures SumOverMonths(rows, ks, c) == Sum(rows, c)
    decreases |rows|
  {
    if rows == [] {
      SumOverMonthsEmpty(ks, c);
    } else {
      assert rows == [rows[0]] + rows[1..];
      SumOverMonthsCons(rows[0], rows[1..], ks, c);
      SumOverMonthsCovers(rows[1..], ks, c);
    }
  }

  lemma {:induction false} SumOverMonthsEmpty(ks: seq<YearMonth>, c: Column)
    ensures SumOverMonths([], ks, c) == 0
    decreases |ks|
  {
    if ks != [] {
      SumOverMonthsEmpty(ks[1..], c);
    }
  }

  /**
   * The monthly buckets reconcile with the period summary: their volumes and
   * their dollar volumes add up to the period's totals.
   */
  lemma MonthlyTotalsReconcile(rows: seq<EnrichedRow>)
    requires |rows| > 0
    ensures TotalVolume(GroupByMonth(rows)) == Summarize(rows).value.totalVolume
    ensures TotalDollarVolume(GroupByMonth(rows)) == Summarize(rows).value.totalDollarVolume
  {
    var ks := GroupKeys(rows);
    forall k | k in ks ensures |InMonth(rows, k)| > 0 {
      InMonthNonEmpty(rows, k);
    }
    forall r | r in rows ensures MonthOf(r.date) in ks {
      var i :| 0 <= i < |rows| && rows[i] == r;
      assert MonthsOf(rows)[i] == MonthOf(r.date);
    }
    BucketTotals(rows, ks);
    SumOverMonthsCovers(rows, ks, Volume);
    SumOverMonthsCovers(rows, ks, DollarVolume);
  }

  /** The mean close lies between any lower and upper bound of the closes it averages. */
  lemma MeanCloseBounded(rows: seq<EnrichedRow>, lo: nat, hi: nat)
    requires |rows| > 0
    requires forall r :: r in rows ==> lo <= r.close <= hi
    ensures lo as real <= MeanClose(rows) <= hi as real
  {
    SumCloseBounded(rows, lo, hi);
    var n := |rows| as real;
    var s := Sum(rows, Close) as real;
    assert lo as real * n <= s <= hi as real * n;
    DivideBounds(lo as real, s, hi as real, n);
  }

  lemma DivideBounds(lo: real, s: real, hi: real, n: real)
    requires n > 0.0 && lo * n <= s <= hi * n
    ensures lo <= s / n <= hi
  {
    assert s / n * n == s;
  }

  lemma {:induction false} SumCloseBounded(rows: seq<EnrichedRow>, lo: nat, hi: nat)
    requires forall r :: r in rows ==> lo <= r.close <= hi
    ensures |rows| * lo <= Sum(rows, Close) <= |rows| * hi
    decreases |rows|
  {
    if rows != [] {
      assert rows[0] in rows;
      assert forall r :: r in rows[1..] ==> r in rows;
      SumCloseBounded(rows[1..], lo, hi);
      Distribute(|rows| - 1, lo);
      Distribute(|rows| - 1, hi);
    }
  }

  lemma Distribute(n: nat, x: nat)
    ensures (n + 1) * x == n * x + x
  {
  }
}
