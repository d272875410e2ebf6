/**
 * The web front end's tables: the per-period monthly tables
 * (`monthly_data_all`), the merged month axis, the summary rows and the
 * flattened monthly breakdown.
 */
module App {
  import opened Dates
  import opened Frames
  import opened Monthly
  import opened Reports

  /**
   * For each period with data, its monthly group-by tagged with the
   * period's name, appended as one table.
   */
  method MonthlyDataAll(frame: seq<EnrichedRow>, periods: seq<Period>)
    returns (all: seq<seq<MonthlyRow>>)
    ensures all == MonthlyGroups(frame, periods)
  {
    all := [];
    for i := 0 to |periods|
      invariant all == MonthlyGroups(frame, periods[..i])
    {
      var p := periods[i];
      var periodData := Slice(frame, EnrichedDate, p);
      ConcatMapSnoc(GroupOf(frame), periods, i);
      if |periodData| > 0 {
        var monthlyData := Tag(p.name, GroupByMonth(periodData));
        all := all + [monthlyData];
      }
    }
    assert periods[..|periods|] == periods;
  }

  /** Every table in `monthly_data_all` is non-empty and tagged with one listed period's name. */
  lemma MonthlyDataAllTagged(frame: seq<EnrichedRow>, periods: seq<Period>)
    ensures forall g :: g in MonthlyGroups(frame, periods) ==>
      |g| > 0 && exists p :: p in periods && |PeriodRows(frame, p)| > 0 && g == MonthlyFor(frame, p)
  {
    ConcatMapMembers(GroupOf(frame), periods);
    forall g | g in MonthlyGroups(frame, periods)
      ensures |g| > 0 && exists p :: p in periods && |PeriodRows(frame, p)| > 0 && g == MonthlyFor(frame, p)
    {
      var p :| p in periods && g in GroupOf(frame)(p);
      var slice := PeriodRows(frame, p);
      var r := slice[0];
      assert r in slice;
      assert MonthOf(r.date) in MonthsOf(slice) by {
        assert MonthsOf(slice)[0] == MonthOf(r.date);
      }
    }
  }

  /** The months that appear in the monthly tables, each once, in ascending (year, month) order. */
  function MergedMonths(all: seq<seq<MonthlyRow>>): (ks: seq<YearMonth>)
    ensures StrictlyAscending(ks)
    ensures forall k :: k in ks <==> exists row :: row in Flatten(all) && row.bucket.month == k
  {
    var rows := Flatten(all);
    var months := seq(|rows|, i requires 0 <= i < |rows| => rows[i].bucket.month);
    assert forall row :: row in rows ==> row.bucket.month in months by {
      forall row | row in rows ensures row.bucket.month in months {
        var i :| 0 <= i < |rows| && rows[i] == row;
        assert months[i] == row.bucket.month;
      }
    }
    SortedDistinct(months)
  }

  /** The category labels of the monthly chart: the month name of each merged month. */
  function MergedMonthLabels(all: seq<seq<MonthlyRow>>): (labels: seq<string>)
    requires forall k :: k in MergedMonths(all) ==> 1 <= k.month <= 12
    ensures |labels| == |MergedMonths(all)|
    ensures forall i :: 0 <= i < |labels| ==> labels[i] == MonthName(MergedMonths(all)[i].month)
  {
    var ks := MergedMonths(all);
    seq(|ks|, i requires 0 <= i < |ks| => MonthName(ks[i].month))
  }

  /**
   * For the two periods of a run, the merged months are exactly the months in
   * which either period has a row, once each, in ascending order.
   */
  lemma MergedMonthsOfTwoPeriods(frame: seq<EnrichedRow>, p1: Period, p2: Period)
    ensures forall k :: k in MergedMonths(MonthlyGroups(frame, [p1, p2])) <==>
      k in MonthsOf(PeriodRows(frame, p1)) || k in MonthsOf(PeriodRows(frame, p2))
  {
    FlattenMonthlyGroups(frame, [p1, p2]);
    MonthlyRowsTwoPeriods(frame, p1, p2);
    MonthlyForMonths(frame, p1);
    MonthlyForMonths(frame, p2);
  }

  /** On a table of valid dates every merged month is a calendar month, so each has a name. */
  lemma MergedMonthsNamed(frame: seq<EnrichedRow>, p1: Period, p2: Period)
    requires AllDatesValid(frame, EnrichedDate)
    ensures forall k :: k in MergedMonths(MonthlyGroups(frame, [p1, p2])) ==> 1 <= k.month <= 12
  {
    MergedMonthsOfTwoPeriods(frame, p1, p2);
    SliceMonthsNamed(frame, p1);
    SliceMonthsNamed(frame, p2);
  }

  /** Every month of a slice of a table of valid dates is a calendar month. */
  lemma SliceMonthsNamed(frame: seq<EnrichedRow>, p: Period)
    requires AllDatesValid(frame, EnrichedDate)
    ensures forall k :: k in MonthsOf(PeriodRows(frame, p)) ==> 1 <= k.month <= 12
  {
    var slice := PeriodRows(frame, p);
    forall k | k in MonthsOf(slice) ensures 1 <= k.month <= 12 {
      var i :| 0 <= i < |slice| && MonthsOf(slice)[i] == k;
      assert slice[i] in frame;
      var j :| 0 <= j < |frame| && frame[j] == slice[i];
      assert ValidDate(EnrichedDate(frame[j]));
    }
  }

  /** The months of a period's monthly rows are the months of its slice. */
  lemma MonthlyForMonths(frame: seq<EnrichedRow>, p: Period)
    ensures forall k :: (exists row :: row in MonthlyFor(frame, p) && row.bucket.month == k) <==>
      k in MonthsOf(PeriodRows(frame, p))
  {
    var slice := PeriodRows(frame, p);
    var rows := MonthlyFor(frame, p);
    if |slice| > 0 {
      var buckets := GroupByMonth(slice);
      forall k | k in MonthsOf(slice)
        ensures exists row :: row in rows && row.bucket.month == k
      {
        var i :| 0 <= i < |buckets| && buckets[i].month == k;
        assert rows[i] in rows;
      }
    }
  }

  /** The summary rows: for each period with data, its totals. */
  method SummaryData(frame: seq<EnrichedRow>, periods: seq<Period>)
    returns (summary: seq<SummaryRow>)
    ensures summary == SummaryRows(frame, periods)
  {
    summary := [];
    for i := 0 to |periods|
      invariant summary == SummaryRows(frame, periods[..i])
    {
      var p := periods[i];
      var periodData := Slice(frame, EnrichedDate, p);
      ConcatMapSnoc(SummaryOf(frame), periods, i);
      if |periodData| > 0 {
        summary := summary + [SummaryRow(p, Aggregate(periodData))];
      }
    }
    assert periods[..|periods|] == periods;
  }

  /** The monthly breakdown: the rows of each table of `monthly_data_all`, table after table. */
  method MonthlyBreakdown(all: seq<seq<MonthlyRow>>) returns (breakdown: seq<MonthlyRow>)
    ensures breakdown == Flatten(all)
  {
    breakdown := [];
    for i := 0 to |all|
      invariant breakdown == Flatten(all[..i])
    {
      var monthlyData := all[i];
      ghost var before := breakdown;
      for j := 0 to |monthlyData|
        invariant breakdown == before + monthlyData[..j]
      {
        assert monthlyData[..j + 1] == monthlyData[..j] + [monthlyData[j]];
        breakdown := breakdown + [monthlyData[j]];
      }
      assert monthlyData[..|monthlyData|] == monthlyData;
      assert all[..i + 1][..i] == all[..i];
    }
    assert all[..|all|] == all;
  }

  /**
   * The breakdown built from `monthly_data_all` is the monthly table: each
   * period's months in ascending order, period after period as listed.
   */
  lemma BreakdownIsMonthlyTable(frame: seq<EnrichedRow>, periods: seq<Period>)
    ensures Flatten(MonthlyGroups(frame, periods)) == MonthlyRows(frame, periods)
    ensures |periods| == 2 ==>
      Flatten(MonthlyGroups(frame, periods)) == MonthlyFor(frame, periods[0]) + MonthlyFor(frame, periods[1])
  {
    FlattenMonthlyGroups(frame, periods);
    if |periods| == 2 {
      assert periods == [periods[0], periods[1]];
      MonthlyRowsTwoPeriods(frame, periods[0], periods[1]);
    }
  }
}
