/**
 * The summary step of the command-line analyzer: one pass over the periods
 * that collects the period summary rows and the monthly breakdown rows for
 * the HTML report.
 */
module Analyzer {
  import opened Frames
  import opened Monthly
  import opened Reports

  /** The inner loop over `monthly_data.iterrows()`: appends each bucket tagged with the period's name. */
  method AppendTagged(acc: seq<MonthlyRow>, name: string, buckets: seq<MonthlyBucket>)
    returns (result: seq<MonthlyRow>)
    ensures result == acc + Tag(name, buckets)
  {
    result := acc;
    for j := 0 to |buckets|
      invariant result == acc + Tag(name, buckets[..j])
    {
      assert Tag(name, buckets[..j + 1]) == Tag(name, buckets[..j]) + [MonthlyRow(name, buckets[j])];
      result := result + [MonthlyRow(name, buckets[j])];
    }
    assert buckets[..|buckets|] == buckets;
  }

  /**
   * For each period in turn, slice the enriched table; when the slice is not
   * empty, append its summary row, then append its monthly buckets, each
   * tagged with the period's name.
   */
  method SummaryTables(frame: seq<EnrichedRow>, periods: seq<Period>)
    returns (periodSummary: seq<SummaryRow>, monthlySummary: seq<MonthlyRow>)
    ensures periodSummary == SummaryRows(frame, periods)
    ensures monthlySummary == MonthlyRows(frame, periods)
  {
    periodSummary, monthlySummary := [], [];
    for i := 0 to |periods|
      invariant periodSummary == SummaryRows(frame, periods[..i])
      invariant monthlySummary == MonthlyRows(frame, periods[..i])
    {
      var p := periods[i];
      var periodData := Slice(frame, EnrichedDate, p);
      ConcatMapSnoc(SummaryOf(frame), periods, i);
      ConcatMapSnoc(MonthlyOf(frame), periods, i);
      if |periodData| > 0 {
        periodSummary := periodSummary + [SummaryRow(p, Aggregate(periodData))];
        monthlySummary := AppendTagged(monthlySummary, p.name, GroupByMonth(periodData));
      }
    }
    assert periods[..|periods|] == periods;
  }
}
