/**
 * The x-axis month ticks of the daily comparison charts: one tick per
 * calendar month touched by the first period, at the offset of that month's
 * first day (the period start itself for the first month).
 */
module MonthTicks {
  import opened Dates

  /** How many calendar months the interval [start, end] touches (none when it is empty). */
  function MonthsTouched(start: Date, end: Date): (n: nat)
    requires ValidDate(start) && ValidDate(end)
    ensures n > 0 <==> DateLe(start, end)
  {
    if DateLe(start, end) then
      MonthIndexMonotone(start, end);
      MonthIndex(end) - MonthIndex(start) + 1
    else 0
  }

  /** The date of the i-th tick: the period start, then the first of each following month. */
  function TickDate(start: Date, i: nat): (d: Date)
    requires ValidDate(start)
    ensures ValidDate(d) && MonthIndex(d) == MonthIndex(start) + i
    ensures i > 0 ==> d.day == 1
  {
    if i == 0 then start else FirstOfMonth(MonthIndex(start) + i)
  }

  /** Each step of the loop moves from one tick date to the next, forward in time. */
  lemma TickDateStep(start: Date, i: nat)
    requires ValidDate(start)
    ensures NextMonthStart(TickDate(start, i)) == TickDate(start, i + 1)
    ensures DaysSinceStart(TickDate(start, i), start) < DaysSinceStart(TickDate(start, i + 1), start)
  {
    var d := TickDate(start, i);
    NextMonthStartFacts(d);
    OrdinalOrder(d, TickDate(start, i + 1));
  }

  /** The offsets of the first n tick dates. */
  function TickOffsets(start: Date, n: nat): (xs: seq<int>)
    requires ValidDate(start)
    ensures |xs| == n
    ensures forall i :: 0 <= i < n ==> xs[i] == DaysSinceStart(TickDate(start, i), start)
  {
    if n == 0 then [] else TickOffsets(start, n - 1) + [DaysSinceStart(TickDate(start, n - 1), start)]
  }

  /** The month names of the first n tick dates. */
  function TickLabels(start: Date, n: nat): (names: seq<string>)
    requires ValidDate(start)
    ensures |names| == n
    ensures forall i :: 0 <= i < n ==> names[i] == MonthName(TickDate(start, i).month)
  {
    if n == 0 then [] else TickLabels(start, n - 1) + [MonthName(TickDate(start, n - 1).month)]
  }

  /** Tick dates strictly increase with their index. */
  lemma TickDatesIncreasing(start: Date, i: nat, j: nat)
    requires ValidDate(start) && i < j
    ensures DaysSinceStart(TickDate(start, i), start) < DaysSinceStart(TickDate(start, j), start)
  {
    MonthIndexStrict(TickDate(start, i), TickDate(start, j));
    OrdinalOrder(TickDate(start, i), TickDate(start, j));
  }

  /** Tick offsets start at 0 and strictly increase. */
  lemma TickOffsetsIncreasing(start: Date, n: nat)
    requires ValidDate(start)
    ensures n > 0 ==> TickOffsets(start, n)[0] == 0
    ensures forall i, j :: 0 <= i < j < n ==> TickOffsets(start, n)[i] < TickOffsets(start, n)[j]
  {
    forall i, j | 0 <= i < j < n ensures TickOffsets(start, n)[i] < TickOffsets(start, n)[j] {
      TickDatesIncreasing(start, i, j);
    }
  }

  /** When the last tick date is not past the end, every tick lies in [0, end - start]. */
  lemma TickOffsetsBounded(start: Date, end: Date, n: nat)
    requires ValidDate(start) && ValidDate(end) && n > 0
    requires DateLe(TickDate(start, n - 1), end)
    ensures forall i :: 0 <= i < n ==> 0 <= TickOffsets(start, n)[i] <= DaysSinceStart(end, start)
  {
    TickOffsetsIncreasing(start, n);
    OrdinalOrder(TickDate(start, n - 1), end);
  }

  /** The loop stops after exactly one tick per month touched by [start, end]. */
  lemma TickCountAtExit(start: Date, end: Date, n: nat)
    requires ValidDate(start) && ValidDate(end)
    requires !DateLe(TickDate(start, n), end)
    requires n > 0 ==> DateLe(TickDate(start, n - 1), end)
    ensures n == MonthsTouched(start, end)
  {
    if n > 0 {
      MonthIndexMonotone(TickDate(start, n - 1), end);
      FirstOfMonthLe(TickDate(start, n), end);
      DateLeTransitive(start, TickDate(start, n - 1), end);
      if n > 1 {
        MonthIndexStrict(start, TickDate(start, n - 1));
      }
    }
  }

  /**
   * The tick loop: starting at the period start, emit the offset and month
   * name, step to the first of the next month, and stop once past the end.
   */
  method Ticks(start: Date, end: Date) returns (ticks: seq<int>, labels: seq<string>)
    requires ValidDate(start) && ValidDate(end)
    ensures |ticks| == |labels| == MonthsTouched(start, end)
    ensures ticks == TickOffsets(start, |ticks|) && labels == TickLabels(start, |labels|)
    ensures |ticks| > 0 ==> ticks[0] == 0 && labels[0] == MonthName(start.month)
    ensures forall i, j :: 0 <= i < j < |ticks| ==> ticks[i] < ticks[j]
    ensures forall i :: 0 <= i < |ticks| ==> 0 <= ticks[i] <= DaysSinceStart(end, start)
  {
    ticks, labels := [], [];
    var current := start;
    ghost var n: nat := 0;
    while DateLe(current, end)
      invariant |ticks| == n && current == TickDate(start, n)
      invariant ticks == TickOffsets(start, n) && labels == TickLabels(start, n)
      invariant n > 0 ==> DateLe(TickDate(start, n - 1), end)
      decreases MonthIndex(end) - MonthIndex(current) + 1
    {
      MonthIndexMonotone(current, end);
      ticks := ticks + [DaysSinceStart(current, start)];
      labels := labels + [MonthName(current.month)];
      TickDateStep(start, n);
      current := NextMonthStart(current);
      n := n + 1;
    }
    TickCountAtExit(start, end, n);
    TickOffsetsIncreasing(start, n);
    if n > 0 {
      TickOffsetsBounded(start, end, n);
    }
  }
}
