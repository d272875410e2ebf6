/**
 * What both front ends build from the price table and the list of periods:
 * the fetch window, the normalised symbol, one summary row per period with
 * data, and the period-tagged monthly rows.
 */
module Reports {
  import opened Dates
  import opened Frames
  import opened Monthly

  // ---------------------------------------------------------------------------
  // Inputs
  // ---------------------------------------------------------------------------

  /** The fetch window: the earlier of the two starts and the later of the two ends. */
  function FetchWindow(p1: Period, p2: Period): (window: (Date, Date))
    ensures window.0 == p1.start || window.0 == p2.start
    ensures DateLe(window.0, p1.start) && DateLe(window.0, p2.start)
    ensures window.1 == p1.end || window.1 == p2.end
    ensures DateLe(p1.end, window.1) && DateLe(p2.end, window.1)
  {
    (MinDate(p1.start, p2.start), MaxDate(p1.end, p2.end))
  }

  /** Every date of either period lies inside the fetch window. */
  lemma FetchWindowCovers(p1: Period, p2: Period, d: Date)
    requires InPeriod(d, p1) || InPeriod(d, p2)
    ensures DateLe(FetchWindow(p1, p2).0, d) && DateLe(d, FetchWindow(p1, p2).1)
  {
    var w := FetchWindow(p1, p2);
    if InPeriod(d, p1) {
      DateLeTransitive(w.0, p1.start, d);
      DateLeTransitive(d, p1.end, w.1);
    } else {
      DateLeTransitive(w.0, p2.start, d);
      DateLeTransitive(d, p2.end, w.1);
    }
  }

  predicate IsLower(c: char) {
    'a' <= c <= 'z'
  }

  function UpperChar(c: char): char {
    if IsLower(c) then (c as int - 32) as char else c
  }

  /** `symbol.upper()` on ASCII letters: lower-case letters become capitals, every other character stays. */
  function Upper(s: string): (u: string)
    ensures |u| == |s|
    ensures forall i :: 0 <= i < |s| ==> !IsLower(u[i])
    ensures forall i :: 0 <= i < |s| ==> IsLower(s[i]) ==> u[i] as int == s[i] as int - 32
    ensures forall i :: 0 <= i < |s| ==> !IsLower(s[i]) ==> u[i] == s[i]
  {
    seq(|s|, i requires 0 <= i < |s| => UpperChar(s[i]))
  }

  /** Normalising an already normalised symbol changes nothing. */
  lemma UpperIdempotent(s: string)
    ensures Upper(Upper(s)) == Upper(s)
  {
  }

  // ---------------------------------------------------------------------------
  // Per-period products
  // ---------------------------------------------------------------------------

  /** A row of the period summary table: the period (its name and requested dates) and its totals. */
  datatype SummaryRow = SummaryRow(period: Period, totals: Totals)

  /** A row of the monthly breakdown: a monthly bucket tagged with its period's name. */
  datatype MonthlyRow = MonthlyRow(periodName: string, bucket: MonthlyBucket)

  function PeriodRows(frame: seq<EnrichedRow>, p: Period): seq<EnrichedRow> {
    Slice(frame, EnrichedDate, p)
  }

  /** The summary row a period contributes: none when its slice is empty. */
  function SummaryFor(frame: seq<EnrichedRow>, p: Period): (rows: seq<SummaryRow>)
    ensures |rows| == if |PeriodRows(frame, p)| == 0 then 0 else 1
    ensures |rows| == 1 ==> rows[0] == SummaryRow(p, Summarize(PeriodRows(frame, p)).value)
  {
    var slice := PeriodRows(frame, p);
    if |slice| == 0 then [] else [SummaryRow(p, Aggregate(slice))]
  }

  function Tag(name: string, buckets: seq<MonthlyBucket>): (rows: seq<MonthlyRow>)
    ensures |rows| == |buckets|
    ensures forall i :: 0 <= i < |buckets| ==> rows[i] == MonthlyRow(name, buckets[i])
  {
    seq(|buckets|, i requires 0 <= i < |buckets| => MonthlyRow(name, buckets[i]))
  }

  /** The monthly rows a period contributes: its group-by buckets tagged with its name; none when its slice is empty. */
  function MonthlyFor(frame: seq<EnrichedRow>, p: Period): (rows: seq<MonthlyRow>)
    ensures |PeriodRows(frame, p)| == 0 ==> rows == []
    ensures forall i :: 0 <= i < |rows| ==> rows[i].periodName == p.name
    ensures forall i, j :: 0 <= i < j < |rows| ==> Before(rows[i].bucket.month, rows[j].bucket.month)
  {
    var slice := PeriodRows(frame, p);
    if |slice| == 0 then [] else Tag(p.name, GroupByMonth(slice))
  }

  // ---------------------------------------------------------------------------
  // Tables over the list of periods, in the order the periods are listed
  // ---------------------------------------------------------------------------

  /** The rows each period contributes, period after period. */
  function ConcatMap<P, T>(f: P -> seq<T>, ps: seq<P>): seq<T> {
    if ps == [] then [] else ConcatMap(f, ps[..|ps| - 1]) + f(ps[|ps| - 1])
  }

  function Flatten<T>(groups: seq<seq<T>>): seq<T> {
    if groups == [] then [] else Flatten(groups[..|groups| - 1]) + groups[|groups| - 1]
  }

  function SummaryOf(frame: seq<EnrichedRow>): Period -> seq<SummaryRow> {
    p => SummaryFor(frame, p)
  }

  function MonthlyOf(frame: seq<EnrichedRow>): Period -> seq<MonthlyRow> {
    p => MonthlyFor(frame, p)
  }

  /** A period's monthly table as one entry of `monthly_data_all`: absent when its slice is empty. */
  function GroupOf(frame: seq<EnrichedRow>): Period -> seq<seq<MonthlyRow>> {
    p => if |PeriodRows(frame, p)| == 0 then [] else [MonthlyFor(frame, p)]
  }

  /** The period summary table. */
  function SummaryRows(frame: seq<EnrichedRow>, ps: seq<Period>): seq<SummaryRow> {
    ConcatMap(SummaryOf(frame), ps)
  }

  /** The monthly breakdown table. */
  function MonthlyRows(frame: seq<EnrichedRow>, ps: seq<Period>): seq<MonthlyRow> {
    ConcatMap(MonthlyOf(frame), ps)
  }

  /** The per-period monthly tables, one for each period whose slice is not empty. */
  function MonthlyGroups(frame: seq<EnrichedRow>, ps: seq<Period>): seq<seq<MonthlyRow>> {
    ConcatMap(GroupOf(frame), ps)
  }

  /** One more period appends its rows to the table. */
  lemma ConcatMapSnoc<P, T>(f: P -> seq<T>, ps: seq<P>, i: nat)
    requires i < |ps|
    ensures ConcatMap(f, ps[..i + 1]) == ConcatMap(f, ps[..i]) + f(ps[i])
  {
    assert ps[..i + 1][..i] == ps[..i];
  }

  /** A row is in the table exactly when some listed period contributes it. */
  lemma {:induction false} ConcatMapMembers<P, T>(f: P -> seq<T>, ps: seq<P>)
    ensures forall x :: x in ConcatMap(f, ps) <==> exists p :: p in ps && x in f(p)
    decreases |ps|
  {
    if ps != [] {
      var init, last := ps[..|ps| - 1], ps[|ps| - 1];
      ConcatMapMembers(f, init);
      assert ps == init + [last];
    }
  }

  /** The table of a list of periods is the tables of its parts, one after the other. */
  lemma {:induction false} ConcatMapAppend<P, T>(f: P -> seq<T>, ps: seq<P>, qs: seq<P>)
    ensures ConcatMap(f, ps + qs) == ConcatMap(f, ps) + ConcatMap(f, qs)
    decreases |qs|
  {
    if qs == [] {
      assert ps + qs == ps;
    } else {
      var init, last := qs[..|qs| - 1], qs[|qs| - 1];
      var all := ps + qs;
      assert all[..|all| - 1] == ps + init && all[|all| - 1] == last;
      ConcatMapAppend(f, ps, init);
    }
  }

  lemma {:induction false} FlattenAppend<T>(xs: seq<seq<T>>, ys: seq<seq<T>>)
    ensures Flatten(xs + ys) == Flatten(xs) + Flatten(ys)
    decreases |ys|
  {
    if ys == [] {
      assert xs + ys == xs;
    } else {
      var init, last := ys[..|ys| - 1], ys[|ys| - 1];
      var all := xs + ys;
      assert all[..|all| - 1] == xs + init && all[|all| - 1] == last;
      FlattenAppend(xs, init);
    }
  }

  /** Flattening per-period groups gives the table of the flattened parts. */
  lemma {:induction false} FlattenConcatMap<P, T>(g: P -> seq<seq<T>>, f: P -> seq<T>, ps: seq<P>)
    requires forall p :: Flatten(g(p)) == f(p)
    ensures Flatten(ConcatMap(g, ps)) == ConcatMap(f, ps)
    decreases |ps|
  {
    if ps != [] {
      var init, last := ps[..|ps| - 1], ps[|ps| - 1];
      FlattenConcatMap(g, f, init);
      FlattenAppend(ConcatMap(g, init), g(last));
    }
  }

  /**
   * Summary rows come one per period with data, each holding that period's
   * totals; a period without data has none.
   */
  lemma SummaryRowsPerPeriod(frame: seq<EnrichedRow>, ps: seq<Period>)
    ensures forall row :: row in SummaryRows(frame, ps) ==>
      && row.period in ps
      && |PeriodRows(frame, row.period)| > 0
      && Summarize(PeriodRows(frame, row.period)) == Some(row.totals)
    ensures forall p :: p in ps && |PeriodRows(frame, p)| > 0 ==>
      SummaryRow(p, Summarize(PeriodRows(frame, p)).value) in SummaryRows(frame, ps)
    ensures forall p :: p in ps && |PeriodRows(frame, p)| == 0 ==>
      forall row :: row in SummaryRows(frame, ps) ==> row.period != p
  {
    ConcatMapMembers(SummaryOf(frame), ps);
    forall p | p in ps && |PeriodRows(frame, p)| > 0
      ensures SummaryRow(p, Summarize(PeriodRows(frame, p)).value) in SummaryRows(frame, ps)
    {
      assert SummaryRow(p, Summarize(PeriodRows(frame, p)).value) in SummaryOf(frame)(p);
    }
  }

  /** Each period's summary totals equal the sums over that period's monthly rows. */
  lemma SummaryReconcilesWithMonthly(frame: seq<EnrichedRow>, p: Period)
    requires |PeriodRows(frame, p)| > 0
    ensures var totals := SummaryFor(frame, p)[0].totals;
      && totals.totalVolume == TotalVolume(Buckets(MonthlyFor(frame, p)))
      && totals.totalDollarVolume == TotalDollarVolume(Buckets(MonthlyFor(frame, p)))
  {
    var slice := PeriodRows(frame, p);
    MonthlyTotalsReconcile(slice);
    assert Buckets(MonthlyFor(frame, p)) == GroupByMonth(slice);
  }

  function Buckets(rows: seq<MonthlyRow>): (buckets: seq<MonthlyBucket>)
    ensures |buckets| == |rows|
    ensures forall i :: 0 <= i < |rows| ==> buckets[i] == rows[i].bucket
  {
    seq(|rows|, i requires 0 <= i < |rows| => rows[i].bucket)
  }

  /**
   * With the two periods of a run, the monthly table holds period 1's months
   * in ascending order, then period 2's.
   */
  lemma MonthlyRowsTwoPeriods(frame: seq<EnrichedRow>, p1: Period, p2: Period)
    ensures MonthlyRows(frame, [p1, p2]) == MonthlyFor(frame, p1) + MonthlyFor(frame, p2)
  {
    ConcatMapPair(MonthlyOf(frame), p1, p2);
  }

  lemma ConcatMapPair<P, T>(f: P -> seq<T>, a: P, b: P)
    ensures ConcatMap(f, [a, b]) == f(a) + f(b)
  {
    assert [a, b][..1] == [a] && [a][..0] == [];
    assert ConcatMap(f, [a]) == ConcatMap(f, []) + f(a);
  }

  /** Flattening the per-period monthly tables gives the monthly table. */
  lemma FlattenMonthlyGroups(frame: seq<EnrichedRow>, ps: seq<Period>)
    ensures Flatten(MonthlyGroups(frame, ps)) == MonthlyRows(frame, ps)
  {
    forall p ensures Flatten(GroupOf(frame)(p)) == MonthlyOf(frame)(p) {
      var g := GroupOf(frame)(p);
      if g != [] {
        assert g[..0] == [];
        assert Flatten(g) == Flatten([]) + g[0];
      }
    }
    FlattenConcatMap(GroupOf(frame), MonthlyOf(frame), ps);
  }
}
