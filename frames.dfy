/**
 * The daily price table, its derived DollarVolume column, the two requested
 * periods, slicing a table to a period, and the day offsets that align two
 * periods on a common "days since period start" axis.
 */
module Frames {
  import opened Dates

  datatype Option<T> = None | Some(value: T)

  /** One trading day as fetched: the date index, the closing price in cents, the share volume. */
  datatype Row = Row(date: Date, close: nat, volume: nat)

  /** A row of the table after the DollarVolume column (cents) has been added. */
  datatype EnrichedRow = EnrichedRow(date: Date, close: nat, volume: nat, dollarVolume: nat)

  /** A requested period: its display name and its closed interval of dates. */
  datatype Period = Period(name: string, start: Date, end: Date)

  function RowDate(r: Row): Date { r.date }

  function EnrichedDate(r: EnrichedRow): Date { r.date }

  /** The boolean mask `(index >= start) & (index <= end)` for one date. */
  predicate InPeriod(d: Date, p: Period) {
    DateLe(p.start, d) && DateLe(d, p.end)
  }

  predicate AllDatesValid<R>(rows: seq<R>, dateOf: R -> Date) {
    forall i :: 0 <= i < |rows| ==> ValidDate(dateOf(rows[i]))
  }

  /** Dates strictly increase along the table, as in a fetched daily history. */
  predicate Chronological<R>(rows: seq<R>, dateOf: R -> Date) {
    forall i, j :: 0 <= i < j < |rows| ==> DateLt(dateOf(rows[i]), dateOf(rows[j]))
  }

  // ---------------------------------------------------------------------------
  // Dollar volume
  // ---------------------------------------------------------------------------

  /** The column `Close * Volume`, row by row. */
  function DollarVolumes(rows: seq<Row>): (column: seq<nat>)
    ensures |column| == |rows|
    ensures forall i :: 0 <= i < |rows| ==> column[i] == rows[i].close * rows[i].volume
  {
    if rows == [] then [] else [rows[0].close * rows[0].volume] + DollarVolumes(rows[1..])
  }

  /** The table with a further column attached, row by row. */
  function Join(rows: seq<Row>, column: seq<nat>): (joined: seq<EnrichedRow>)
    requires |column| == |rows|
    ensures |joined| == |rows|
    ensures forall i :: 0 <= i < |rows| ==>
      joined[i] == EnrichedRow(rows[i].date, rows[i].close, rows[i].volume, column[i])
  {
    if rows == [] then []
    else [EnrichedRow(rows[0].date, rows[0].close, rows[0].volume, column[0])] + Join(rows[1..], column[1..])
  }

  /** The table with its DollarVolume column: same rows, same order, each with `Close * Volume` attached. */
  function Enrich(rows: seq<Row>): (enriched: seq<EnrichedRow>)
    ensures |enriched| == |rows|
    ensures forall i :: 0 <= i < |rows| ==>
      && enriched[i].date == rows[i].date
      && enriched[i].close == rows[i].close
      && enriched[i].volume == rows[i].volume
      && enriched[i].dollarVolume == rows[i].close * rows[i].volume
  {
    Join(rows, DollarVolumes(rows))
  }

  /**
   * The fetched table as a mutable object: the DollarVolume column is added to
   * it in place, or to a copy of it.
   */
  class PriceFrame {
    var rows: seq<Row>
    var dollarVolume: Option<seq<nat>>

    constructor (rows: seq<Row>)
      ensures this.rows == rows && dollarVolume == None
    {
      this.rows := rows;
      dollarVolume := None;
    }

    predicate HasDollarVolume()
      reads this
    {
      dollarVolume.Some? && |dollarVolume.value| == |rows|
    }

    /** The table read row by row with its DollarVolume column. */
    function Enriched(): (enriched: seq<EnrichedRow>)
      reads this
      requires HasDollarVolume()
      ensures |enriched| == |rows|
    {
      Join(rows, dollarVolume.value)
    }

    /** `df.copy()`: a new frame with the same columns. */
    method Copy() returns (copy: PriceFrame)
      ensures fresh(copy)
      ensures copy.rows == rows && copy.dollarVolume == dollarVolume
    {
      copy := new PriceFrame(rows);
      copy.dollarVolume := dollarVolume;
    }

    /** `df['DollarVolume'] = df['Close'] * df['Volume']`: adds the column; no other column changes. */
    method AddDollarVolume()
      modifies this
      ensures rows == old(rows)
      ensures dollarVolume == Some(DollarVolumes(rows))
      ensures HasDollarVolume() && Enriched() == Enrich(rows)
    {
      dollarVolume := Some(DollarVolumes(rows));
    }
  }

  /** The dollar-volume step of the chart and summary functions: enrich a copy, leave `df` as it was. */
  method WithDollarVolume(df: PriceFrame) returns (enriched: PriceFrame)
    ensures fresh(enriched)
    ensures enriched.rows == df.rows && enriched.HasDollarVolume()
    ensures enriched.Enriched() == Enrich(df.rows)
  {
    enriched := df.Copy();
    enriched.AddDollarVolume();
  }

  // ---------------------------------------------------------------------------
  // Period slicing
  // ---------------------------------------------------------------------------

  /** `df[(df.index >= start) & (df.index <= end)]`: the rows whose date lies in the period, in table order. */
  function Slice<R>(rows: seq<R>, dateOf: R -> Date, p: Period): (s: seq<R>)
    ensures |s| <= |rows|
    ensures forall r :: r in s ==> r in rows && InPeriod(dateOf(r), p)
    ensures forall r :: r in rows && InPeriod(dateOf(r), p) ==> r in s
    decreases |rows|
  {
    if rows == [] then []
    else (if InPeriod(dateOf(rows[0]), p) then [rows[0]] else []) + Slice(rows[1..], dateOf, p)
  }

  /** Slicing distributes over concatenation: it keeps rows in their table order. */
  lemma {:induction false} SliceAppend<R>(xs: seq<R>, ys: seq<R>, dateOf: R -> Date, p: Period)
    ensures Slice(xs + ys, dateOf, p) == Slice(xs, dateOf, p) + Slice(ys, dateOf, p)
    decreases |xs|
  {
    if xs == [] {
      assert xs + ys == ys;
    } else {
      assert (xs + ys)[1..] == xs[1..] + ys;
      SliceAppend(xs[1..], ys, dateOf, p);
    }
  }

  /** Slicing an already sliced table by the same period changes nothing. */
  lemma {:induction false} SliceIdempotent<R>(rows: seq<R>, dateOf: R -> Date, p: Period)
    ensures Slice(Slice(rows, dateOf, p), dateOf, p) == Slice(rows, dateOf, p)
    decreases |rows|
  {
    if rows != [] {
      var head := if InPeriod(dateOf(rows[0]), p) then [rows[0]] else [];
      SliceAppend(head, Slice(rows[1..], dateOf, p), dateOf, p);
      if head != [] {
        assert ([rows[0]] + [])[1..] == [];
      }
      assert Slice(head, dateOf, p) == head;
      SliceIdempotent(rows[1..], dateOf, p);
    }
  }

  /** A chronological table slices to a chronological table. */
  lemma {:induction false} SliceChronological<R>(rows: seq<R>, dateOf: R -> Date, p: Period)
    requires Chronological(rows, dateOf)
    ensures Chronological(Slice(rows, dateOf, p), dateOf)
    decreases |rows|
  {
    if rows != [] {
      var rest := Slice(rows[1..], dateOf, p);
      assert Chronological(rows[1..], dateOf) by {
        forall i, j | 0 <= i < j < |rows[1..]|
          ensures DateLt(dateOf(rows[1..][i]), dateOf(rows[1..][j]))
        {
          assert rows[1..][i] == rows[i + 1] && rows[1..][j] == rows[j + 1];
        }
      }
      SliceChronological(rows[1..], dateOf, p);
      forall r | r in rest ensures DateLt(dateOf(rows[0]), dateOf(r)) {
        var k :| 1 <= k < |rows| && rows[k] == r;
      }
    }
  }

  /** Adding the DollarVolume column before slicing gives the same rows as adding it to the slice. */
  lemma {:induction false} SliceEnrichCommute(rows: seq<Row>, p: Period)
    ensures Slice(Enrich(rows), EnrichedDate, p) == Enrich(Slice(rows, RowDate, p))
    decreases |rows|
  {
    if rows != [] {
      var e := Enrich(rows);
      assert e == [e[0]] + e[1..];
      assert e[1..] == Enrich(rows[1..]);
      SliceAppend([e[0]], e[1..], EnrichedDate, p);
      assert Slice([e[0]], EnrichedDate, p) == if InPeriod(rows[0].date, p) then [e[0]] else [];
      SliceEnrichCommute(rows[1..], p);
      var head := if InPeriod(rows[0].date, p) then [rows[0]] else [];
      assert Slice(rows, RowDate, p) == head + Slice(rows[1..], RowDate, p);
      EnrichAppend(head, Slice(rows[1..], RowDate, p));
    }
  }

  lemma EnrichAppend(xs: seq<Row>, ys: seq<Row>)
    ensures Enrich(xs + ys) == Enrich(xs) + Enrich(ys)
  {
  }

  // ---------------------------------------------------------------------------
  // Alignment
  // ---------------------------------------------------------------------------

  /** `[days_since_start(d, start) for d in period_data.index]`. */
  function Offsets<R>(rows: seq<R>, dateOf: R -> Date, start: Date): (xs: seq<int>)
    requires ValidDate(start) && AllDatesValid(rows, dateOf)
    ensures |xs| == |rows|
    ensures forall i :: 0 <= i < |rows| ==> xs[i] == DaysSinceStart(dateOf(rows[i]), start)
  {
    seq(|rows|, i requires 0 <= i < |rows| && AllDatesValid(rows, dateOf) => DaysSinceStart(dateOf(rows[i]), start))
  }

  /**
   * Offsets of a period's rows are measured from the requested start: each
   * lies in [0, end - start], and it is 0 exactly for a row dated on the start.
   */
  lemma OffsetsInPeriod<R>(rows: seq<R>, dateOf: R -> Date, p: Period)
    requires ValidDate(p.start) && ValidDate(p.end) && AllDatesValid(rows, dateOf)
    ensures AllDatesValid(Slice(rows, dateOf, p), dateOf)
    ensures forall x :: x in Offsets(Slice(rows, dateOf, p), dateOf, p.start) ==>
      0 <= x <= DaysSinceStart(p.end, p.start)
    ensures forall i :: 0 <= i < |Slice(rows, dateOf, p)| ==>
      (Offsets(Slice(rows, dateOf, p), dateOf, p.start)[i] == 0 <==> dateOf(Slice(rows, dateOf, p)[i]) == p.start)
  {
    var s := Slice(rows, dateOf, p);
    forall i | 0 <= i < |s| ensures ValidDate(dateOf(s[i])) {
      assert s[i] in rows;
    }
    var xs := Offsets(s, dateOf, p.start);
    forall x | x in xs ensures 0 <= x <= DaysSinceStart(p.end, p.start) {
      var i :| 0 <= i < |xs| && xs[i] == x;
      assert s[i] in s;
      OrdinalOrder(dateOf(s[i]), p.end);
    }
  }

  /** On a chronological table the offsets strictly increase. */
  lemma OffsetsIncreasing<R>(rows: seq<R>, dateOf: R -> Date, start: Date)
    requires ValidDate(start) && AllDatesValid(rows, dateOf) && Chronological(rows, dateOf)
    ensures forall i, j :: 0 <= i < j < |rows| ==>
      Offsets(rows, dateOf, start)[i] < Offsets(rows, dateOf, start)[j]
  {
    forall i, j | 0 <= i < j < |rows|
      ensures Offsets(rows, dateOf, start)[i] < Offsets(rows, dateOf, start)[j]
    {
      OrdinalOrder(dateOf(rows[i]), dateOf(rows[j]));
    }
  }

  /** First and last date actually present in a period's slice (`period_data.index[0]`, `[-1]`). */
  function ObservedRange<R>(s: seq<R>, dateOf: R -> Date): (range: Option<(Date, Date)>)
    ensures range.Some? <==> |s| > 0
    ensures range.Some? ==> range.value.0 == dateOf(s[0]) && range.value.1 == dateOf(s[|s| - 1])
  {
    if |s| == 0 then None else Some((dateOf(s[0]), dateOf(s[|s| - 1])))
  }

  /**
   * On a chronological table the observed range of a non-empty slice lies
   * within the requested period: start <= first <= last <= end.
   */
  lemma ObservedRangeWithinPeriod<R>(rows: seq<R>, dateOf: R -> Date, p: Period)
    requires Chronological(rows, dateOf)
    requires |Slice(rows, dateOf, p)| > 0
    ensures var range := ObservedRange(Slice(rows, dateOf, p), dateOf).value;
      DateLe(p.start, range.0) && DateLe(range.0, range.1) && DateLe(range.1, p.end)
  {
    var s := Slice(rows, dateOf, p);
    assert s[0] in s && s[|s| - 1] in s;
    SliceChronological(rows, dateOf, p);
  }
}
