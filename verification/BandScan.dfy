/** Sweeping a radio band: rows become sweeps, sweeps become a picture that remembers. */
module BandScan {
  import opened Prelude

  /** A row of bins; a bin the radio could not measure is None. */
  datatype RowData = Row(low: real, high: real, step: real, samples: int, power: seq<Option<real>>)

  /** A row the parser lets through. */
  type Row = row: RowData | row.step > 0.0 && row.low <= row.high witness Row(0.0, 0.0, 1.0, 0, [])

  /** Python's round: to the nearest integer, and halfway to the even one. */
  function RoundEven(x: real): (n: int)
    ensures x - 0.5 <= n as real <= x + 0.5
    ensures x - n as real == 0.5 || n as real - x == 0.5 ==> n % 2 == 0
  {
    var below := x.Floor;
    var part := x - below as real;
    if part < 0.5 || (part == 0.5 && below % 2 == 0) then below else below + 1
  }

  // ---------------------------------------------------------------------------------------
  // Merging rows
  // ---------------------------------------------------------------------------------------

  function MinLow(rows: seq<Row>): (low: real)
    requires rows != []
    ensures forall i | 0 <= i < |rows| :: low <= rows[i].low
    ensures exists i | 0 <= i < |rows| :: low == rows[i].low
  {
    var n := |rows| - 1;
    if n == 0 then rows[0].low
    else
      var rest := MinLow(rows[..n]);
      if rest <= rows[n].low then rest else rows[n].low
  }

  function MaxHigh(rows: seq<Row>): (high: real)
    requires rows != []
    ensures forall i | 0 <= i < |rows| :: rows[i].high <= high
    ensures exists i | 0 <= i < |rows| :: high == rows[i].high
  {
    var n := |rows| - 1;
    if n == 0 then rows[0].high
    else
      var rest := MaxHigh(rows[..n]);
      if rest >= rows[n].high then rest else rows[n].high
  }

  function Steps(span: real, step: real): (n: int)
    requires step > 0.0
    ensures span >= 0.0 ==> n >= 0
  {
    var x := span / step;
    RoundEven(x)
  }

  /** What a row measured for bin k of the grid that starts at `low`. */
  function ReadingAt(row: Row, low: real, step: real, k: int): Option<real>
    requires step > 0.0
  {
    var offset := k - Steps(row.low - low, step);
    if row.step == step && 0 <= offset < |row.power| then row.power[offset] else None
  }

  function FirstReading(rows: seq<Row>, low: real, step: real, k: int): Option<real>
    requires step > 0.0
  {
    if rows == [] then None
    else
      var n := |rows| - 1;
      var earlier := FirstReading(rows[..n], low, step, k);
      if earlier.Some? then earlier else ReadingAt(rows[n], low, step, k)
  }

  function Readings(rows: seq<Row>, low: real, step: real, count: nat): seq<Option<real>>
    requires step > 0.0
  {
    seq(count, k requires 0 <= k < count => FirstReading(rows, low, step, k))
  }

  /** A row on the grid, both its ends included. */
  function GridRow(low: real, count: int, step: real, samples: int, power: seq<Option<real>>): Row
    requires count >= 1 && step > 0.0
  {
    Row(low, low + Along(count - 1, step), step, samples, power)
  }

  function Merged(rows: seq<Row>): Row
    requires rows != []
  {
    var (step, low, count) := (rows[0].step, MinLow(rows), Bins(rows));
    GridRow(low, count, step, rows[0].samples, Readings(rows, low, step, count))
  }

  /** How far the n-th bin lies from the first. */
  function Along(n: int, step: real): (r: real)
    ensures n >= 0 && step > 0.0 ==> r >= 0.0
  {
    n as real * step
  }

  /** Both ends of the span have a bin. */
  function Bins(rows: seq<Row>): (count: int)
    requires rows != []
    ensures count >= 1
  {
    assert MinLow(rows) <= rows[0].low <= rows[0].high <= MaxHigh(rows);
    Steps(MaxHigh(rows) - MinLow(rows), rows[0].step) + 1
  }

  datatype MergeError = NothingToMerge

  method MergeRows(rows: seq<Row>) returns (r: Result<Row, MergeError>)
    ensures r == if rows == [] then Err(NothingToMerge) else Ok(Merged(rows))
  {
    if rows == [] {
      return Err(NothingToMerge);
    }
    var step, low, count := rows[0].step, MinLow(rows), Bins(rows);
    var power := FillAll(rows, low, step, count);
    r := Ok(GridRow(low, count, step, rows[0].samples, power));
  }

  /** The merged array, filled a row at a time; rows of another step are dropped. */
  method FillAll(rows: seq<Row>, low: real, step: real, count: nat) returns (power: seq<Option<real>>)
    requires step > 0.0
    ensures power == Readings(rows, low, step, count)
  {
    var merged := new Option<real>[count](_ => None);
    for i := 0 to |rows|
      invariant forall k | 0 <= k < count :: merged[k] == FirstReading(rows[..i], low, step, k)
    {
      assert rows[..i + 1][..i] == rows[..i];
      if rows[i].step != step {
        continue;
      }
      FillFrom(merged, rows[i], low, step);
    }
    assert rows[..|rows|] == rows;
    power := merged[..];
  }

  /** One row's finite readings go into the bins that are still empty. */
  method FillFrom(merged: array<Option<real>>, row: Row, low: real, step: real)
    requires step > 0.0 && row.step == step
    modifies merged
    ensures forall k | 0 <= k < merged.Length ::
      merged[k] == if old(merged[k]).Some? then old(merged[k]) else ReadingAt(row, low, step, k)
  {
    var start := Steps(row.low - low, step);
    for offset := 0 to |row.power|
      invariant forall k | 0 <= k < merged.Length ::
        merged[k] ==
        if old(merged[k]).None? && start <= k < start + offset then row.power[k - start] else old(merged[k])
    {
      var value := row.power[offset];
      if value.None? {
        continue;
      }
      var index := start + offset;
      if 0 <= index < merged.Length && merged[index].None? {
        merged[index] := value;
      }
    }
  }

  /** A bin holds what the first row with a reading for it measured, and nothing iff no row has one. */
  lemma {:induction false} FirstReadingMeaning(rows: seq<Row>, low: real, step: real, k: int)
    requires step > 0.0
    ensures var first := FirstReading(rows, low, step, k);
            && (first.None? <==> forall i | 0 <= i < |rows| :: ReadingAt(rows[i], low, step, k).None?)
            && (first.Some? ==> exists i | 0 <= i < |rows| ::
                 ReadingAt(rows[i], low, step, k) == first
                 && forall j | 0 <= j < i :: ReadingAt(rows[j], low, step, k).None?)
  {
    if rows != [] {
      var n := |rows| - 1;
      FirstReadingMeaning(rows[..n], low, step, k);
      if FirstReading(rows[..n], low, step, k).Some? {
        var i :| 0 <= i < n && ReadingAt(rows[..n][i], low, step, k) == FirstReading(rows[..n], low, step, k)
                 && forall j | 0 <= j < i :: ReadingAt(rows[..n][j], low, step, k).None?;
        assert forall j | 0 <= j < n :: rows[..n][j] == rows[j];
      } else {
        assert forall j | 0 <= j < n :: rows[..n][j] == rows[j];
      }
    }
  }

  /** A reading is never placed further than half a bin from the frequency it was measured at. */
  lemma ReadingLandsNear(row: Row, low: real, k: int)
    requires row.step > 0.0 && ReadingAt(row, low, row.step, k).Some?
    ensures var offset := k - Steps(row.low - low, row.step);
            var measured := row.low + offset as real * row.step;
            var drawn := low + k as real * row.step;
            -row.step <= 2.0 * (drawn - measured) <= row.step
  {
    var start := Steps(row.low - low, row.step);
    var x := (row.low - low) / row.step;
    assert x * row.step == row.low - low;
    Placed(low, row.low, k as real, (k - start) as real, start as real, x, row.step);
  }

  lemma Placed(low: real, rowLow: real, k: real, offset: real, start: real, x: real, step: real)
    requires step > 0.0 && k == offset + start && x * step == rowLow - low && x - 0.5 <= start <= x + 0.5
    ensures -step <= 2.0 * ((low + k * step) - (rowLow + offset * step)) <= step
  {
    var shift := start - x;
    Distributes(offset, start, step);
    Distributes(shift, x, step);
    AtMostHalf(shift, step);
    Between(low, rowLow, k * step, offset * step, shift * step, x * step, step);
  }

  lemma Between(low: real, rowLow: real, k: real, offset: real, shift: real, x: real, step: real)
    requires k == offset + (shift + x) && x == rowLow - low && -step <= 2.0 * shift <= step
    ensures -step <= 2.0 * ((low + k) - (rowLow + offset)) <= step
  {}

  lemma Distributes(a: real, b: real, step: real)
    ensures (a + b) * step == a * step + b * step
  {}

  lemma AtMostHalf(shift: real, step: real)
    requires step > 0.0 && -0.5 <= shift <= 0.5
    ensures -step <= 2.0 * (shift * step) <= step
  {}

  /** Rounding a span to whole steps is off by half a step at most. */
  lemma StepsNear(span: real, step: real)
    requires step > 0.0
    ensures -step <= 2.0 * (Along(Steps(span, step), step) - span) <= step
  {
    QuotientTimes(span, step);
    NearProduct(span / step, Steps(span, step), step, span);
  }

  lemma QuotientTimes(span: real, step: real)
    requires step > 0.0
    ensures span / step * step == span
  {}

  lemma NearProduct(x: real, n: int, step: real, span: real)
    requires step > 0.0 && x * step == span && x - 0.5 <= n as real <= x + 0.5
    ensures -step <= 2.0 * (Along(n, step) - span) <= step
  {
    var shift := n as real - x;
    AtMostHalf(shift, step);
    Distributes(shift, x, step);
    assert shift + x == n as real;
    assert Along(n, step) == shift * step + x * step;
  }

  /** The highest end of any row. */
  ghost predicate IsTop(rows: seq<Row>, top: real) {
    (forall i | 0 <= i < |rows| :: rows[i].high <= top) && exists i | 0 <= i < |rows| :: rows[i].high == top
  }

  ghost predicate IsBottom(rows: seq<Row>, bottom: real) {
    (forall i | 0 <= i < |rows| :: bottom <= rows[i].low) && exists i | 0 <= i < |rows| :: rows[i].low == bottom
  }

  /** The merged row spans the union: from the lowest start to within half a step of the highest end, evenly spaced. */
  lemma MergedSpan(rows: seq<Row>, top: real)
    requires rows != [] && IsTop(rows, top)
    ensures var m := Merged(rows);
            && IsBottom(rows, m.low) && m.step == rows[0].step && m.samples == rows[0].samples
            && |m.power| >= 1 && m.high == m.low + Along(|m.power| - 1, m.step)
            && -m.step <= 2.0 * (m.high - top) <= m.step
  {
    TopIsMax(rows, top);
    MergedShape(rows);
    StepsNear(top - MinLow(rows), rows[0].step);
  }

  lemma TopIsMax(rows: seq<Row>, top: real)
    requires rows != [] && IsTop(rows, top)
    ensures top == MaxHigh(rows) && IsTop(rows, MaxHigh(rows)) && IsBottom(rows, MinLow(rows)) && MinLow(rows) <= top
  {
    var i :| 0 <= i < |rows| && rows[i].high == top;
    var j :| 0 <= j < |rows| && rows[j].high == MaxHigh(rows);
    assert rows[j].high <= top && rows[i].high <= MaxHigh(rows);
    assert MinLow(rows) <= rows[i].low <= rows[i].high;
  }

  lemma MergedShape(rows: seq<Row>)
    requires rows != []
    ensures var m := Merged(rows);
            && m.low == MinLow(rows) && m.step == rows[0].step && m.samples == rows[0].samples
            && |m.power| == Steps(MaxHigh(rows) - MinLow(rows), rows[0].step) + 1 == Bins(rows)
            && m.high == m.low + Along(|m.power| - 1, m.step)
  {
    var (low, count) := (MinLow(rows), Bins(rows));
    GridShape(low, count, rows[0].step, rows[0].samples, Readings(rows, low, rows[0].step, count));
  }

  lemma GridShape(low: real, count: int, step: real, samples: int, power: seq<Option<real>>)
    requires count >= 1 && step > 0.0 && |power| == count
    ensures var m := GridRow(low, count, step, samples, power);
            && m.low == low && m.step == step && m.samples == samples && m.power == power
            && m.high == m.low + Along(|m.power| - 1, m.step)
  {}

  /** Reading o of the row belongs in bin k of the grid: its start is rounded to the grid, the rest follows. */
  predicate Lands(row: Row, low: real, step: real, o: int, k: int)
    requires step > 0.0
  {
    && row.step == step && 0 <= o < |row.power| && row.power[o].Some?
    && k == RoundEven((row.low - low) / step) + o
  }

  ghost predicate LandsOne(row: Row, low: real, step: real, k: int)
    requires step > 0.0
  {
    exists o :: Lands(row, low, step, o, k)
  }

  /** Every bin of the merged row: a reading of the first row that has one for it, or none when no row has. */
  lemma MergedBin(rows: seq<Row>, k: nat)
    requires rows != [] && k < |Merged(rows).power|
    ensures var m := Merged(rows);
            && (m.power[k].None? <==> forall i | 0 <= i < |rows| :: !LandsOne(rows[i], m.low, m.step, k))
            && (m.power[k].Some? ==> exists i, o | 0 <= i < |rows| && Lands(rows[i], m.low, m.step, o, k) ::
                 m.power[k] == rows[i].power[o] && forall j | 0 <= j < i :: !LandsOne(rows[j], m.low, m.step, k))
  {
    var m := Merged(rows);
    FirstReadingMeaning(rows, m.low, m.step, k);
    forall i | 0 <= i < |rows|
      ensures ReadingAt(rows[i], m.low, m.step, k).Some? <==> LandsOne(rows[i], m.low, m.step, k)
    {
      ReadingIsLanding(rows[i], m.low, m.step, k);
    }
    if m.power[k].Some? {
      var i :| 0 <= i < |rows| && ReadingAt(rows[i], m.low, m.step, k) == m.power[k]
               && forall j | 0 <= j < i :: ReadingAt(rows[j], m.low, m.step, k).None?;
      ReadingIsLanding(rows[i], m.low, m.step, k);
    }
  }

  lemma ReadingIsLanding(row: Row, low: real, step: real, k: int)
    requires step > 0.0
    ensures ReadingAt(row, low, step, k).Some? <==> LandsOne(row, low, step, k)
    ensures var o := k - RoundEven((row.low - low) / step);
            ReadingAt(row, low, step, k).Some? ==>
              Lands(row, low, step, o, k) && ReadingAt(row, low, step, k) == row.power[o]
  {
    var o := k - RoundEven((row.low - low) / step);
    if ReadingAt(row, low, step, k).Some? { assert Lands(row, low, step, o, k); }
  }

  /** Both roundings go to even numbers, and away from each other. */
  predicate RoundsAway(x: real, o: int, h: real) {
    h == x + o as real && x - x.Floor as real == 0.5 && x.Floor % 2 == 1 && o % 2 == 1
  }

  lemma RoundShift(x: real, o: int, h: real)
    requires x + o as real <= h && o >= 0
    ensures RoundEven(x) + o <= RoundEven(h) <==> !RoundsAway(x, o, h)
  {
    var y := x + o as real;
    assert y.Floor == x.Floor + o;
  }

  /**
   A reading measured within the span has a bin, with one exception: it is measured exactly at the top of the span, and
   its row starts an odd number and a half of steps above the bottom.
   */
  lemma ReadingHasBinIff(rows: seq<Row>, top: real, i: nat, o: nat) returns (k: nat)
    requires IsTop(rows, top) && i < |rows| && rows[i].step == rows[0].step
    requires o < |rows[i].power| && rows[i].power[o].Some?
    requires rows[i].low + Along(o, rows[i].step) <= top
    ensures var m := Merged(rows);
            && Lands(rows[i], m.low, m.step, o, k)
            && (k < |m.power| <==> !RoundsAway((rows[i].low - m.low) / m.step, o, (top - m.low) / m.step))
            && (k < |m.power| ==> m.power[k].Some?)
  {
    var m := Merged(rows);
    TopIsMax(rows, top);
    MergedShape(rows);
    StartsNotBelow(rows[i].low - m.low, m.step);
    k := Steps(rows[i].low - m.low, m.step) + o;
    NotAbove(rows[i].low, m.low, top, o, m.step);
    RoundShift((rows[i].low - m.low) / m.step, o, (top - m.low) / m.step);
    assert LandsOne(rows[i], m.low, m.step, k) by { assert Lands(rows[i], m.low, m.step, o, k); }
    if k < |m.power| { MergedBin(rows, k); }
  }

  lemma StartsNotBelow(span: real, step: real)
    requires span >= 0.0 && step > 0.0
    ensures Steps(span, step) >= 0
  {}

  lemma NotAbove(start: real, low: real, top: real, o: int, step: real)
    requires step > 0.0 && start + Along(o, step) <= top
    ensures (start - low) / step + o as real <= (top - low) / step
  {
    var (x, h) := ((start - low) / step, (top - low) / step);
    QuotientTimes(start - low, step);
    QuotientTimes(top - low, step);
    Distributes(x, o as real, step);
    if x + o as real > h { Grows(h, x + o as real, step); }
  }

  lemma Grows(a: real, b: real, step: real)
    requires a < b && step > 0.0
    ensures a * step < b * step
  {}

  const LOW_ROW: Row := Row(0.0, 1.0, 1.0, 1, [Some(1.0), Some(2.0)])
  const HIGH_ROW: Row := Row(1.5, 2.5, 1.0, 1, [Some(3.0), Some(4.0)])

  /** The exception occurs: of two rows, the second half a step off the first one's grid, the last reading is lost. */
  lemma TopReadingLost()
    ensures var m := Merged([LOW_ROW, HIGH_ROW]);
            |m.power| == 3 && forall k | 0 <= k < 3 :: m.power[k] != Some(4.0)
  {
    var rows: seq<Row> := [LOW_ROW, HIGH_ROW];
    var m := Merged(rows);
    assert rows[0] == LOW_ROW && rows[1] == HIGH_ROW;
    TopIsMax(rows, 2.5);
    MergedShape(rows);
    assert m.low == 0.0 && m.step == 1.0;
    assert RoundEven(2.5) == 2 && RoundEven(1.5) == 2 && RoundEven(0.0) == 0;
    forall k: nat | k < 3 ensures m.power[k] != Some(4.0) {
      MergedBin(rows, k);
      if m.power[k].Some? {
        var i, o :| 0 <= i < |rows| && Lands(rows[i], m.low, m.step, o, k) && m.power[k] == rows[i].power[o];
        assert i == 1 ==> o <= 0;
      }
    }
  }

  /** A row whose readings fill its own span is its own merge. */
  lemma MergedAlone(row: Row)
    requires row.power != [] && row.high == row.low + Along(|row.power| - 1, row.step)
    ensures Merged([row]) == row
  {
    var (n, m) := (|row.power| - 1, Merged([row]));
    assert IsTop([row], row.high) by { assert [row][0].high == row.high; }
    TopIsMax([row], row.high);
    MergedShape([row]);
    assert m.low == row.low;
    Quotient(n, row.step);
    assert row.high - m.low == Along(n, row.step);
    assert Steps(row.high - m.low, row.step) == n;
    forall k | 0 <= k < |row.power| ensures m.power[k] == row.power[k] {
      MergedBin([row], k);
      assert row.power[k].Some? ==> Lands([row][0], m.low, m.step, k, k);
    }
  }

  lemma Quotient(n: int, step: real)
    requires step > 0.0
    ensures Steps(Along(n, step), step) == n && RoundEven(0.0 / step) == 0
  {
    QuotientTimes(Along(n, step), step);
    SameFactor(Along(n, step) / step, n as real, step);
    SameFactor(0.0 / step, 0.0, step);
  }

  lemma SameFactor(a: real, b: real, step: real)
    requires step > 0.0 && a * step == b * step
    ensures a == b
  {
    if a < b { Grows(a, b, step); } else if b < a { Grows(b, a, step); }
  }

  /** Merging once is enough. */
  lemma MergedOnce(rows: seq<Row>)
    requires rows != []
    ensures Merged([Merged(rows)]) == Merged(rows)
  {
    MergedSpan(rows, MaxHigh(rows));
    MergedAlone(Merged(rows));
  }

  // ---------------------------------------------------------------------------------------
  // Assembling sweeps
  // ---------------------------------------------------------------------------------------

  /** One more row: it joins the last run if it ascends from it, else it starts a run. */
  function Extended(runs: seq<seq<Row>>, row: Row): seq<seq<Row>> {
    if runs == [] || runs[|runs| - 1] == [] || row.low <= LastLow(runs[|runs| - 1]) then runs + [[row]]
    else runs[..|runs| - 1] + [runs[|runs| - 1] + [row]]
  }

  function LastLow(run: seq<Row>): real
    requires run != []
  {
    run[|run| - 1].low
  }

  /** The stream cut wherever the frequency stops ascending. */
  function Runs(stream: seq<Row>): seq<seq<Row>> {
    if stream == [] then [] else Extended(Runs(stream[..|stream| - 1]), stream[|stream| - 1])
  }

  class ScanAssembler {
    const maxRows: nat
    var rows: seq<Row>

    constructor (maxRows: nat)
      ensures this.maxRows == maxRows && rows == []
    {
      this.maxRows := maxRows;
      rows := [];
    }

    /** Returns the merge of the rows that were pending when this row closes their run. */
    method Add(row: Row) returns (finished: Option<Row>)
      requires maxRows > 0
      modifies this
      ensures rows == Added(old(rows), row, maxRows).0
      ensures var closed := Added(old(rows), row, maxRows).1;
              if closed == [] then finished == None else finished == Some(Merged(closed))
    {
      finished := None;
      if rows != [] && row.low <= rows[|rows| - 1].low {
        var merged := MergeRows(rows);
        finished := Some(merged.value);
        rows := [];
      }
      rows := rows + [row];
      assert finished.Some? ==> rows == [row];
      if |rows| > maxRows {
        rows := rows[|rows| - maxRows..];
      }
    }
  }

  /** The pending rows after one more, and the rows of the sweep it finished, if it finished one. */
  function Added(rows: seq<Row>, row: Row, maxRows: nat): (seq<Row>, seq<Row>) {
    if rows != [] && row.low <= rows[|rows| - 1].low then (Last([row], maxRows), rows)
    else (Last(rows + [row], maxRows), [])
  }

  /** `emitted` are the rows behind each sweep returned so far, in order. */
  datatype Assembly = Assembly(pending: seq<Row>, emitted: seq<seq<Row>>)

  function AfterAdd(a: Assembly, row: Row, maxRows: nat): Assembly {
    var (pending, closed) := Added(a.pending, row, maxRows);
    Assembly(pending, if closed == [] then a.emitted else a.emitted + [closed])
  }

  /** An assembler fed the whole stream. */
  function Assembled(stream: seq<Row>, maxRows: nat): Assembly {
    if stream == [] then Assembly([], [])
    else AfterAdd(Assembled(stream[..|stream| - 1], maxRows), stream[|stream| - 1], maxRows)
  }

  ghost predicate Ascending(run: seq<Row>) {
    run != [] && forall i | 0 < i < |run| :: run[i - 1].low < run[i].low
  }

  /** The second run could not have gone on from the first. */
  ghost predicate Breaks(first: seq<Row>, second: seq<Row>) {
    first != [] && second != [] && second[0].low <= LastLow(first)
  }

  ghost predicate WellCut(runs: seq<seq<Row>>) {
    && (forall i | 0 <= i < |runs| :: Ascending(runs[i]))
    && (forall i | 0 < i < |runs| :: Breaks(runs[i - 1], runs[i]))
  }

  lemma ExtendedWellCut(runs: seq<seq<Row>>, row: Row)
    requires WellCut(runs)
    ensures WellCut(Extended(runs, row))
  {
    var longer := Extended(runs, row);
    if runs != [] {
      var m := |runs| - 1;
      assert Ascending(runs[m]);
      if row.low > LastLow(runs[m]) {
        assert Ascending(runs[m] + [row]);
        forall i | 0 < i < |longer| ensures Breaks(longer[i - 1], longer[i]) {
          assert Breaks(runs[i - 1], runs[i]);
        }
      } else {
        assert Breaks(runs[m], [row]);
      }
    }
  }

  lemma ExtendedJoins(runs: seq<seq<Row>>, row: Row)
    ensures Joined(Extended(runs, row)) == Joined(runs) + [row]
  {
    var longer := Extended(runs, row);
    assert longer != [];
    if |longer| == |runs| {
      var m := |runs| - 1;
      assert longer[..m] == runs[..m];
    } else {
      assert longer[..|runs|] == runs;
    }
  }

  lemma {:induction false} RunsJoin(stream: seq<Row>)
    ensures Joined(Runs(stream)) == stream
  {
    if stream != [] {
      var n := |stream| - 1;
      RunsJoin(stream[..n]);
      ExtendedJoins(Runs(stream[..n]), stream[n]);
      SplitLast(stream);
    }
  }

  lemma {:induction false} RunsWellCut(stream: seq<Row>)
    ensures WellCut(Runs(stream))
  {
    if stream != [] {
      var n := |stream| - 1;
      RunsWellCut(stream[..n]);
      ExtendedWellCut(Runs(stream[..n]), stream[n]);
    }
  }

  /** Nothing is lost or reordered, every run ascends, and none could be longer. */
  lemma RunsAreMaximal(stream: seq<Row>)
    ensures Joined(Runs(stream)) == stream && WellCut(Runs(stream))
  {
    RunsJoin(stream);
    RunsWellCut(stream);
  }

  /** The runs without the last row. */
  function Shorter(runs: seq<seq<Row>>): seq<seq<Row>>
    requires runs != [] && runs[|runs| - 1] != []
  {
    var m := |runs| - 1;
    if |runs[m]| == 1 then runs[..m] else runs[..m] + [runs[m][..|runs[m]| - 1]]
  }

  lemma ShorterWellCut(runs: seq<seq<Row>>)
    requires WellCut(runs) && runs != [] && runs[|runs| - 1] != []
    ensures WellCut(Shorter(runs))
  {
    var m := |runs| - 1;
    var shorter := Shorter(runs);
    forall i | 0 <= i < |shorter| ensures Ascending(shorter[i]) {
      assert Ascending(runs[i]);
    }
    forall i | 0 < i < |shorter| ensures Breaks(shorter[i - 1], shorter[i]) {
      assert Breaks(runs[i - 1], runs[i]);
    }
  }

  lemma ShorterExtends(runs: seq<seq<Row>>)
    requires WellCut(runs) && runs != [] && runs[|runs| - 1] != []
    ensures Extended(Shorter(runs), runs[|runs| - 1][|runs[|runs| - 1]| - 1]) == runs
  {
    var m := |runs| - 1;
    var last := runs[m];
    var k := |last| - 1;
    assert Ascending(last);
    if k == 0 {
      assert [last[0]] == last;
      if m > 0 { assert Breaks(runs[m - 1], runs[m]); }
    } else {
      assert last[..k] + [last[k]] == last;
    }
  }

  lemma ShorterJoins(runs: seq<seq<Row>>)
    requires runs != [] && runs[|runs| - 1] != []
    ensures Joined(runs) == Joined(Shorter(runs)) + [runs[|runs| - 1][|runs[|runs| - 1]| - 1]]
  {
    var m := |runs| - 1;
    var last := runs[m];
    var k := |last| - 1;
    if k == 0 {
      assert [last[0]] == last;
    } else {
      assert Shorter(runs)[..m] == runs[..m];
      assert last[..k] + [last[k]] == last;
    }
  }

  /** Only one way of cutting a stream is like that. */
  lemma {:induction false} RunsAreUnique(runs: seq<seq<Row>>)
    requires WellCut(runs)
    ensures Runs(Joined(runs)) == runs
    decreases |Joined(runs)|
  {
    if runs != [] {
      assert Ascending(runs[|runs| - 1]);
      ShorterWellCut(runs);
      ShorterJoins(runs);
      ShorterExtends(runs);
      var stream := Joined(runs);
      assert stream[..|stream| - 1] == Joined(Shorter(runs));
      RunsAreUnique(Shorter(runs));
    }
  }

  /** Each run cut to its newest rows. */
  function Newest(runs: seq<seq<Row>>, maxRows: nat): seq<seq<Row>> {
    if runs == [] then [] else Newest(runs[..|runs| - 1], maxRows) + [Last(runs[|runs| - 1], maxRows)]
  }

  lemma {:induction false} NewestIsAll(runs: seq<seq<Row>>, maxRows: nat)
    requires forall i | 0 <= i < |runs| :: |runs[i]| <= maxRows
    ensures Newest(runs, maxRows) == runs
  {
    if runs != [] {
      var n := |runs| - 1;
      NewestIsAll(runs[..n], maxRows);
      SplitLast(runs);
      assert Last(runs[n], maxRows) == runs[n];
    }
  }

  lemma LastStep<T>(s: seq<T>, x: T, n: nat)
    requires n > 0
    ensures Last(Last(s, n) + [x], n) == Last(s + [x], n)
    ensures s != [] ==> Last(s, n) != [] && Last(s, n)[|Last(s, n)| - 1] == s[|s| - 1]
  {}

  /** What an assembler looks like when the runs so far are these: one sweep per closed run, the open one pending. */
  ghost predicate Follows(a: Assembly, runs: seq<seq<Row>>, maxRows: nat) {
    if runs == [] then a == Assembly([], [])
    else
      var m := |runs| - 1;
      a.emitted == Newest(runs[..m], maxRows) && a.pending == Last(runs[m], maxRows)
  }

  lemma OpenRunExtended(runs: seq<seq<Row>>, row: Row)
    requires runs != [] && runs[|runs| - 1] != [] && row.low > LastLow(runs[|runs| - 1])
    ensures var (m, longer) := (|runs| - 1, Extended(runs, row));
            |longer| == |runs| && longer[m] == runs[m] + [row] && longer[..m] == runs[..m]
  {}

  lemma FollowsLonger(a: Assembly, runs: seq<seq<Row>>, longer: seq<seq<Row>>, row: Row, maxRows: nat)
    requires Follows(a, runs, maxRows) && maxRows > 0 && runs != [] && runs[|runs| - 1] != []
    requires row.low > LastLow(runs[|runs| - 1])
    requires var m := |runs| - 1; |longer| == |runs| && longer[m] == runs[m] + [row] && longer[..m] == runs[..m]
    ensures Follows(AfterAdd(a, row, maxRows), longer, maxRows)
  {
    LastStep(runs[|runs| - 1], row, maxRows);
  }

  /** The row goes on from the open run. */
  lemma AddedToRun(a: Assembly, runs: seq<seq<Row>>, row: Row, maxRows: nat)
    requires Follows(a, runs, maxRows) && maxRows > 0 && runs != [] && runs[|runs| - 1] != []
    requires row.low > LastLow(runs[|runs| - 1])
    ensures Follows(AfterAdd(a, row, maxRows), Extended(runs, row), maxRows)
  {
    OpenRunExtended(runs, row);
    FollowsLonger(a, runs, Extended(runs, row), row, maxRows);
  }

  /** The row closes the open run. */
  lemma AddedBehindRun(a: Assembly, runs: seq<seq<Row>>, row: Row, maxRows: nat)
    requires Follows(a, runs, maxRows) && maxRows > 0 && runs != [] && runs[|runs| - 1] != []
    requires row.low <= LastLow(runs[|runs| - 1])
    ensures Follows(AfterAdd(a, row, maxRows), Extended(runs, row), maxRows)
  {
    LastStep(runs[|runs| - 1], row, maxRows);
    assert Extended(runs, row)[..|runs|] == runs;
  }

  lemma AddedFollows(a: Assembly, runs: seq<seq<Row>>, row: Row, maxRows: nat)
    requires Follows(a, runs, maxRows) && WellCut(runs) && maxRows > 0
    ensures Follows(AfterAdd(a, row, maxRows), Extended(runs, row), maxRows)
  {
    if runs == [] {
      assert Extended(runs, row)[..0] == [];
    } else {
      assert Ascending(runs[|runs| - 1]);
      if row.low > LastLow(runs[|runs| - 1]) {
        AddedToRun(a, runs, row, maxRows);
      } else {
        AddedBehindRun(a, runs, row, maxRows);
      }
    }
  }

  /**
   * The assembler emits one merged sweep for each closed run and holds the open one; a run within the
   * cap is merged whole, a longer one without its oldest rows.
   */
  lemma {:induction false} AssemblerFollowsRuns(stream: seq<Row>, maxRows: nat)
    requires maxRows > 0
    ensures Follows(Assembled(stream, maxRows), Runs(stream), maxRows)
  {
    if stream != [] {
      var n := |stream| - 1;
      AssemblerFollowsRuns(stream[..n], maxRows);
      RunsAreMaximal(stream[..n]);
      AddedFollows(Assembled(stream[..n], maxRows), Runs(stream[..n]), stream[n], maxRows);
    }
  }

  lemma AllRunsKept(a: Assembly, runs: seq<seq<Row>>, maxRows: nat)
    requires Follows(a, runs, maxRows) && runs != [] && forall i | 0 <= i < |runs| :: |runs[i]| <= maxRows
    ensures Joined(a.emitted) + a.pending == Joined(runs)
  {
    NewestIsAll(runs[..|runs| - 1], maxRows);
  }

  /** While no run exceeds the cap, the rows behind the sweeps and the rows still held are the stream. */
  lemma NothingLostWithinCap(stream: seq<Row>, maxRows: nat)
    requires maxRows > 0 && forall i | 0 <= i < |Runs(stream)| :: |Runs(stream)[i]| <= maxRows
    ensures var a := Assembled(stream, maxRows);
            Joined(a.emitted) + a.pending == stream
  {
    AssemblerFollowsRuns(stream, maxRows);
    RunsAreMaximal(stream);
    if Runs(stream) != [] { AllRunsKept(Assembled(stream, maxRows), Runs(stream), maxRows); }
  }
}
