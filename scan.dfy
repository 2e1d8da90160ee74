/**
 * The row locator and the value writer of the export code, as functions
 * of the sheet they read. Column A (index 0) holds the message sizes; a
 * value goes into its run's column at the row whose size matches.
 */
module Scan {
  import opened Sheets
  import opened Benchmark

  /** The size-column cell of row `row`. */
  function SizeCell(s: Sheet, row: int): Cell
  {
    CellAt(s, Coord(0, row))
  }

  /** The text a non-numeric cell reads as: "" when empty. */
  function CellText(c: Cell): string
    requires !c.Num?
  {
    if c.Str? then c.s else ""
  }

  /** The occupied size-column addresses at or below `row`: what is left to scan. */
  function SizeCellsFrom(s: Sheet, row: int): set<Coord>
  {
    set k | k in s.Keys && k.col == 0 && k.row >= row
  }

  /** Rows `from` .. `to`-1 of the size column hold numbers other than `size`. */
  predicate SkipsTo(s: Sheet, from: int, to: int, size: real)
  {
    forall k :: from <= k < to ==> SizeCell(s, k).Num? && SizeCell(s, k).x != size
  }

  /** Both sheets have the same size column at and below `row`. */
  ghost predicate SameSizesFrom(s: Sheet, t: Sheet, row: int)
  {
    forall k :: k >= row ==> SizeCell(s, k) == SizeCell(t, k)
  }

  /**
   * The inner scan of addValuesToExcel: walks down the size column from
   * `row` and stops at the first cell that is not a number (an error) or
   * that equals `size` (its row). It ends because a sheet has finitely many
   * cells: past the last one every cell reads as empty.
   */
  function FindRow(s: Sheet, row: int, size: real): (r: Attempt<int>)
    ensures r.Success? ==>
              row <= r.value && SizeCell(s, r.value) == Num(size) && SkipsTo(s, row, r.value, size)
    decreases SizeCellsFrom(s, row)
  {
    var c := SizeCell(s, row);
    if !c.Num? then Failure(Unparsable(CellText(c)))
    else if c.x == size then Success(row)
    else
      assert Coord(0, row) in SizeCellsFrom(s, row) - SizeCellsFrom(s, row + 1);
      FindRow(s, row + 1, size)
  }

  /** A failing scan stopped at a cell that is not a number, with only other sizes above it. */
  lemma {:induction false} FindRowFailsAt(s: Sheet, row: int, size: real)
    requires FindRow(s, row, size).Failure?
    ensures exists k :: row <= k && !SizeCell(s, k).Num? && SkipsTo(s, row, k, size) &&
                        FindRow(s, row, size).error == Unparsable(CellText(SizeCell(s, k)))
    decreases SizeCellsFrom(s, row)
  {
    var c := SizeCell(s, row);
    if !c.Num? {
      assert SkipsTo(s, row, row, size);
    } else {
      assert Coord(0, row) in SizeCellsFrom(s, row) - SizeCellsFrom(s, row + 1);
      FindRowFailsAt(s, row + 1, size);
      var k :| row + 1 <= k && !SizeCell(s, k).Num? && SkipsTo(s, row + 1, k, size) &&
               FindRow(s, row + 1, size).error == Unparsable(CellText(SizeCell(s, k)));
      assert SkipsTo(s, row, k, size);
    }
  }

  /** A cell that is not a number, with only other sizes above it, makes the scan fail. */
  lemma {:induction false} FindRowFailsIf(s: Sheet, row: int, size: real, k: int)
    requires row <= k && !SizeCell(s, k).Num? && SkipsTo(s, row, k, size)
    ensures FindRow(s, row, size).Failure?
    decreases k - row
  {
    if row < k {
      assert SizeCell(s, row).Num? && SizeCell(s, row).x != size;
      FindRowFailsIf(s, row + 1, size, k);
    }
  }

  /**
   * The scan fails exactly when, at or below `row`, a cell that is not a
   * number comes before any cell equal to `size`; the error carries that
   * cell's text. An empty cell is not a number, so a size missing from the
   * rest of the column ends in an error.
   */
  lemma FindRowFailure(s: Sheet, row: int, size: real)
    ensures FindRow(s, row, size).Failure? <==>
            exists k :: row <= k && !SizeCell(s, k).Num? && SkipsTo(s, row, k, size)
    ensures FindRow(s, row, size).Failure? ==>
            exists k :: row <= k && !SizeCell(s, k).Num? && SkipsTo(s, row, k, size) &&
                        FindRow(s, row, size).error == Unparsable(CellText(SizeCell(s, k)))
  {
    if FindRow(s, row, size).Failure? {
      FindRowFailsAt(s, row, size);
    }
    forall k | row <= k && !SizeCell(s, k).Num? && SkipsTo(s, row, k, size)
      ensures FindRow(s, row, size).Failure?
    {
      FindRowFailsIf(s, row, size, k);
    }
  }

  /** The scan only looks at the size column, at and below where it starts. */
  lemma {:induction false} FindRowLocal(s: Sheet, t: Sheet, row: int, size: real)
    requires SameSizesFrom(s, t, row)
    ensures FindRow(s, row, size) == FindRow(t, row, size)
    decreases SizeCellsFrom(s, row)
  {
    var c := SizeCell(s, row);
    assert c == SizeCell(t, row);
    if c.Num? && c.x != size {
      assert Coord(0, row) in SizeCellsFrom(s, row) - SizeCellsFrom(s, row + 1);
      FindRowLocal(s, t, row + 1, size);
    }
  }

  /** The rows the scans find and how they end. */
  datatype Scanned = Scanned(rows: seq<int>, outcome: Outcome)

  /**
   * The successive scans of addValuesToExcel, on a sheet that does not
   * change: each data point's row is found from one row below the previous
   * data point's row; the first failing scan ends the sequence.
   */
  function ScanAll(s: Sheet, from: int, dps: seq<DataPoint>): (r: Scanned)
    ensures |r.rows| <= |dps|
    ensures r.outcome.Pass? <==> |r.rows| == |dps|
    decreases |dps|
  {
    if dps == [] then Scanned([], Pass)
    else
      match FindRow(s, from, dps[0].size)
      case Failure(e) => Scanned([], Fail(e))
      case Success(r) =>
        var rest := ScanAll(s, r + 1, dps[1..]);
        Scanned([r] + rest.rows, rest.outcome)
  }

  /** One scan: find the first point's row, stop on an error, or go on from the row below. */
  lemma ScanAllStep(s: Sheet, from: int, dps: seq<DataPoint>)
    requires dps != []
    ensures var f := FindRow(s, from, dps[0].size);
            ScanAll(s, from, dps) ==
            if f.Failure? then Scanned([], Fail(f.error))
            else Scanned([f.value] + ScanAll(s, f.value + 1, dps[1..]).rows, ScanAll(s, f.value + 1, dps[1..]).outcome)
  {
  }

  /** The scans only look at the size column, at and below where they start. */
  lemma {:induction false} ScanAllLocal(s: Sheet, t: Sheet, from: int, dps: seq<DataPoint>)
    requires SameSizesFrom(s, t, from)
    ensures ScanAll(s, from, dps) == ScanAll(t, from, dps)
    decreases |dps|
  {
    if dps != [] {
      FindRowLocal(s, t, from, dps[0].size);
      match FindRow(s, from, dps[0].size)
      case Failure(e) =>
      case Success(r) =>
        ScanAllLocal(s, t, r + 1, dps[1..]);
    }
  }

  /** Where the scan for the `i`-th data point starts: one row below the previous row found. */
  function ScanStart(rows: seq<int>, from: int, i: nat): int
    requires i <= |rows|
  {
    if i == 0 then from else rows[i - 1] + 1
  }

  /**
   * The `i`-th row found is the scan result from one row below the
   * previous row found (from `from` for the first).
   */
  lemma {:induction false} ScanAllAt(s: Sheet, from: int, dps: seq<DataPoint>, i: nat)
    requires i < |ScanAll(s, from, dps).rows|
    ensures var r := ScanAll(s, from, dps);
            FindRow(s, ScanStart(r.rows, from, i), dps[i].size) == Success(r.rows[i])
    decreases i
  {
    var first := FindRow(s, from, dps[0].size);
    assert first.Success?;
    if i > 0 {
      var rest := ScanAll(s, first.value + 1, dps[1..]);
      assert ScanAll(s, from, dps).rows == [first.value] + rest.rows;
      ScanAllAt(s, first.value + 1, dps[1..], i - 1);
      assert dps[1..][i - 1] == dps[i];
    }
  }

  /** A failure is the failure of the scan from one row below the last row found. */
  lemma {:induction false} ScanAllFails(s: Sheet, from: int, dps: seq<DataPoint>)
    requires ScanAll(s, from, dps).outcome.Fail?
    ensures var r := ScanAll(s, from, dps);
            FindRow(s, ScanStart(r.rows, from, |r.rows|), dps[|r.rows|].size) == Failure(r.outcome.error)
    decreases |dps|
  {
    var first := FindRow(s, from, dps[0].size);
    if first.Success? {
      var rest := ScanAll(s, first.value + 1, dps[1..]);
      assert ScanAll(s, from, dps) == Scanned([first.value] + rest.rows, rest.outcome);
      ScanAllFails(s, first.value + 1, dps[1..]);
      assert dps[1..][|rest.rows|] == dps[|rest.rows| + 1];
    }
  }

  /**
   * The rows found start at `from`, strictly increase, and each holds, in
   * the size column, the size of its data point.
   */
  lemma ScanAllRows(s: Sheet, from: int, dps: seq<DataPoint>)
    ensures var r := ScanAll(s, from, dps);
            forall i :: 0 <= i < |r.rows| ==> from <= r.rows[i] && SizeCell(s, r.rows[i]) == Num(dps[i].size)
    ensures var r := ScanAll(s, from, dps);
            forall i :: 0 < i < |r.rows| ==> r.rows[i - 1] < r.rows[i]
  {
    var r := ScanAll(s, from, dps);
    forall i | 0 <= i < |r.rows|
      ensures from <= r.rows[i] && SizeCell(s, r.rows[i]) == Num(dps[i].size)
      ensures i > 0 ==> r.rows[i - 1] < r.rows[i]
    {
      var k := 0;
      while k < i
        invariant 0 <= k <= i && from <= ScanStart(r.rows, from, k) <= r.rows[k]
      {
        ScanAllAt(s, from, dps, k);
        k := k + 1;
        ScanAllAt(s, from, dps, k);
      }
      ScanAllAt(s, from, dps, i);
    }
  }

  /** The first row found is the first point's; the others are those the scans from the row below find. */
  lemma ScanAllRowAt(s: Sheet, from: int, dps: seq<DataPoint>, r: int, i: nat)
    requires dps != [] && FindRow(s, from, dps[0].size) == Success(r)
    requires i < |ScanAll(s, from, dps).rows|
    ensures i == 0 ==> ScanAll(s, from, dps).rows[i] == r
    ensures i > 0 ==> i - 1 < |ScanAll(s, r + 1, dps[1..]).rows| &&
                      ScanAll(s, from, dps).rows[i] == ScanAll(s, r + 1, dps[1..]).rows[i - 1]
  {
    ScanAllStep(s, from, dps);
  }

  /** No row above where the scans start is found. */
  lemma ScanAllBelow(s: Sheet, from: int, dps: seq<DataPoint>, r: int)
    requires r < from
    ensures r !in ScanAll(s, from, dps).rows
  {
    ScanAllRows(s, from, dps);
  }

  /** The size column lists the sizes of `dps`, in order, from row `from` on. */
  predicate SizesListedFrom(s: Sheet, from: int, dps: seq<DataPoint>)
  {
    forall i :: 0 <= i < |dps| ==> SizeCell(s, from + i) == Num(dps[i].size)
  }

  /**
   * When the size column lists a run's sizes from the first row scanned,
   * every data point is found on the next row down and all scans succeed
   * (repeated sizes included).
   */
  lemma {:induction false} AlignedScan(s: Sheet, from: int, dps: seq<DataPoint>)
    requires SizesListedFrom(s, from, dps)
    ensures var r := ScanAll(s, from, dps);
            r.outcome == Pass && |r.rows| == |dps| && forall i :: 0 <= i < |dps| ==> r.rows[i] == from + i
    decreases |dps|
  {
    if dps != [] {
      assert SizeCell(s, from + 0) == Num(dps[0].size);
      assert FindRow(s, from, dps[0].size) == Success(from);
      assert SizesListedFrom(s, from + 1, dps[1..]) by {
        forall i | 0 <= i < |dps[1..]| ensures SizeCell(s, from + 1 + i) == Num(dps[1..][i].size) {
          assert SizeCell(s, from + (i + 1)) == Num(dps[i + 1].size);
        }
      }
      AlignedScan(s, from + 1, dps[1..]);
    }
  }

  /**
   * A size that the size column does not hold at or below `from` makes the
   * scans fail: its scan runs into a cell that is not a number.
   */
  lemma ScanAllMissing(s: Sheet, from: int, dps: seq<DataPoint>, i: nat)
    requires i < |dps|
    requires forall r :: r >= from ==> SizeCell(s, r) != Num(dps[i].size)
    ensures ScanAll(s, from, dps).outcome.Fail?
  {
    ScanAllRows(s, from, dps);
  }

  /** The sheet after a sequence of writes, and how it ended. */
  datatype Written = Written(sheet: Sheet, outcome: Outcome)

  /**
   * addValuesToExcel on one sheet: for each data point, find its row from
   * `row` on, store the value there in column `col`, and go on one row
   * below. A failed scan stops the run; what was written stays written.
   */
  function PlaceValues(s: Sheet, row: int, col: nat, dps: seq<DataPoint>): (w: Written)
    decreases |dps|
  {
    if dps == [] then Written(s, Pass)
    else
      match FindRow(s, row, dps[0].size)
      case Failure(e) => Written(s, Fail(e))
      case Success(r) => PlaceValues(s[Coord(col, r) := Num(dps[0].value)], r + 1, col, dps[1..])
  }

  /** One turn of the data-point loop: find the first point's row, stop on an error, or write and go on below. */
  lemma PlaceValuesStep(s: Sheet, row: int, col: nat, dps: seq<DataPoint>)
    requires dps != []
    ensures var f := FindRow(s, row, dps[0].size);
            PlaceValues(s, row, col, dps) ==
            if f.Failure? then Written(s, Fail(f.error))
            else PlaceValues(s[Coord(col, f.value) := Num(dps[0].value)], f.value + 1, col, dps[1..])
  {
  }

  /** A value written at row `r` is invisible to the scans from row `r` + 1 on. */
  lemma WriteKeepsScans(s: Sheet, col: nat, r: int, v: Cell, dps: seq<DataPoint>)
    ensures ScanAll(s[Coord(col, r) := v], r + 1, dps) == ScanAll(s, r + 1, dps)
  {
    assert SameSizesFrom(s[Coord(col, r) := v], s, r + 1) by {
      forall k | k >= r + 1 ensures SizeCell(s[Coord(col, r) := v], k) == SizeCell(s, k) {
        assert Coord(0, k) != Coord(col, r);
      }
    }
    ScanAllLocal(s[Coord(col, r) := v], s, r + 1, dps);
  }

  /**
   * The writes never disturb the scans that follow them: PlaceValues ends
   * exactly as the scans on the sheet before any write do.
   */
  lemma {:induction false} PlaceValuesOutcome(s: Sheet, row: int, col: nat, dps: seq<DataPoint>)
    ensures PlaceValues(s, row, col, dps).outcome == ScanAll(s, row, dps).outcome
    decreases |dps|
  {
    if dps != [] {
      var first := FindRow(s, row, dps[0].size);
      if first.Success? {
        var r := first.value;
        WriteKeepsScans(s, col, r, Num(dps[0].value), dps[1..]);
        PlaceValuesOutcome(s[Coord(col, r) := Num(dps[0].value)], r + 1, col, dps[1..]);
      }
    }
  }

  /** A cell outside the rows found in column `col` is left as it was. */
  lemma {:induction false} PlaceValuesKeeps(s: Sheet, row: int, col: nat, dps: seq<DataPoint>, k: Coord)
    requires k.col != col || k.row !in ScanAll(s, row, dps).rows
    ensures CellAt(PlaceValues(s, row, col, dps).sheet, k) == CellAt(s, k)
    decreases |dps|
  {
    if dps != [] {
      var first := FindRow(s, row, dps[0].size);
      if first.Success? {
        var r := first.value;
        var s1 := s[Coord(col, r) := Num(dps[0].value)];
        WriteKeepsScans(s, col, r, Num(dps[0].value), dps[1..]);
        assert ScanAll(s, row, dps).rows == [r] + ScanAll(s, r + 1, dps[1..]).rows;
        PlaceValuesKeeps(s1, r + 1, col, dps[1..], k);
      }
    }
  }

  /** The first data point's value sits on the row found for it: the later writes are all further down. */
  lemma PlaceValuesFirst(s: Sheet, row: int, col: nat, dps: seq<DataPoint>, r: int)
    requires dps != [] && FindRow(s, row, dps[0].size) == Success(r)
    ensures CellAt(PlaceValues(s, row, col, dps).sheet, Coord(col, r)) == Num(dps[0].value)
  {
    var s1 := s[Coord(col, r) := Num(dps[0].value)];
    PlaceValuesStep(s, row, col, dps);
    assert PlaceValues(s, row, col, dps) == PlaceValues(s1, r + 1, col, dps[1..]);
    // a number was found on row r, so it is a real row and the write landed
    assert SizeCell(s, r).Num? && r >= 1;
    assert CellAt(s1, Coord(col, r)) == Num(dps[0].value);
    ScanAllBelow(s1, r + 1, dps[1..], r);
    PlaceValuesKeeps(s1, r + 1, col, dps[1..], Coord(col, r));
  }

  /** After the first write, the rest is placed by the scans of the original sheet from the row below. */
  lemma PlaceValuesRest(s: Sheet, row: int, col: nat, dps: seq<DataPoint>, r: int)
    requires dps != [] && FindRow(s, row, dps[0].size) == Success(r)
    ensures var s1 := s[Coord(col, r) := Num(dps[0].value)];
            PlaceValues(s, row, col, dps) == PlaceValues(s1, r + 1, col, dps[1..]) &&
            ScanAll(s1, r + 1, dps[1..]) == ScanAll(s, r + 1, dps[1..])
  {
    PlaceValuesStep(s, row, col, dps);
    WriteKeepsScans(s, col, r, Num(dps[0].value), dps[1..]);
  }

  /** The value of the `i`-th data point sits in column `col` at the `i`-th row found. */
  lemma {:induction false} PlaceValuesAt(s: Sheet, row: int, col: nat, dps: seq<DataPoint>, i: nat)
    requires i < |ScanAll(s, row, dps).rows|
    ensures CellAt(PlaceValues(s, row, col, dps).sheet, Coord(col, ScanAll(s, row, dps).rows[i])) == Num(dps[i].value)
    decreases i
  {
    var first := FindRow(s, row, dps[0].size);
    assert first.Success?;
    var r := first.value;
    ScanAllRowAt(s, row, dps, r, i);
    if i == 0 {
      PlaceValuesFirst(s, row, col, dps, r);
    } else {
      PlaceValuesRest(s, row, col, dps, r);
      PlaceValuesAt(s[Coord(col, r) := Num(dps[0].value)], r + 1, col, dps[1..], i - 1);
      assert dps[1..][i - 1] == dps[i];
    }
  }

  /**
   * PlaceValues ends as the scans on the sheet before any write end, stores
   * each data point's value in column `col` at the row found for it, and
   * changes no other cell.
   */
  lemma PlaceValuesSpec(s: Sheet, row: int, col: nat, dps: seq<DataPoint>)
    ensures PlaceValues(s, row, col, dps).outcome == ScanAll(s, row, dps).outcome
    ensures var w := PlaceValues(s, row, col, dps); var rows := ScanAll(s, row, dps).rows;
            forall i :: 0 <= i < |rows| ==> CellAt(w.sheet, Coord(col, rows[i])) == Num(dps[i].value)
    ensures var w := PlaceValues(s, row, col, dps); var rows := ScanAll(s, row, dps).rows;
            forall k: Coord :: k.col != col || k.row !in rows ==> CellAt(w.sheet, k) == CellAt(s, k)
  {
    PlaceValuesOutcome(s, row, col, dps);
    forall i | 0 <= i < |ScanAll(s, row, dps).rows| {
      PlaceValuesAt(s, row, col, dps, i);
    }
    forall k: Coord | k.col != col || k.row !in ScanAll(s, row, dps).rows {
      PlaceValuesKeeps(s, row, col, dps, k);
    }
  }

  /** Writing into a column other than A keeps the size column. */
  lemma KeepsSizes(s: Sheet, row: int, col: nat, dps: seq<DataPoint>, from: int)
    requires col >= 1
    ensures SameSizesFrom(PlaceValues(s, row, col, dps).sheet, s, from)
  {
    forall k | k >= from {
      PlaceValuesKeeps(s, row, col, dps, Coord(0, k));
    }
  }

  /** The context the writers add to an error of addValuesToExcel. */
  const ADD_VALUES_FAILED: string := "addValuesToExcel()"

  /**
   * The loop over runs in Excelize and addDataToSpreadsheet: run j goes
   * into column `col` + j, each scanning from `row`; the first error stops
   * the loop.
   */
  function PlaceSeries(s: Sheet, row: int, col: nat, series: seq<Result>): (w: Written)
    decreases |series|
  {
    if series == [] then Written(s, Pass)
    else
      var p := PlaceValues(s, row, col, series[0].dataPoints);
      if p.outcome.Fail? then Written(p.sheet, Fail(Wrapped(ADD_VALUES_FAILED, p.outcome.error)))
      else PlaceSeries(p.sheet, row, col + 1, series[1..])
  }

  /** One turn of the run loop: place the first run, stop on its error, or go on one column right. */
  lemma PlaceSeriesStep(s: Sheet, row: int, col: nat, series: seq<Result>)
    requires series != []
    ensures var p := PlaceValues(s, row, col, series[0].dataPoints);
            PlaceSeries(s, row, col, series) ==
            if p.outcome.Fail? then Written(p.sheet, Fail(Wrapped(ADD_VALUES_FAILED, p.outcome.error)))
            else PlaceSeries(p.sheet, row, col + 1, series[1..])
  {
  }

  /** The scans of run `j` on sheet `s`. */
  function RunScan(s: Sheet, row: int, series: seq<Result>, j: nat): Scanned
    requires j < |series|
  {
    ScanAll(s, row, series[j].dataPoints)
  }

  /**
   * How the runs' scans on one fixed sheet end, in run order: the first
   * failing run's error, wrapped as the writers wrap it.
   */
  function ScanSeries(s: Sheet, row: int, series: seq<Result>): Outcome
    decreases |series|
  {
    if series == [] then Pass
    else
      var first := ScanAll(s, row, series[0].dataPoints);
      if first.outcome.Fail? then Fail(Wrapped(ADD_VALUES_FAILED, first.outcome.error))
      else ScanSeries(s, row, series[1..])
  }

  /** The runs' scans pass together exactly when each run's scans pass. */
  lemma {:induction false} ScanSeriesPass(s: Sheet, row: int, series: seq<Result>)
    ensures ScanSeries(s, row, series).Pass? <==>
            forall j :: 0 <= j < |series| ==> RunScan(s, row, series, j).outcome.Pass?
    decreases |series|
  {
    if series != [] {
      assert RunScan(s, row, series, 0) == ScanAll(s, row, series[0].dataPoints);
      ScanSeriesPass(s, row, series[1..]);
      forall j | 0 < j < |series|
        ensures RunScan(s, row, series, j) == RunScan(s, row, series[1..], j - 1)
      {
        assert series[1..][j - 1] == series[j];
      }
      forall j | 0 <= j < |series| - 1
        ensures RunScan(s, row, series[1..], j) == RunScan(s, row, series, j + 1)
      {
        assert series[1..][j] == series[j + 1];
      }
    }
  }

  /** The runs' scans only look at the size column. */
  lemma {:induction false} ScanSeriesLocal(s: Sheet, t: Sheet, row: int, series: seq<Result>)
    requires SameSizesFrom(s, t, row)
    ensures ScanSeries(s, row, series) == ScanSeries(t, row, series)
    decreases |series|
  {
    if series != [] {
      ScanAllLocal(s, t, row, series[0].dataPoints);
      ScanSeriesLocal(s, t, row, series[1..]);
    }
  }

  /**
   * Once run 0 is placed right of column A, the loop goes on with the
   * other runs, and each of them scans as it would on the original sheet.
   */
  lemma PlaceSeriesRest(s: Sheet, row: int, col: nat, series: seq<Result>, j: nat)
    requires col >= 1 && 0 < j < |series|
    requires PlaceValues(s, row, col, series[0].dataPoints).outcome.Pass?
    ensures var p := PlaceValues(s, row, col, series[0].dataPoints);
            PlaceSeries(s, row, col, series) == PlaceSeries(p.sheet, row, col + 1, series[1..]) &&
            RunScan(p.sheet, row, series[1..], j - 1) == RunScan(s, row, series, j)
  {
    var p := PlaceValues(s, row, col, series[0].dataPoints);
    PlaceSeriesStep(s, row, col, series);
    KeepsSizes(s, row, col, series[0].dataPoints, row);
    ScanAllLocal(p.sheet, s, row, series[j].dataPoints);
    assert series[1..][j - 1] == series[j];
  }

  /**
   * PlaceSeries leaves a cell alone when it is left of `col`, right of the
   * last run's column or above `row`, and, with the runs right of column A,
   * when it is in run `j`'s column but on no row that run's scans find on
   * the original sheet. This holds after a failure part-way too.
   */
  lemma {:induction false} PlaceSeriesKeeps(s: Sheet, row: int, col: nat, series: seq<Result>, k: Coord)
    requires k.col < col || k.col >= col + |series| || k.row < row ||
             (col >= 1 && k.row !in RunScan(s, row, series, k.col - col).rows)
    ensures CellAt(PlaceSeries(s, row, col, series).sheet, k) == CellAt(s, k)
    decreases |series|
  {
    if series != [] {
      var p := PlaceValues(s, row, col, series[0].dataPoints);
      PlaceSeriesStep(s, row, col, series);
      if k.col == col && k.row < row {
        ScanAllBelow(s, row, series[0].dataPoints, k.row);
      } else if k.col == col {
        assert k.row !in RunScan(s, row, series, 0).rows;
      }
      PlaceValuesKeeps(s, row, col, series[0].dataPoints, k);
      if p.outcome.Pass? {
        if col < k.col < col + |series| && row <= k.row {
          PlaceSeriesRest(s, row, col, series, k.col - col);
        }
        PlaceSeriesKeeps(p.sheet, row, col + 1, series[1..], k);
      }
    }
  }

  /**
   * With the runs right of column A, each run is placed as if it were
   * alone: the loop ends as the runs' scans on the original sheet end.
   */
  lemma {:induction false} PlaceSeriesOutcome(s: Sheet, row: int, col: nat, series: seq<Result>)
    requires col >= 1
    ensures PlaceSeries(s, row, col, series).outcome == ScanSeries(s, row, series)
    decreases |series|
  {
    if series != [] {
      var p := PlaceValues(s, row, col, series[0].dataPoints);
      PlaceValuesOutcome(s, row, col, series[0].dataPoints);
      if p.outcome.Pass? {
        KeepsSizes(s, row, col, series[0].dataPoints, row);
        ScanSeriesLocal(p.sheet, s, row, series[1..]);
        PlaceSeriesOutcome(p.sheet, row, col + 1, series[1..]);
      }
    }
  }

  /**
   * When the loop succeeds, the `i`-th value of run `j` sits in column
   * `col` + j at the row that run's own scans on the original sheet find.
   */
  lemma {:induction false} PlaceSeriesAt(s: Sheet, row: int, col: nat, series: seq<Result>, j: nat, i: nat)
    requires col >= 1 && PlaceSeries(s, row, col, series).outcome.Pass?
    requires j < |series| && i < |RunScan(s, row, series, j).rows|
    ensures CellAt(PlaceSeries(s, row, col, series).sheet, Coord(col + j, RunScan(s, row, series, j).rows[i])) ==
            Num(series[j].dataPoints[i].value)
    decreases j
  {
    var p := PlaceValues(s, row, col, series[0].dataPoints);
    PlaceSeriesStep(s, row, col, series);
    assert p.outcome.Pass?;
    if j == 0 {
      PlaceValuesAt(s, row, col, series[0].dataPoints, i);
      PlaceSeriesKeeps(p.sheet, row, col + 1, series[1..], Coord(col, RunScan(s, row, series, 0).rows[i]));
    } else {
      PlaceSeriesRest(s, row, col, series, j);
      PlaceSeriesAt(p.sheet, row, col + 1, series[1..], j - 1, i);
    }
  }
}
