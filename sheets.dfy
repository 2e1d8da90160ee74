/**
 * The spreadsheet as the export code sees it through the excelize library:
 * a workbook is a map from sheet name to sheet, a sheet a finite map from
 * cell address to cell. Addresses use an integer column index (0 is
 * column A) and a 1-based row number instead of "B3"-style text.
 */
module Sheets {

  /** What a cell holds: nothing, a number or a text. */
  datatype Cell = Empty | Num(x: real) | Str(s: string)

  /** A cell address: 0-based column index and 1-based row number. */
  datatype Coord = Coord(col: nat, row: int)

  type Sheet = map<Coord, Cell>

  /** The sheet every new workbook starts with. */
  const DEFAULT_SHEET: string := "Sheet1"

  /**
   * The cell at `at`. An address never written reads as empty, and so does
   * one above row 1, which names no cell at all.
   */
  function CellAt(s: Sheet, at: Coord): Cell
  {
    if at.row >= 1 && at in s then s[at] else Empty
  }

  /** Writes `cells` into column `at.col`, one per row, starting at row `at.row`. */
  function WriteDown(s: Sheet, at: Coord, cells: seq<Cell>): Sheet
    decreases |cells|
  {
    if cells == [] then s
    else WriteDown(s[at := cells[0]], Coord(at.col, at.row + 1), cells[1..])
  }

  /** Writes `cells` into row `at.row`, one per column, starting at column `at.col`. */
  function WriteAcross(s: Sheet, at: Coord, cells: seq<Cell>): Sheet
    decreases |cells|
  {
    if cells == [] then s
    else WriteAcross(s[at := cells[0]], Coord(at.col + 1, at.row), cells[1..])
  }

  /** After WriteDown, the rows written hold the cells in order and every other cell is as before. */
  lemma {:induction false} WriteDownAt(s: Sheet, at: Coord, cells: seq<Cell>, k: Coord)
    requires at.row >= 1
    ensures CellAt(WriteDown(s, at, cells), k) ==
            if k.col == at.col && at.row <= k.row < at.row + |cells| then cells[k.row - at.row] else CellAt(s, k)
    decreases |cells|
  {
    if cells != [] {
      WriteDownAt(s[at := cells[0]], Coord(at.col, at.row + 1), cells[1..], k);
      if k.col == at.col && at.row < k.row < at.row + |cells| {
        assert cells[1..][k.row - (at.row + 1)] == cells[k.row - at.row];
      }
    }
  }

  /** After WriteAcross, the columns written hold the cells in order and every other cell is as before. */
  lemma {:induction false} WriteAcrossAt(s: Sheet, at: Coord, cells: seq<Cell>, k: Coord)
    requires at.row >= 1
    ensures CellAt(WriteAcross(s, at, cells), k) ==
            if k.row == at.row && at.col <= k.col < at.col + |cells| then cells[k.col - at.col] else CellAt(s, k)
    decreases |cells|
  {
    if cells != [] {
      WriteAcrossAt(s[at := cells[0]], Coord(at.col + 1, at.row), cells[1..], k);
      if k.row == at.row && at.col < k.col < at.col + |cells| {
        assert cells[1..][k.col - (at.col + 1)] == cells[k.col - at.col];
      }
    }
  }

  /** Writing one more cell below the others is one more single-cell write. */
  lemma {:induction false} WriteDownSnoc(s: Sheet, at: Coord, cells: seq<Cell>, c: Cell)
    ensures WriteDown(s, at, cells + [c]) == WriteDown(s, at, cells)[Coord(at.col, at.row + |cells|) := c]
    decreases |cells|
  {
    if cells == [] {
      assert WriteDown(s, at, [c]) == WriteDown(s[at := c], Coord(at.col, at.row + 1), []);
    } else {
      assert (cells + [c])[1..] == cells[1..] + [c];
      WriteDownSnoc(s[at := cells[0]], Coord(at.col, at.row + 1), cells[1..], c);
    }
  }

  /** Writing one more cell right of the others is one more single-cell write. */
  lemma {:induction false} WriteAcrossSnoc(s: Sheet, at: Coord, cells: seq<Cell>, c: Cell)
    ensures WriteAcross(s, at, cells + [c]) == WriteAcross(s, at, cells)[Coord(at.col + |cells|, at.row) := c]
    decreases |cells|
  {
    if cells == [] {
      assert WriteAcross(s, at, [c]) == WriteAcross(s[at := c], Coord(at.col + 1, at.row), []);
    } else {
      assert (cells + [c])[1..] == cells[1..] + [c];
      WriteAcrossSnoc(s[at := cells[0]], Coord(at.col + 1, at.row), cells[1..], c);
    }
  }

  /** Texts as text cells. */
  function Strs(xs: seq<string>): (r: seq<Cell>)
    ensures |r| == |xs| && forall i :: 0 <= i < |xs| ==> r[i] == Str(xs[i])
  {
    seq(|xs|, i requires 0 <= i < |xs| => Str(xs[i]))
  }

  /**
   * The workbook object of the spreadsheet library (an excelize File),
   * reduced to the contents of its sheets.
   */
  class Workbook {
    var sheets: map<string, Sheet>

    ghost predicate Valid()
      reads this
    {
      DEFAULT_SHEET in sheets
    }

    /** A new workbook holds one empty default sheet. */
    constructor ()
      ensures Valid() && sheets == map[DEFAULT_SHEET := map[]]
    {
      sheets := map[DEFAULT_SHEET := map[]];
    }

    /** The cell at `at` of sheet `sheet`, empty when never written. */
    function GetCellValue(sheet: string, at: Coord): Cell
      reads this
      requires sheet in sheets
    {
      CellAt(sheets[sheet], at)
    }

    /** Adds an empty sheet called `name`; an existing sheet of that name is kept as it is. */
    method NewSheet(name: string)
      requires Valid()
      modifies this
      ensures Valid()
      ensures name in sheets && sheets.Keys == old(sheets).Keys + {name}
      ensures forall n :: n in old(sheets) ==> sheets[n] == old(sheets)[n]
      ensures name !in old(sheets) ==> sheets[name] == map[]
    {
      if name !in sheets {
        sheets := sheets[name := map[]];
      }
    }

    /** Stores `v` at `at` of sheet `sheet`; nothing else changes. */
    method SetCellValue(sheet: string, at: Coord, v: Cell)
      requires Valid() && sheet in sheets && at.row >= 1
      modifies this
      ensures Valid()
      ensures sheets == old(sheets)[sheet := old(sheets)[sheet][at := v]]
    {
      sheets := sheets[sheet := sheets[sheet][at := v]];
    }
  }
}
