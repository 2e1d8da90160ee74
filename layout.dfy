/**
 * The spreadsheet layouts the export code produces, as functions of the
 * workbook contents before the export: sheet naming, the metadata sheet,
 * the labelled data sheet and the unlabelled one.
 */
module Layout {
  import opened Sheets
  import opened Benchmark
  import opened Decimal
  import opened Scan

  /** The name of sheet number `n`: "Sheet" and the number in decimal. */
  function SheetName(n: int): string
  {
    "Sheet" + IntToDecimal(n)
  }

  /** Sheet number `n` is the default sheet exactly when `n` is 1. */
  lemma SheetNameIsDefault(n: int)
    ensures SheetName(n) == DEFAULT_SHEET <==> n == 1
  {
    assert IntToDecimal(1) == "1";
    if SheetName(n) == DEFAULT_SHEET {
      assert IntToDecimal(n) == SheetName(n)[5..] == "1";
      IntToDecimalInjective(n, 1);
    }
  }

  /** Distinct sheet numbers name distinct sheets. */
  lemma SheetNameInjective(a: int, b: int)
    requires SheetName(a) == SheetName(b)
    ensures a == b
  {
    assert IntToDecimal(a) == SheetName(a)[5..] == SheetName(b)[5..] == IntToDecimal(b);
    IntToDecimalInjective(a, b);
  }

  /**
   * The sheets after prepSheet(n) on a workbook: sheet `n` exists, the
   * sheets that existed are untouched, and a sheet that did not exist
   * starts empty.
   */
  function Provisioned(book: map<string, Sheet>, n: int): (r: map<string, Sheet>)
    requires DEFAULT_SHEET in book
    ensures SheetName(n) in r && r.Keys == book.Keys + {SheetName(n)}
    ensures forall name :: name in book ==> r[name] == book[name]
    ensures SheetName(n) !in book ==> r[SheetName(n)] == map[]
  {
    var name := SheetName(n);
    if name != DEFAULT_SHEET && name !in book then book[name := map[]] else book
  }

  /** prepSheet adds a sheet exactly when sheet `n` is not the default sheet and is missing. */
  lemma ProvisionedAdds(book: map<string, Sheet>, n: int)
    requires DEFAULT_SHEET in book
    ensures Provisioned(book, n) != book <==> n != 1 && SheetName(n) !in book
  {
    SheetNameIsDefault(n);
    if n != 1 && SheetName(n) !in book {
      assert SheetName(n) in Provisioned(book, n).Keys - book.Keys;
    }
  }

  /**
   * The sheets after addMetadataToSpreadsheet: on sheet `m.sheetID` the
   * timestamp is in A1 and content line `i` in row `i` + 2 of column A;
   * every other cell and every other sheet is as prepSheet left it.
   */
  function MetadataBook(book: map<string, Sheet>, m: SpreadsheetMetadata): (r: map<string, Sheet>)
    requires DEFAULT_SHEET in book
    ensures DEFAULT_SHEET in r && r.Keys == book.Keys + {SheetName(m.sheetID)}
    ensures forall name :: name in book && name != SheetName(m.sheetID) ==> r[name] == book[name]
  {
    var p := Provisioned(book, m.sheetID);
    var name := SheetName(m.sheetID);
    p[name := WriteDown(p[name][Coord(0, 1) := Str(m.timestamp)], Coord(0, 2), Strs(m.content))]
  }

  /** A cell of the metadata sheet. */
  lemma MetadataBookAt(book: map<string, Sheet>, m: SpreadsheetMetadata, k: Coord)
    requires DEFAULT_SHEET in book
    ensures CellAt(MetadataBook(book, m)[SheetName(m.sheetID)], k) ==
            if k == Coord(0, 1) then Str(m.timestamp)
            else if k.col == 0 && 2 <= k.row < 2 + |m.content| then Str(m.content[k.row - 2])
            else CellAt(Provisioned(book, m.sheetID)[SheetName(m.sheetID)], k)
  {
    var p := Provisioned(book, m.sheetID);
    var name := SheetName(m.sheetID);
    WriteDownAt(p[name][Coord(0, 1) := Str(m.timestamp)], Coord(0, 2), Strs(m.content), k);
  }

  /**
   * On the metadata sheet the timestamp is in A1 and content line `i` in
   * row `i` + 2 of column A; every other cell is as prepSheet left it.
   */
  lemma MetadataBookLayout(book: map<string, Sheet>, m: SpreadsheetMetadata)
    requires DEFAULT_SHEET in book
    ensures CellAt(MetadataBook(book, m)[SheetName(m.sheetID)], Coord(0, 1)) == Str(m.timestamp)
    ensures forall i :: 0 <= i < |m.content| ==>
              CellAt(MetadataBook(book, m)[SheetName(m.sheetID)], Coord(0, 2 + i)) == Str(m.content[i])
    ensures forall k: Coord :: k.col != 0 || k.row < 1 || k.row >= 2 + |m.content| ==>
              CellAt(MetadataBook(book, m)[SheetName(m.sheetID)], k) ==
              CellAt(Provisioned(book, m.sheetID)[SheetName(m.sheetID)], k)
  {
    MetadataBookAt(book, m, Coord(0, 1));
    forall i | 0 <= i < |m.content|
      ensures CellAt(MetadataBook(book, m)[SheetName(m.sheetID)], Coord(0, 2 + i)) == Str(m.content[i])
    {
      MetadataBookAt(book, m, Coord(0, 2 + i));
    }
    forall k: Coord | k.col != 0 || k.row < 1 || k.row >= 2 + |m.content| {
      MetadataBookAt(book, m, k);
    }
  }

  /** The sizes of a run as numeric cells. */
  function Sizes(dps: seq<DataPoint>): (r: seq<Cell>)
    ensures |r| == |dps| && forall i :: 0 <= i < |dps| ==> r[i] == Num(dps[i].size)
  {
    seq(|dps|, i requires 0 <= i < |dps| => Num(dps[i].size))
  }

  /** The labels across row 1 from column B, then the first run's sizes down column A from row 2. */
  function LabeledBase(s: Sheet, labels: seq<string>, dps: seq<DataPoint>): Sheet
  {
    WriteDown(WriteAcross(s, Coord(1, 1), Strs(labels)), Coord(0, 2), Sizes(dps))
  }

  /** A cell of the labelled sheet before the values go in. */
  lemma LabeledBaseAt(s: Sheet, labels: seq<string>, dps: seq<DataPoint>, k: Coord)
    ensures CellAt(LabeledBase(s, labels, dps), k) ==
            if k.col == 0 && 2 <= k.row < 2 + |dps| then Num(dps[k.row - 2].size)
            else if k.row == 1 && 1 <= k.col < 1 + |labels| then Str(labels[k.col - 1])
            else CellAt(s, k)
  {
    var across := WriteAcross(s, Coord(1, 1), Strs(labels));
    WriteDownAt(across, Coord(0, 2), Sizes(dps), k);
    WriteAcrossAt(s, Coord(1, 1), Strs(labels), k);
  }

  /** The data sheet of addDataToSpreadsheet: run `j` placed in column `j` + 1, scanning from row 2. */
  function LabeledSheet(s: Sheet, labels: seq<string>, series: seq<Result>): Written
    requires |series| > 0
  {
    PlaceSeries(LabeledBase(s, labels, series[0].dataPoints), 2, 1, series)
  }

  /** A fresh sheet with the first run's sizes down column A from row 1. */
  function UnlabeledBase(dps: seq<DataPoint>): Sheet
  {
    WriteDown(map[], Coord(0, 1), Sizes(dps))
  }

  /** A cell of the Excelize sheet before the values go in. */
  lemma UnlabeledBaseAt(dps: seq<DataPoint>, k: Coord)
    ensures CellAt(UnlabeledBase(dps), k) ==
            if k.col == 0 && 1 <= k.row < 1 + |dps| then Num(dps[k.row - 1].size) else Empty
  {
    WriteDownAt(map[], Coord(0, 1), Sizes(dps), k);
  }

  /** The sheet of Excelize: the first run's sizes from A1, run `j` in column `j` + 1, scanning from row 1. */
  function UnlabeledSheet(series: seq<Result>): Written
    requires |series| > 0
  {
    PlaceSeries(UnlabeledBase(series[0].dataPoints), 1, 1, series)
  }

  /** A workbook's sheets and how the operation that built them ended. */
  datatype Book = Book(sheets: map<string, Sheet>, outcome: Outcome)

  /**
   * The workbook after addDataToSpreadsheet: only sheet `d.sheetStart`
   * changes (and is added if missing).
   */
  function DataBook(book: map<string, Sheet>, d: SpreadsheetData): (b: Book)
    requires DEFAULT_SHEET in book && HasResults(d)
    ensures DEFAULT_SHEET in b.sheets && b.sheets.Keys == book.Keys + {SheetName(d.sheetStart)}
    ensures forall name :: name in book && name != SheetName(d.sheetStart) ==> b.sheets[name] == book[name]
  {
    var p := Provisioned(book, d.sheetStart);
    var name := SheetName(d.sheetStart);
    var w := LabeledSheet(p[name], d.labels, d.data.value.result);
    Book(p[name := w.sheet], w.outcome)
  }

  /** A new workbook: one empty default sheet. */
  function NewBook(): map<string, Sheet>
  {
    map[DEFAULT_SHEET := map[]]
  }

  /** The context ExcelizeWithLabels adds to an error of addDataToSpreadsheet. */
  const ADD_DATA_FAILED: string := "addDataToSpreadsheet()"

  /** The workbook of ExcelizeWithLabels once its checks pass: metadata first, if any, then the data. */
  function LabeledExport(meta: Option<SpreadsheetMetadata>, d: SpreadsheetData): Book
    requires HasResults(d)
  {
    var withMeta := if meta.Some? then MetadataBook(NewBook(), meta.value) else NewBook();
    var b := DataBook(withMeta, d);
    Book(b.sheets, if b.outcome.Fail? then Fail(Wrapped(ADD_DATA_FAILED, b.outcome.error)) else Pass)
  }

  /** The sizes of `dps` are, in order, the first sizes of `first`. */
  predicate SizesPrefix(dps: seq<DataPoint>, first: seq<DataPoint>)
  {
    |dps| <= |first| && forall i :: 0 <= i < |dps| ==> dps[i].size == first[i].size
  }

  /** Every run's sizes are, in order, the first sizes of the first run. */
  predicate SizesAligned(series: seq<Result>)
    requires |series| > 0
  {
    forall j :: 0 <= j < |series| ==> SizesPrefix(series[j].dataPoints, series[0].dataPoints)
  }

  /**
   * When the size column lists the sizes of `first` from row `top`, a run
   * whose sizes are a prefix of them is found row after row from `top`.
   */
  lemma AlignedRun(base: Sheet, top: int, dps: seq<DataPoint>, first: seq<DataPoint>)
    requires SizesListedFrom(base, top, first) && SizesPrefix(dps, first)
    ensures var r := ScanAll(base, top, dps);
            r.outcome == Pass && |r.rows| == |dps| && forall i :: 0 <= i < |dps| ==> r.rows[i] == top + i
  {
    assert SizesListedFrom(base, top, dps) by {
      forall i | 0 <= i < |dps| ensures SizeCell(base, top + i) == Num(dps[i].size) {
        assert SizeCell(base, top + i) == Num(first[i].size);
      }
    }
    AlignedScan(base, top, dps);
  }

  /** With aligned runs placed, value `i` of run `j` is in column `j` + 1, row `top` + `i`. */
  lemma AlignedPlacementAt(base: Sheet, top: int, series: seq<Result>, j: nat, i: nat)
    requires |series| > 0 && SizesAligned(series)
    requires SizesListedFrom(base, top, series[0].dataPoints)
    requires PlaceSeries(base, top, 1, series).outcome == Pass
    requires j < |series| && i < |series[j].dataPoints|
    ensures CellAt(PlaceSeries(base, top, 1, series).sheet, Coord(1 + j, top + i)) ==
            Num(series[j].dataPoints[i].value)
  {
    AlignedRun(base, top, series[j].dataPoints, series[0].dataPoints);
    assert RunScan(base, top, series, j).rows[i] == top + i;
    PlaceSeriesAt(base, top, 1, series, j, i);
  }

  /**
   * When the size column lists the first run's sizes from row `top` and
   * every run's sizes are a prefix of them, all runs are placed and value
   * `i` of run `j` lands in column `j` + 1, row `top` + `i`.
   */
  lemma AlignedPlacement(base: Sheet, top: int, series: seq<Result>)
    requires |series| > 0 && SizesAligned(series)
    requires SizesListedFrom(base, top, series[0].dataPoints)
    ensures PlaceSeries(base, top, 1, series).outcome == Pass
    ensures forall j, i :: 0 <= j < |series| && 0 <= i < |series[j].dataPoints| ==>
              CellAt(PlaceSeries(base, top, 1, series).sheet, Coord(1 + j, top + i)) ==
              Num(series[j].dataPoints[i].value)
  {
    forall j | 0 <= j < |series| ensures RunScan(base, top, series, j).outcome.Pass? {
      AlignedRun(base, top, series[j].dataPoints, series[0].dataPoints);
    }
    ScanSeriesPass(base, top, series);
    PlaceSeriesOutcome(base, top, 1, series);
    forall j, i | 0 <= j < |series| && 0 <= i < |series[j].dataPoints|
      ensures CellAt(PlaceSeries(base, top, 1, series).sheet, Coord(1 + j, top + i)) ==
              Num(series[j].dataPoints[i].value)
    {
      AlignedPlacementAt(base, top, series, j, i);
    }
  }

  /**
   * A size that appears nowhere in the size column from row `top` down
   * makes the placement fail: its scan runs into a cell that is not a
   * number (an empty one at the latest).
   */
  lemma MissingSizeFails(base: Sheet, top: int, series: seq<Result>, j: nat, i: nat)
    requires j < |series| && i < |series[j].dataPoints|
    requires forall r :: r >= top ==> SizeCell(base, r) != Num(series[j].dataPoints[i].size)
    ensures PlaceSeries(base, top, 1, series).outcome.Fail?
  {
    ScanAllMissing(base, top, series[j].dataPoints, i);
    assert !RunScan(base, top, series, j).outcome.Pass?;
    ScanSeriesPass(base, top, series);
    PlaceSeriesOutcome(base, top, 1, series);
  }

  /**
   * The labelled data sheet keeps its header: labels across row 1 from
   * column B and the first run's sizes down column A from row 2. Cells of
   * column A outside the sizes, of row 1 outside the labels, and right of
   * the last run outside row 1 are as before.
   */
  lemma LabeledSheetHeader(s: Sheet, labels: seq<string>, series: seq<Result>)
    requires |series| > 0
    ensures var w := LabeledSheet(s, labels, series);
            forall j :: 0 <= j < |labels| ==> CellAt(w.sheet, Coord(1 + j, 1)) == Str(labels[j])
    ensures var w := LabeledSheet(s, labels, series); var dps := series[0].dataPoints;
            forall i :: 0 <= i < |dps| ==> CellAt(w.sheet, Coord(0, 2 + i)) == Num(dps[i].size)
    ensures var w := LabeledSheet(s, labels, series); var dps := series[0].dataPoints;
            forall k: Coord ::
              (k.col == 0 && !(2 <= k.row < 2 + |dps|)) ||
              (k.row <= 1 && !(k.row == 1 && 1 <= k.col < 1 + |labels|)) ||
              (k.col > |series| && k.row != 1) ==>
              CellAt(w.sheet, k) == CellAt(s, k)
  {
    var w := LabeledSheet(s, labels, series);
    var dps := series[0].dataPoints;
    forall j | 0 <= j < |labels| ensures CellAt(w.sheet, Coord(1 + j, 1)) == Str(labels[j]) {
      LabeledSheetAt(s, labels, series, Coord(1 + j, 1));
    }
    forall i | 0 <= i < |dps| ensures CellAt(w.sheet, Coord(0, 2 + i)) == Num(dps[i].size) {
      LabeledSheetAt(s, labels, series, Coord(0, 2 + i));
    }
    forall k: Coord |
        (k.col == 0 && !(2 <= k.row < 2 + |dps|)) ||
        (k.row <= 1 && !(k.row == 1 && 1 <= k.col < 1 + |labels|)) ||
        (k.col > |series| && k.row != 1)
      ensures CellAt(w.sheet, k) == CellAt(s, k)
    {
      LabeledSheetAt(s, labels, series, k);
    }
  }

  /**
   * A cell of the labelled data sheet that no value is written to: a header
   * cell, a cell right of the last run, or a cell of run `j`'s column on a
   * row that run's scans do not find.
   */
  lemma LabeledSheetAt(s: Sheet, labels: seq<string>, series: seq<Result>, k: Coord)
    requires |series| > 0
    requires k.col == 0 || k.row < 2 || k.col > |series| ||
             k.row !in RunScan(LabeledBase(s, labels, series[0].dataPoints), 2, series, k.col - 1).rows
    ensures var dps := series[0].dataPoints;
            CellAt(LabeledSheet(s, labels, series).sheet, k) ==
            if k.col == 0 && 2 <= k.row < 2 + |dps| then Num(dps[k.row - 2].size)
            else if k.row == 1 && 1 <= k.col < 1 + |labels| then Str(labels[k.col - 1])
            else CellAt(s, k)
  {
    PlaceSeriesKeeps(LabeledBase(s, labels, series[0].dataPoints), 2, 1, series, k);
    LabeledBaseAt(s, labels, series[0].dataPoints, k);
  }

  /**
   * The labelled data sheet ends as the runs' scans of its header end,
   * and when they pass run `j`'s values sit in column `j` + 1 at the rows
   * its scans find.
   */
  lemma LabeledSheetValues(s: Sheet, labels: seq<string>, series: seq<Result>)
    requires |series| > 0
    ensures var base := LabeledBase(s, labels, series[0].dataPoints);
            LabeledSheet(s, labels, series).outcome == ScanSeries(base, 2, series)
    ensures var base := LabeledBase(s, labels, series[0].dataPoints); var w := LabeledSheet(s, labels, series);
            w.outcome.Pass? ==>
            forall j, i :: 0 <= j < |series| && 0 <= i < |RunScan(base, 2, series, j).rows| ==>
              CellAt(w.sheet, Coord(1 + j, RunScan(base, 2, series, j).rows[i])) == Num(series[j].dataPoints[i].value)
  {
    var base := LabeledBase(s, labels, series[0].dataPoints);
    PlaceSeriesOutcome(base, 2, 1, series);
    if LabeledSheet(s, labels, series).outcome.Pass? {
      forall j, i | 0 <= j < |series| && 0 <= i < |RunScan(base, 2, series, j).rows| {
        PlaceSeriesAt(base, 2, 1, series, j, i);
      }
    }
  }

  /** With aligned runs the labelled sheet is complete: value `i` of run `j` in column `j` + 1, row `i` + 2. */
  lemma LabeledSheetAligned(s: Sheet, labels: seq<string>, series: seq<Result>)
    requires |series| > 0 && SizesAligned(series)
    ensures LabeledSheet(s, labels, series).outcome == Pass
    ensures forall j, i :: 0 <= j < |series| && 0 <= i < |series[j].dataPoints| ==>
              CellAt(LabeledSheet(s, labels, series).sheet, Coord(1 + j, 2 + i)) ==
              Num(series[j].dataPoints[i].value)
  {
    var dps := series[0].dataPoints;
    forall i | 0 <= i < |dps| ensures SizeCell(LabeledBase(s, labels, dps), 2 + i) == Num(dps[i].size) {
      LabeledBaseAt(s, labels, dps, Coord(0, 2 + i));
    }
    AlignedPlacement(LabeledBase(s, labels, dps), 2, series);
  }

  /**
   * A size that the first run lacks makes addDataToSpreadsheet fail when
   * column A holds no number below the first run's sizes.
   */
  lemma LabeledSheetMissingSize(s: Sheet, labels: seq<string>, series: seq<Result>, j: nat, i: nat)
    requires |series| > 0 && j < |series| && i < |series[j].dataPoints|
    requires forall n :: 0 <= n < |series[0].dataPoints| ==>
               series[0].dataPoints[n].size != series[j].dataPoints[i].size
    requires forall r :: r >= 2 + |series[0].dataPoints| ==> !SizeCell(s, r).Num?
    ensures LabeledSheet(s, labels, series).outcome.Fail?
  {
    var dps := series[0].dataPoints;
    var base := LabeledBase(s, labels, dps);
    forall r | r >= 2 ensures SizeCell(base, r) != Num(series[j].dataPoints[i].size) {
      LabeledBaseAt(s, labels, dps, Coord(0, r));
      assert SizeCell(s, r) == CellAt(s, Coord(0, r));
    }
    MissingSizeFails(base, 2, series, j, i);
  }

  /**
   * The Excelize sheet: the first run's sizes from A1 and run `j`'s values
   * in column `j` + 1 at the rows its scans find; the loop ends as the
   * scans end. Every other cell is empty, also after a failure.
   */
  lemma UnlabeledSheetLayout(series: seq<Result>)
    requires |series| > 0
    ensures var w := UnlabeledSheet(series); var dps := series[0].dataPoints;
            forall k: Coord :: k.col == 0 ==>
              CellAt(w.sheet, k) == if 1 <= k.row < 1 + |dps| then Num(dps[k.row - 1].size) else Empty
    ensures var base := UnlabeledBase(series[0].dataPoints);
            UnlabeledSheet(series).outcome == ScanSeries(base, 1, series)
    ensures var base := UnlabeledBase(series[0].dataPoints); var w := UnlabeledSheet(series);
            w.outcome.Pass? ==>
            forall j, i :: 0 <= j < |series| && 0 <= i < |RunScan(base, 1, series, j).rows| ==>
              CellAt(w.sheet, Coord(1 + j, RunScan(base, 1, series, j).rows[i])) == Num(series[j].dataPoints[i].value)
    ensures var base := UnlabeledBase(series[0].dataPoints); var w := UnlabeledSheet(series);
            forall k: Coord :: k.col >= 1 && (k.col > |series| || k.row !in RunScan(base, 1, series, k.col - 1).rows) ==>
              CellAt(w.sheet, k) == Empty
  {
    var base := UnlabeledBase(series[0].dataPoints);
    var dps := series[0].dataPoints;
    forall k: Coord | k.col >= 1 && (k.col > |series| || k.row !in RunScan(base, 1, series, k.col - 1).rows)
      ensures CellAt(UnlabeledSheet(series).sheet, k) == Empty
    {
      PlaceSeriesKeeps(base, 1, 1, series, k);
      UnlabeledBaseAt(dps, k);
    }
    forall k: Coord | k.col == 0
      ensures CellAt(UnlabeledSheet(series).sheet, k) == if 1 <= k.row < 1 + |dps| then Num(dps[k.row - 1].size) else Empty
    {
      PlaceSeriesKeeps(base, 1, 1, series, k);
      UnlabeledBaseAt(dps, k);
    }
    PlaceSeriesOutcome(base, 1, 1, series);
    if UnlabeledSheet(series).outcome.Pass? {
      forall j, i | 0 <= j < |series| && 0 <= i < |RunScan(base, 1, series, j).rows| {
        PlaceSeriesAt(base, 1, 1, series, j, i);
      }
    }
  }

  /** With aligned runs the Excelize sheet is complete: value `i` of run `j` in column `j` + 1, row `i` + 1. */
  lemma UnlabeledSheetAligned(series: seq<Result>)
    requires |series| > 0 && SizesAligned(series)
    ensures UnlabeledSheet(series).outcome == Pass
    ensures forall j, i :: 0 <= j < |series| && 0 <= i < |series[j].dataPoints| ==>
              CellAt(UnlabeledSheet(series).sheet, Coord(1 + j, 1 + i)) == Num(series[j].dataPoints[i].value)
  {
    var dps := series[0].dataPoints;
    forall i | 0 <= i < |dps| ensures SizeCell(UnlabeledBase(dps), 1 + i) == Num(dps[i].size) {
      UnlabeledBaseAt(dps, Coord(0, 1 + i));
    }
    AlignedPlacement(UnlabeledBase(dps), 1, series);
  }

  /** A size that the first run lacks makes Excelize fail. */
  lemma UnlabeledSheetMissingSize(series: seq<Result>, j: nat, i: nat)
    requires |series| > 0 && j < |series| && i < |series[j].dataPoints|
    requires forall n :: 0 <= n < |series[0].dataPoints| ==>
               series[0].dataPoints[n].size != series[j].dataPoints[i].size
    ensures UnlabeledSheet(series).outcome.Fail?
  {
    var dps := series[0].dataPoints;
    var base := UnlabeledBase(dps);
    forall r | r >= 1 ensures SizeCell(base, r) != Num(series[j].dataPoints[i].size) {
      UnlabeledBaseAt(dps, Coord(0, r));
    }
    MissingSizeFails(base, 1, series, j, i);
  }

  /**
   * ExcelizeWithLabels with aligned runs succeeds, whatever the metadata,
   * and the data sheet holds the labels, the sizes and every value in its
   * place.
   */
  lemma LabeledExportAligned(meta: Option<SpreadsheetMetadata>, d: SpreadsheetData)
    requires HasResults(d) && SizesAligned(d.data.value.result)
    ensures LabeledExport(meta, d).outcome == Pass
    ensures var sheet := LabeledExport(meta, d).sheets[SheetName(d.sheetStart)]; var series := d.data.value.result;
            (forall j :: 0 <= j < |d.labels| ==> CellAt(sheet, Coord(1 + j, 1)) == Str(d.labels[j])) &&
            (forall i :: 0 <= i < |series[0].dataPoints| ==>
               CellAt(sheet, Coord(0, 2 + i)) == Num(series[0].dataPoints[i].size)) &&
            (forall j, i :: 0 <= j < |series| && 0 <= i < |series[j].dataPoints| ==>
               CellAt(sheet, Coord(1 + j, 2 + i)) == Num(series[j].dataPoints[i].value))
  {
    var withMeta := if meta.Some? then MetadataBook(NewBook(), meta.value) else NewBook();
    var p := Provisioned(withMeta, d.sheetStart);
    var s := p[SheetName(d.sheetStart)];
    LabeledSheetHeader(s, d.labels, d.data.value.result);
    LabeledSheetAligned(s, d.labels, d.data.value.result);
  }

  /**
   * The metadata survives the data export: the timestamp stays in A1 of
   * the metadata sheet, and content line `i` stays in row `i` + 2 unless
   * the data shares the sheet and the first run has more than `i` sizes,
   * in which case that cell holds size `i`.
   */
  lemma MetadataSurvivesExport(m: SpreadsheetMetadata, d: SpreadsheetData)
    requires HasResults(d)
    ensures var sheet := LabeledExport(Some(m), d).sheets[SheetName(m.sheetID)];
            CellAt(sheet, Coord(0, 1)) == Str(m.timestamp)
    ensures var sheet := LabeledExport(Some(m), d).sheets[SheetName(m.sheetID)]; var dps := d.data.value.result[0].dataPoints;
            forall i :: 0 <= i < |m.content| ==>
              CellAt(sheet, Coord(0, 2 + i)) ==
              if m.sheetID == d.sheetStart && i < |dps| then Num(dps[i].size) else Str(m.content[i])
  {
    var withMeta := MetadataBook(NewBook(), m);
    var metaName := SheetName(m.sheetID);
    var dataName := SheetName(d.sheetStart);
    var p := Provisioned(withMeta, d.sheetStart);
    MetadataBookLayout(NewBook(), m);
    if m.sheetID == d.sheetStart {
      LabeledSheetHeader(p[dataName], d.labels, d.data.value.result);
    } else {
      if metaName == dataName {
        SheetNameInjective(m.sheetID, d.sheetStart);
      }
    }
  }
}
