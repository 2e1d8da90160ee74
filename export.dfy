/**
 * The export entry points and their helpers, as methods that update a
 * workbook cell by cell. Each is proved against the layout functions:
 * its final workbook and its error are those the functions describe.
 */
module Export {
  import opened Sheets
  import opened Benchmark
  import opened Scan
  import opened Layout

  /** The context NewExcelSheetsWithLabels adds to an error of ExcelizeWithLabels. */
  const EXCELIZE_FAILED: string := "results.Excelize()"

  /** Stores `cells` down column `at.col` of sheet `sheetID`, one per row from row `at.row`. */
  method WriteColumn(file: Workbook, sheetID: string, at: Coord, cells: seq<Cell>)
    requires file.Valid() && sheetID in file.sheets && at.row >= 1
    modifies file
    ensures file.Valid()
    ensures file.sheets == old(file.sheets)[sheetID := WriteDown(old(file.sheets[sheetID]), at, cells)]
  {
    ghost var before := file.sheets;
    var lineID := at.row;
    for i := 0 to |cells|
      invariant file.Valid() && lineID == at.row + i
      invariant file.sheets == before[sheetID := WriteDown(before[sheetID], at, cells[..i])]
    {
      WriteDownSnoc(before[sheetID], at, cells[..i], cells[i]);
      assert cells[..i + 1] == cells[..i] + [cells[i]];
      file.SetCellValue(sheetID, Coord(at.col, lineID), cells[i]);
      lineID := lineID + 1;
    }
    assert cells[..|cells|] == cells;
  }

  /** Stores `cells` along row `at.row` of sheet `sheetID`, one per column from column `at.col`. */
  method WriteRow(file: Workbook, sheetID: string, at: Coord, cells: seq<Cell>)
    requires file.Valid() && sheetID in file.sheets && at.row >= 1
    modifies file
    ensures file.Valid()
    ensures file.sheets == old(file.sheets)[sheetID := WriteAcross(old(file.sheets[sheetID]), at, cells)]
  {
    ghost var before := file.sheets;
    var col := at.col;
    for j := 0 to |cells|
      invariant file.Valid() && col == at.col + j
      invariant file.sheets == before[sheetID := WriteAcross(before[sheetID], at, cells[..j])]
    {
      WriteAcrossSnoc(before[sheetID], at, cells[..j], cells[j]);
      assert cells[..j + 1] == cells[..j] + [cells[j]];
      file.SetCellValue(sheetID, Coord(col, at.row), cells[j]);
      col := col + 1;
    }
    assert cells[..|cells|] == cells;
  }

  /**
   * addValuesToExcel: for each data point, walks down column A of sheet
   * `sheetID` from the current row to the row holding the point's size,
   * stores the value in column `col` of that row, and goes on from the row
   * below. A cell of column A that is not a number ends the call with an
   * error; the values already stored stay stored.
   */
  method AddValuesToExcel(file: Workbook, sheetID: string, lineStart: int, col: nat, datapoints: seq<DataPoint>)
    returns (err: Outcome)
    requires file.Valid() && sheetID in file.sheets
    modifies file
    ensures file.Valid()
    ensures var w := PlaceValues(old(file.sheets[sheetID]), lineStart, col, datapoints);
            file.sheets == old(file.sheets)[sheetID := w.sheet] && err == w.outcome
  {
    ghost var before := file.sheets;
    var lineID := lineStart;
    for i := 0 to |datapoints|
      invariant file.Valid() && sheetID in file.sheets
      invariant file.sheets == before[sheetID := file.sheets[sheetID]]
      invariant PlaceValues(before[sheetID], lineStart, col, datapoints) ==
                PlaceValues(file.sheets[sheetID], lineID, col, datapoints[i..])
    {
      var d := datapoints[i];
      assert datapoints[i..][0] == d && datapoints[i..][1..] == datapoints[i + 1..];
      ghost var sheet := file.sheets[sheetID];
      ghost var scanFrom := lineID;
      PlaceValuesStep(sheet, scanFrom, col, datapoints[i..]);
      // find the row that holds d's size
      while true
        invariant file.Valid() && file.sheets == before[sheetID := sheet]
        invariant FindRow(sheet, lineID, d.size) == FindRow(sheet, scanFrom, d.size)
        decreases SizeCellsFrom(sheet, lineID)
      {
        var cell := file.GetCellValue(sheetID, Coord(0, lineID));
        if !cell.Num? {
          return Fail(Unparsable(CellText(cell)));
        }
        if cell.x == d.size {
          break;
        }
        assert Coord(0, lineID) in SizeCellsFrom(sheet, lineID) - SizeCellsFrom(sheet, lineID + 1);
        lineID := lineID + 1;
      }
      // a number was read there, so the row is a real one
      assert lineID >= 1;
      file.SetCellValue(sheetID, Coord(col, lineID), Num(d.value));
      lineID := lineID + 1;
    }
    return Pass;
  }

  /**
   * prepSheet: the name of sheet number `sheetNum`, added to the workbook
   * unless it is the default sheet. A missing workbook is an error.
   */
  method PrepSheet(file: Workbook?, sheetNum: int) returns (r: Attempt<string>)
    requires file != null ==> file.Valid()
    modifies file
    ensures file == null ==> r == Failure(UndefinedFile)
    ensures file != null ==>
              file.Valid() && r == Success(SheetName(sheetNum)) &&
              file.sheets == Provisioned(old(file.sheets), sheetNum)
  {
    if file == null {
      return Failure(UndefinedFile);
    }
    var sheetID := SheetName(sheetNum);
    if sheetID != DEFAULT_SHEET {
      file.NewSheet(sheetID);
    }
    return Success(sheetID);
  }

  /**
   * addMetadataToSpreadsheet: the timestamp in A1 of the metadata sheet,
   * then one content line per row below it. A missing workbook or
   * metadata is an error.
   */
  method AddMetadataToSpreadsheet(file: Workbook?, metadata: Option<SpreadsheetMetadata>) returns (err: Outcome)
    requires file != null ==> file.Valid()
    modifies file
    ensures file == null ==> err == Fail(UndefinedFile)
    ensures file != null ==> file.Valid()
    ensures file != null && metadata.None? ==> err == Fail(UndefinedMetadata) && file.sheets == old(file.sheets)
    ensures file != null && metadata.Some? ==>
              err == Pass && file.sheets == MetadataBook(old(file.sheets), metadata.value)
  {
    if file == null {
      return Fail(UndefinedFile);
    }
    if metadata.None? {
      return Fail(UndefinedMetadata);
    }
    var m := metadata.value;
    // prepSheet only fails on a missing workbook, which was ruled out above
    var prepared := PrepSheet(file, m.sheetID);
    var sheetID := prepared.value;
    ghost var p := file.sheets;
    assert p == Provisioned(old(file.sheets), m.sheetID) && sheetID == SheetName(m.sheetID);

    // the timestamp, then one content line per row
    file.SetCellValue(sheetID, Coord(0, 1), Str(m.timestamp));
    WriteColumn(file, sheetID, Coord(0, 2), Strs(m.content));
    assert file.sheets == p[sheetID := WriteDown(p[sheetID][Coord(0, 1) := Str(m.timestamp)], Coord(0, 2), Strs(m.content))];
    return Pass;
  }

  /**
   * The value loop shared by Excelize and addDataToSpreadsheet: run `j`
   * goes into column 1 + `j`, every run scanning from row `lineID`; the
   * first error, wrapped, ends the loop.
   */
  method AddRuns(file: Workbook, sheetID: string, lineID: int, runs: seq<Result>) returns (err: Outcome)
    requires file.Valid() && sheetID in file.sheets
    modifies file
    ensures file.Valid()
    ensures var w := PlaceSeries(old(file.sheets[sheetID]), lineID, 1, runs);
            file.sheets == old(file.sheets)[sheetID := w.sheet] && err == w.outcome
  {
    ghost var before := file.sheets;
    ghost var cur := before[sheetID];
    var col := 1;
    for j := 0 to |runs|
      invariant file.Valid() && col == 1 + j
      invariant file.sheets == before[sheetID := cur]
      invariant PlaceSeries(before[sheetID], lineID, 1, runs) == PlaceSeries(cur, lineID, col, runs[j..])
    {
      ghost var w := PlaceValues(cur, lineID, col, runs[j].dataPoints);
      assert runs[j..][0] == runs[j] && runs[j..][1..] == runs[j + 1..];
      PlaceSeriesStep(cur, lineID, col, runs[j..]);
      var e := AddValuesToExcel(file, sheetID, lineID, col, runs[j].dataPoints);
      cur := w.sheet;
      if e.Fail? {
        return Fail(Wrapped(ADD_VALUES_FAILED, e.error));
      }
      col := col + 1;
    }
    return Pass;
  }

  /**
   * The writes of addDataToSpreadsheet once its sheet is ready: the
   * labels across row 1 from column B, the first run's sizes down column A
   * from row 2, then every run's values.
   */
  method FillDataSheet(file: Workbook, sheetID: string, labels: seq<string>, runs: seq<Result>) returns (err: Outcome)
    requires file.Valid() && sheetID in file.sheets && |runs| > 0
    modifies file
    ensures file.Valid()
    ensures var w := LabeledSheet(old(file.sheets[sheetID]), labels, runs);
            file.sheets == old(file.sheets)[sheetID := w.sheet] && err == w.outcome
  {
    ghost var p := file.sheets;
    // the labels across row 1 from column B
    WriteRow(file, sheetID, Coord(1, 1), Strs(labels));
    // the message sizes of the first run down column A from row 2
    WriteColumn(file, sheetID, Coord(0, 2), Sizes(runs[0].dataPoints));
    assert file.sheets == p[sheetID := LabeledBase(p[sheetID], labels, runs[0].dataPoints)];
    // the values
    err := AddRuns(file, sheetID, 2, runs);
  }

  /**
   * addDataToSpreadsheet: prepares the data sheet, then fills it with the
   * labels, the first run's sizes and every run's values. A missing
   * workbook or data is an error.
   */
  method AddDataToSpreadsheet(file: Workbook?, data: Option<SpreadsheetData>) returns (err: Outcome)
    requires file != null ==> file.Valid()
    requires file != null && data.Some? ==> HasResults(data.value)
    modifies file
    ensures file == null ==> err == Fail(UndefinedFile)
    ensures file != null ==> file.Valid()
    ensures file != null && data.None? ==> err == Fail(UndefinedData) && file.sheets == old(file.sheets)
    ensures file != null && data.Some? ==>
              var b := DataBook(old(file.sheets), data.value);
              file.sheets == b.sheets && err == b.outcome
  {
    if file == null {
      return Fail(UndefinedFile);
    }
    if data.None? {
      return Fail(UndefinedData);
    }
    var d := data.value;
    // prepSheet only fails on a missing workbook, which was ruled out above
    var prepared := PrepSheet(file, d.sheetStart);
    var sheetID := prepared.value;
    ghost var p := file.sheets;
    assert p == Provisioned(old(file.sheets), d.sheetStart) && sheetID == SheetName(d.sheetStart);
    err := FillDataSheet(file, sheetID, d.labels, d.data.value.result);
  }

  /**
   * Excelize without the final save: the first run's sizes down column A
   * of the default sheet from row 1, then every run's values. `save` is
   * what saving the workbook reports; `file` is the workbook built, the
   * one that is saved when the values all went in.
   */
  method Excelize(results: Option<Results>, save: Outcome) returns (err: Outcome, file: Workbook?)
    requires results.Some? ==> |results.value.result| > 0
    ensures results.None? ==> err == Fail(UndefinedData) && file == null
    ensures results.Some? ==>
              var w := UnlabeledSheet(results.value.result);
              file != null && fresh(file) && file.sheets == map[DEFAULT_SHEET := w.sheet] &&
              err == if w.outcome.Fail? then w.outcome else save
  {
    if results.None? {
      return Fail(UndefinedData), null;
    }
    var runs := results.value.result;
    file := new Workbook();

    // the message sizes of the first run down column A from row 1
    WriteColumn(file, DEFAULT_SHEET, Coord(0, 1), Sizes(runs[0].dataPoints));
    // the values
    err := AddRuns(file, DEFAULT_SHEET, 1, runs);
    if err.Fail? {
      return err, file;
    }
    return save, file;
  }

  /**
   * ExcelizeWithLabels: checks the data, then builds a new workbook with
   * the metadata (when there is some) and then the data. Any error yields
   * no workbook.
   */
  method ExcelizeWithLabels(metadata: Option<SpreadsheetMetadata>, data: Option<SpreadsheetData>)
    returns (file: Workbook?, err: Outcome)
    ensures CheckSpreadsheetData(data).Fail? ==> file == null && err == CheckSpreadsheetData(data)
    ensures CheckSpreadsheetData(data).Pass? ==>
              var b := LabeledExport(metadata, data.value);
              err == b.outcome &&
              (err.Pass? ==> file != null && fresh(file) && file.sheets == b.sheets) &&
              (err.Fail? ==> file == null)
  {
    if data.None? {
      return null, Fail(UndefinedSpreadsheetData);
    }
    var d := data.value;
    if d.sheetStart <= 0 {
      return null, Fail(InvalidSheetStart(d.sheetStart));
    }
    if d.data.None? {
      return null, Fail(UndefinedResults);
    }
    if |d.data.value.result| == 0 {
      return null, Fail(EmptyResults);
    }

    var excelFile := new Workbook();
    if metadata.Some? {
      // both the workbook and the metadata are present, so this cannot fail
      var e := AddMetadataToSpreadsheet(excelFile, metadata);
    }
    var e := AddDataToSpreadsheet(excelFile, data);
    if e.Fail? {
      return null, Fail(Wrapped(ADD_DATA_FAILED, e.error));
    }
    return excelFile, Pass;
  }

  /**
   * NewExcelSheetsWithLabels without the save itself: `save` is what
   * saving the workbook reports, and `file` the workbook saved.
   */
  method NewExcelSheetsWithLabels(metadata: Option<SpreadsheetMetadata>, data: Option<SpreadsheetData>, save: Outcome)
    returns (err: Outcome, file: Workbook?)
    ensures CheckSpreadsheetData(data).Fail? ==>
              file == null && err == Fail(Wrapped(EXCELIZE_FAILED, CheckSpreadsheetData(data).error))
    ensures CheckSpreadsheetData(data).Pass? ==>
              var b := LabeledExport(metadata, data.value);
              (b.outcome.Fail? ==> file == null && err == Fail(Wrapped(EXCELIZE_FAILED, b.outcome.error))) &&
              (b.outcome.Pass? ==> file != null && fresh(file) && file.sheets == b.sheets && err == save)
  {
    var e;
    file, e := ExcelizeWithLabels(metadata, data);
    if e.Fail? {
      return Fail(Wrapped(EXCELIZE_FAILED, e.error)), null;
    }
    return save, file;
  }
}
