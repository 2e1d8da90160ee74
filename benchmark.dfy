/**
 * The records the export code consumes, and its error values.
 * Go's nil pointers to records become `Option`; Go's `error` results
 * become `Outcome` (no value) or `Attempt` (a value or an error).
 */
module Benchmark {

  datatype Option<+T> = None | Some(value: T)

  /** One measurement: a message size and the value measured for it. */
  datatype DataPoint = DataPoint(size: real, value: real)

  /** One benchmark run: a series of measurements. */
  datatype Result = Result(dataPoints: seq<DataPoint>)

  /** Several runs, one spreadsheet column each. */
  datatype Results = Results(result: seq<Result>)

  /** The data to export and where: the sheet number, the runs and one label per run. */
  datatype SpreadsheetData = SpreadsheetData(sheetStart: int, data: Option<Results>, labels: seq<string>)

  /** The metadata to export: its sheet number, a timestamp and one text per line. */
  datatype SpreadsheetMetadata = SpreadsheetMetadata(sheetID: int, timestamp: string, content: seq<string>)

  /** The errors of the export code, one per distinct message. */
  datatype Error =
    | UndefinedFile             // "undefined excelFile object"
    | UndefinedMetadata         // "undefined metadata"
    | UndefinedData             // "undefined data"
    | UndefinedSpreadsheetData  // "undefined spreadsheet data"
    | InvalidSheetStart(start: int)
    | UndefinedResults          // "undefined results"
    | EmptyResults              // "empty result dataset"
    | Unparsable(text: string)  // a size-column cell that is not a number
    | IOError(reason: string)   // saving the file failed
    | Wrapped(context: string, cause: Error)  // "<context> failed: <cause>"

  /** Success, or the error that ended the operation. */
  datatype Outcome = Pass | Fail(error: Error)

  /** A value, or the error that prevented computing it. */
  datatype Attempt<+T> = Success(value: T) | Failure(error: Error)

  /** What addDataToSpreadsheet relies on without checking: there are runs to index. */
  predicate HasResults(d: SpreadsheetData)
  {
    d.data.Some? && |d.data.value.result| > 0
  }

  /** The checks ExcelizeWithLabels makes before it builds a workbook, in their order. */
  function CheckSpreadsheetData(d: Option<SpreadsheetData>): (r: Outcome)
    ensures r.Pass? <==> d.Some? && d.value.sheetStart > 0 && HasResults(d.value)
    ensures d.None? ==> r == Fail(UndefinedSpreadsheetData)
    // a bad sheet number is reported whatever the runs are
    ensures d.Some? && d.value.sheetStart <= 0 ==> r == Fail(InvalidSheetStart(d.value.sheetStart))
    ensures d.Some? && d.value.sheetStart > 0 && d.value.data.None? ==> r == Fail(UndefinedResults)
    ensures d.Some? && d.value.sheetStart > 0 && d.value.data.Some? && d.value.data.value.result == [] ==>
              r == Fail(EmptyResults)
  {
    if d.None? then Fail(UndefinedSpreadsheetData)
    else if d.value.sheetStart <= 0 then Fail(InvalidSheetStart(d.value.sheetStart))
    else if d.value.data.None? then Fail(UndefinedResults)
    else if |d.value.data.value.result| == 0 then Fail(EmptyResults)
    else Pass
  }
}
