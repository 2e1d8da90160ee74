# Spreadsheet export of benchmark results

A model of the spreadsheet export in `pkg/benchmark/results.go` of
go_benchmark. That file turns benchmark results into an MS Excel workbook
through the excelize library. The results are runs of (message size, value)
data points. It does this in two ways:

- **Excelize**: the first run's message sizes go down column A of the
  default sheet from row 1, and each run's values go into its own column
  from B on. Then the workbook is saved.
- **ExcelizeWithLabels / NewExcelSheetsWithLabels**: the input is checked
  first. Optional metadata (a timestamp and lines of text) goes down
  column A of its sheet. On the data sheet, the labels go across row 1
  from B, the first run's sizes go down column A from row 2, and each
  run's values go into its own column.

A value is placed by `addValuesToExcel`. It walks down column A from the
current row until it meets the data point's size, and stops with an error
at the first cell that is not a number. It writes the value on that row,
and the next data point's walk starts on the row below.

The model is in six modules:

| file | module | contents |
|---|---|---|
| `decimal.dfy` | `Decimal` | `%d` rendering of integers, used for sheet names, and its injectivity |
| `sheets.dfy` | `Sheets` | cells, addresses, sheets; `WriteDown` and `WriteAcross`; the `Workbook` class that stands for an excelize file |
| `benchmark.dfy` | `Benchmark` | the records (`DataPoint`, `Result`, `Results`, `SpreadsheetData`, `SpreadsheetMetadata`), the errors, and the input checks of ExcelizeWithLabels |
| `scan.dfy` | `Scan` | the row search (`FindRow`), the scans of one run (`ScanAll`), and what `addValuesToExcel` and the loop over runs write (`PlaceValues`, `PlaceSeries`) |
| `layout.dfy` | `Layout` | sheet naming, the prepared workbook, the metadata sheet, the labelled and unlabelled data sheets, and the whole labelled export |
| `export.dfy` | `Export` | the export code itself, as methods that update a `Workbook` cell by cell, each proved to produce what the `Layout` and `Scan` functions describe |

Go's nil pointers become `Option` values or a nullable `Workbook?`. Go's
`error` becomes `Outcome` (`Pass`, or `Fail` with an error value). The
wrapping done by `fmt.Errorf("...: %w")` becomes `Wrapped(context, cause)`.

The central theorem is about writes not disturbing later scans. Writes go
into columns right of A, so they never change what the scans read. Filling
a changing sheet therefore ends exactly as the runs' scans on the
unchanged sheet end. Every value lands on the row those scans find, and
nothing else changes. When every run's sizes are, in order, a prefix of
the first run's sizes, every value lands at column 1 + j, row top + i. A
size missing from column A makes the export fail.

## Model

| member | source | states |
|---|---|---|
| Decimal.NatToDecimal | pkg/benchmark/results.go:82 | the `%d` text of a natural is a non-empty string of digits with no leading zero; it has one character exactly for numbers below 10 |
| Decimal.NatToDecimalInjective | pkg/benchmark/results.go:82 | two naturals with the same decimal text are equal |
| Decimal.IntToDecimal | pkg/benchmark/results.go:82 | definition of Go's `%d` of an int: a '-' before the digits of a negative number, as an unchecked metadata sheet number can give ("Sheet-3"); IntToDecimalInjective and Layout.SheetNameIsDefault state its properties |
| Decimal.IntToDecimalInjective | pkg/benchmark/results.go:82 | two integers with the same `%d` text (sign included) are equal |
| Sheets.WriteDown | pkg/benchmark/results.go:112-115 | definition of the one-cell-per-row store loop down a column, as also at lines 144-147 and 172-175; WriteDownAt and WriteDownSnoc state its properties |
| Sheets.WriteAcross | pkg/benchmark/results.go:137-140 | definition of the label loop, one cell per column along a row; WriteAcrossAt and WriteAcrossSnoc state its properties |
| Sheets.WriteDownAt | pkg/benchmark/results.go:112-115 | writing cells down a column puts cell `i` at row `at.row + i` of that column and leaves every other cell as it was |
| Sheets.WriteAcrossAt | pkg/benchmark/results.go:137-140 | writing cells along a row puts cell `j` at column `at.col + j` of that row and leaves every other cell as it was |
| Sheets.WriteDownSnoc | pkg/benchmark/results.go:144-147 | writing one more cell below the others is one more single-cell store, one row further down |
| Sheets.WriteAcrossSnoc | pkg/benchmark/results.go:137-140 | writing one more label is one more single-cell store, one column further right |
| Sheets.Workbook.constructor | pkg/benchmark/results.go:168 | a new workbook holds exactly one empty sheet, "Sheet1" |
| Sheets.Workbook.GetCellValue | pkg/benchmark/results.go:61 | definition of reading a cell: its content, or empty when it was never written or names no cell |
| Sheets.Workbook.NewSheet | pkg/benchmark/results.go:85 | the named sheet exists afterwards; existing sheets are untouched; a new one starts empty |
| Sheets.Workbook.SetCellValue | pkg/benchmark/results.go:71 | exactly one cell of one sheet changes, to the value given |
| Benchmark.CheckSpreadsheetData | pkg/benchmark/results.go:203-217 | the data passes exactly when it is present, its sheet number is positive and it has at least one run; each failure is reported with the error of the first check, in the source's order (missing data, then a sheet number ≤ 0, then missing results, then an empty result list) |
| Scan.FindRow | pkg/benchmark/results.go:60-70 | a row found lies at or below the start row, holds the size in column A, and every row above it from the start holds a different number |
| Scan.FindRowFailsAt | pkg/benchmark/results.go:61-65 | a failed search stopped at a cell that is not a number, with only other sizes above it; the error carries that cell's text |
| Scan.FindRowFailsIf | pkg/benchmark/results.go:61-65 | a cell that is not a number, with only other sizes above it, makes the search fail; an empty cell counts as not a number |
| Scan.FindRowFailure | pkg/benchmark/results.go:60-70 | the search fails if and only if a non-number cell comes before the size; the error carries the text of that cell |
| Scan.FindRowLocal | pkg/benchmark/results.go:61 | the search reads only column A, at and below its start row |
| Scan.ScanAll | pkg/benchmark/results.go:57-73 | there is at most one row per data point, and the scans pass exactly when every data point gets a row |
| Scan.ScanAllAt | pkg/benchmark/results.go:58-72 | the `i`-th row is found by a search that starts one row below the previous row found |
| Scan.ScanAllFails | pkg/benchmark/results.go:63-65 | a failure is the failed search of the first data point without a row, starting below the last row found |
| Scan.ScanAllRows | pkg/benchmark/results.go:58-72 | the rows found start at or below `lineStart`, strictly increase, and each holds its data point's size in column A |
| Scan.ScanAllBelow | pkg/benchmark/results.go:57-72 | no row above the start row is ever found |
| Scan.ScanAllLocal | pkg/benchmark/results.go:61 | the scans read only column A, at and below the start row |
| Scan.AlignedScan | pkg/benchmark/results.go:58-72 | when column A lists a run's sizes in order from the start row, data point `i` lands on start row + `i` and all scans pass, repeated sizes included |
| Scan.ScanAllMissing | pkg/benchmark/results.go:60-65 | a size that does not occur in column A at or below the start row makes the scans fail |
| Scan.WriteKeepsScans | pkg/benchmark/results.go:71-72 | a value stored on row `r` changes no scan that starts below `r` |
| Scan.PlaceValues | pkg/benchmark/results.go:55-75 | definition of what addValuesToExcel writes and reports, on a sheet that changes as it goes; its properties are in PlaceValuesOutcome, PlaceValuesAt, PlaceValuesKeeps and PlaceValuesSpec |
| Scan.PlaceValuesOutcome | pkg/benchmark/results.go:55-75 | addValuesToExcel ends as the scans on the sheet before any write end |
| Scan.PlaceValuesKeeps | pkg/benchmark/results.go:55-75 | a cell outside the found rows of the value column is left unchanged, also when the call fails part-way |
| Scan.PlaceValuesAt | pkg/benchmark/results.go:55-75 | the value of data point `i` is in the value column, on the row found for point `i` |
| Scan.PlaceValuesSpec | pkg/benchmark/results.go:55-75 | summarises the three lemmas above: outcome as the scans, each value on its row, every other cell unchanged |
| Scan.KeepsSizes | pkg/benchmark/results.go:71 | writing into a column other than A keeps column A |
| Scan.PlaceSeries | pkg/benchmark/results.go:150-158 | definition of the loop over runs, run `j` into column `col` + `j`, stopping at the first error wrapped as "addValuesToExcel() failed"; its properties are in PlaceSeriesOutcome, PlaceSeriesAt and PlaceSeriesKeeps |
| Scan.ScanSeries | pkg/benchmark/results.go:152-158 | definition of how the runs' scans end on an unchanged sheet: the first failing run's error, wrapped; ScanSeriesPass and PlaceSeriesOutcome relate it to the runs and to PlaceSeries |
| Scan.ScanSeriesPass | pkg/benchmark/results.go:152-158 | all runs are placed exactly when each run's own scans pass |
| Scan.ScanSeriesLocal | pkg/benchmark/results.go:152-158 | whether the runs' scans pass depends only on column A at and below the start row |
| Scan.PlaceSeriesKeeps | pkg/benchmark/results.go:152-158 | cells left of the first run's column, right of the last run's column, or above the start row are unchanged; with the runs right of column A, so is every cell of run `j`'s column on a row that run's scans do not find, also when the loop fails part-way |
| Scan.PlaceSeriesOutcome | pkg/benchmark/results.go:180-186 | with the runs right of column A, the loop ends as the runs' scans on the unchanged sheet end, and the error is wrapped as "addValuesToExcel() failed" |
| Scan.PlaceSeriesAt | pkg/benchmark/results.go:152-158 | after a successful loop, value `i` of run `j` is in column `col` + `j`, on the row that run's own scans find on the unchanged sheet |
| Layout.SheetName | pkg/benchmark/results.go:82 | definition of the name of sheet `n`, "Sheet" followed by `%d` of `n`; SheetNameIsDefault and SheetNameInjective state its properties |
| Layout.SheetNameIsDefault | pkg/benchmark/results.go:82-86 | "Sheet" + `%d` of `n` is "Sheet1" if and only if `n` is 1 |
| Layout.SheetNameInjective | pkg/benchmark/results.go:82 | different sheet numbers name different sheets |
| Layout.Provisioned | pkg/benchmark/results.go:77-88 | after prepSheet, sheet `n` exists, earlier sheets are untouched, and a sheet that was missing starts empty |
| Layout.ProvisionedAdds | pkg/benchmark/results.go:84-86 | prepSheet adds a sheet if and only if `n` ≠ 1 and the sheet is missing |
| Layout.MetadataBook | pkg/benchmark/results.go:99-117 | the metadata export touches no sheet except its own |
| Layout.MetadataBookAt | pkg/benchmark/results.go:104-115 | on the metadata sheet, A1 holds the timestamp, A(`i`+2) holds content line `i`, and every other cell is as prepSheet left it |
| Layout.MetadataBookLayout | pkg/benchmark/results.go:104-115 | A1 holds the timestamp, content line `i` is in A(`i`+2), and every other cell is unchanged |
| Layout.LabeledBase | pkg/benchmark/results.go:134-147 | definition of the labelled sheet before the values go in: labels along row 1 from B, then the first run's sizes down A from row 2; LabeledBaseAt gives each cell |
| Layout.LabeledBaseAt | pkg/benchmark/results.go:134-147 | before the values go in, the labels are across row 1 from B, the first run's sizes are down A from row 2, and every other cell is as it was |
| Layout.UnlabeledBase | pkg/benchmark/results.go:170-175 | definition of the Excelize sheet before the values go in: the first run's sizes down A from row 1 on an empty sheet; UnlabeledBaseAt gives each cell |
| Layout.UnlabeledBaseAt | pkg/benchmark/results.go:170-175 | before the values go in, the Excelize sheet holds the first run's sizes down A from row 1 and nothing else |
| Layout.LabeledSheet | pkg/benchmark/results.go:134-158 | definition of the data sheet addDataToSpreadsheet produces: LabeledBase, then the runs placed from column B scanning from row 2; LabeledSheetAt, LabeledSheetHeader, LabeledSheetValues, LabeledSheetAligned and LabeledSheetMissingSize state its properties |
| Layout.UnlabeledSheet | pkg/benchmark/results.go:170-186 | definition of the Excelize sheet: UnlabeledBase, then the runs placed from column B scanning from row 1; UnlabeledSheetLayout, UnlabeledSheetAligned and UnlabeledSheetMissingSize state its properties |
| Layout.DataBook | pkg/benchmark/results.go:129-159 | addDataToSpreadsheet changes no sheet except its data sheet, which it adds if missing |
| Layout.NewBook | pkg/benchmark/results.go:219 | definition of the workbook `excelize.NewFile()` returns: one empty "Sheet1"; the ensures of Sheets.Workbook.constructor gives the same contents |
| Layout.LabeledExport | pkg/benchmark/results.go:219-236 | definition of the workbook ExcelizeWithLabels builds once its checks pass: metadata first when present, then the data, an error wrapped as "addDataToSpreadsheet() failed"; LabeledExportAligned and MetadataSurvivesExport state its properties |
| Layout.AlignedRun | pkg/benchmark/results.go:58-72 | a run whose sizes are a prefix of the listed sizes is found row after row from the top |
| Layout.AlignedPlacementAt | pkg/benchmark/results.go:150-158 | with aligned runs placed, value `i` of run `j` is in column `j` + 1, row top + `i` |
| Layout.AlignedPlacement | pkg/benchmark/results.go:150-158 | with aligned runs every run is placed, and value `i` of run `j` is in column `j` + 1, row top + `i` |
| Layout.MissingSizeFails | pkg/benchmark/results.go:60-65 | a size that is not in column A at or below the top row makes the loop over runs fail |
| Layout.LabeledSheetAt | pkg/benchmark/results.go:134-158 | every cell of the labelled sheet that receives no value holds its label, its size or its earlier content: the header cells, the cells right of the last run, and the cells of run `j`'s column on rows its scans do not find |
| Layout.LabeledSheetHeader | pkg/benchmark/results.go:134-147 | the labelled sheet holds the labels across row 1 from B and the first run's sizes down A from row 2; the values do not overwrite them |
| Layout.LabeledSheetValues | pkg/benchmark/results.go:149-158 | the labelled sheet's loop ends as the runs' scans of its header end; on success run `j`'s values are in column `j` + 1 at the rows those scans find |
| Layout.LabeledSheetAligned | pkg/benchmark/results.go:134-159 | with aligned runs, addDataToSpreadsheet succeeds and value `i` of run `j` is at column `j` + 1, row `i` + 2 |
| Layout.LabeledSheetMissingSize | pkg/benchmark/results.go:143-156 | a size the first run lacks makes addDataToSpreadsheet fail, when column A has no number below the first run's sizes |
| Layout.UnlabeledSheetLayout | pkg/benchmark/results.go:170-186 | column A of the Excelize sheet holds exactly the first run's sizes from A1; the loop ends as the scans end; on success each value is on the row its scans find; every other cell is empty, also after a failure |
| Layout.UnlabeledSheetAligned | pkg/benchmark/results.go:170-186 | with aligned runs, Excelize fills every value, at column `j` + 1, row `i` + 1 |
| Layout.UnlabeledSheetMissingSize | pkg/benchmark/results.go:170-186 | a size the first run lacks makes Excelize fail |
| Layout.LabeledExportAligned | pkg/benchmark/results.go:219-236 | with aligned runs, ExcelizeWithLabels succeeds whatever the metadata, and its data sheet holds the labels, the sizes and every value in place |
| Layout.MetadataSurvivesExport | pkg/benchmark/results.go:224-234 | the metadata is written before the data: its timestamp stays in A1, and content line `i` stays in A(`i`+2) unless the data shares the sheet and the first run has more than `i` sizes, in which case the cell holds size `i` |
| Export.WriteColumn | pkg/benchmark/results.go:112-115 | storing cells one per row down a column leaves the sheet as `WriteDown` describes; other sheets are unchanged |
| Export.WriteRow | pkg/benchmark/results.go:137-140 | storing cells one per column along a row leaves the sheet as `WriteAcross` describes; other sheets are unchanged |
| Export.AddValuesToExcel | pkg/benchmark/results.go:55-75 | the sheet ends as `PlaceValues` describes and the error is the one `PlaceValues` reports; no other sheet changes |
| Export.PrepSheet | pkg/benchmark/results.go:77-88 | a missing workbook is an error; otherwise the result is "Sheet"+`n` and the workbook is `Provisioned` |
| Export.AddMetadataToSpreadsheet | pkg/benchmark/results.go:90-118 | a missing workbook or missing metadata is an error and changes nothing; otherwise the result is `Pass` and the workbook is `MetadataBook` |
| Export.AddRuns | pkg/benchmark/results.go:150-158 | the loop over runs leaves the sheet and the error as `PlaceSeries` from column B describes |
| Export.FillDataSheet | pkg/benchmark/results.go:134-159 | the labels, the sizes and the values leave the sheet and the error as `LabeledSheet` describes |
| Export.AddDataToSpreadsheet | pkg/benchmark/results.go:120-160 | a missing workbook or missing data is an error and changes nothing; otherwise the workbook and the error are those of `DataBook` |
| Export.Excelize | pkg/benchmark/results.go:163-194 | missing results give "undefined data" and no workbook; otherwise a new workbook whose only sheet is `UnlabeledSheet`; the error is the loop's, or else the save's |
| Export.ExcelizeWithLabels | pkg/benchmark/results.go:202-237 | a failed input check gives its error and no workbook; otherwise the error is that of `LabeledExport`, and there is a workbook holding `LabeledExport`'s sheets exactly when there is no error |
| Export.NewExcelSheetsWithLabels | pkg/benchmark/results.go:242-254 | an error of ExcelizeWithLabels comes back wrapped as "results.Excelize() failed", with no workbook; otherwise the result is the save's, and the saved workbook is `LabeledExport`'s |

## Left out

- Saving the workbook (`SaveAs`) is file I/O. Its result is a parameter, `save`, of `Export.Excelize` and `Export.NewExcelSheetsWithLabels`, and the file path is dropped.
- `notation.IntToAA` and the "A1"-style cell names are not modelled. A cell address is an integer column (0 is A) and a row number. A row below 1 names no cell: it reads as empty, which is what `GetCellValue` gives for an invalid name.
- `strconv.ParseFloat` and the number formatting of the spreadsheet library are not modelled. A numeric cell reads as its number. An empty or text cell is "not a number" and yields the error `Unparsable` with the cell's text; text that happens to spell a number is therefore not parsed. Sizes and values are exact reals, not float64.
- The error texts are error values. `Unparsable(text)` stands for "unable to parse <text>: <ParseFloat error>", without the inner ParseFloat error.
- Export.Excelize: requires a non-empty list of runs, because the source indexes `Result[0]` without a check and panics on an empty list.
- Export.AddDataToSpreadsheet: requires the data to hold at least one run, for the same reason. Its only caller, ExcelizeWithLabels, checks this first.
- nil `*DataPoint` and `*Result` entries would panic in the source. They cannot be expressed here, because the records hold values, not pointers.
- The "prepSheet() failed" branches of addMetadataToSpreadsheet and addDataToSpreadsheet are not modelled as code. prepSheet fails only on a nil workbook, which both functions have already ruled out.
- The `excelize.NewFile() == nil` branch of ExcelizeWithLabels, and its "addMetadataToSpreadsheet() failed" branch, are not modelled as code. A new workbook is never missing, and with both the workbook and the metadata present, `Export.AddMetadataToSpreadsheet` always returns `Pass`.
- `NewSheet` on a name that already exists is taken to keep that sheet as it is. This is the library's behaviour and is not visible in this file.
- The errors `SetCellValue` may return are ignored by the source, and every address written here is a valid cell, so they are left out.
- The internals of excelize (styles, XML, shared strings) and `pkg/benchmark/benchmark.go` are not part of this model.
