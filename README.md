# Spreadsheet handle, modelled in Dafny

`Spreadsheet.py` defines one class, `Spreadsheet`. It wraps a spreadsheet
library. A handle is bound to one workbook file and to that workbook's
active sheet. It reads and writes single cells, columns and rows, appends
after the last filled cell of a row or column, and creates named sheets.
Every call that changes the workbook saves the whole workbook to disk
before it returns.

The model has three modules:

- `Cells` (`cells.dfy`) is the abstract sheet. A sheet is a title plus two
  finite maps from 1-based `Pos(row, col)` positions: one to the values
  present there, one to the font (bold, italic) set there. A position with
  no entry in the value map is an empty cell, the library's `None`. Column
  and row operations are the same operation along one of two axes (`Down`
  walks a column, `Across` walks a row). So the gap-terminated scan `Run`
  and the batch-write frame `WrittenAlong` are each defined once. This
  module also holds the lemmas that connect writes, appends and reads.
- `Strings` (`strings.dfy`) gives a file name the `.xlsx` extension, the
  same way Python's `filename[-5::]` test does. It also renders the
  decimal `str(row)` used in the key of `read_row`.
- `Spreadsheets` (`spreadsheet.dfy`) holds the `Spreadsheet` class. Its
  fields are `filename`, `file` (the workbook: a sheet list and its active
  index) and `sheet` (the active-sheet index, fixed when the handle is
  opened). The field `disk` maps each path to the workbook saved there.
  `Open` is the constructor logic of `__init__`, including load mode,
  create mode and load failure. `Saved()` says the workbook in memory is
  the one on disk at the handle's path. Every method that models a
  mutating call of `Spreadsheet` ensures it: `Open` (in both modes),
  `Save`, `Write`, the batch writes, the appends and `CreateSheets`. Two
  helpers do not. `SetCell` is the library's write of one cell inside a
  batch, before the batch's single save. `Attach` is the bare
  constructor that `Open` uses.

The reads scan with a `while` loop, as in Spreadsheet.py. The loop is
written once, as the method `Scan`, and `ReadColumn` and `ReadRow` call it
along their own axis. It is specified by `Run`, whose contract says
exactly what one scan returns: the values at consecutive positions from
the start, with the position just past them empty. The batch writes are
one `for` loop (`WriteLine`) that updates the active sheet cell by cell,
then saves once. `write_column` and
`write_row` call it along their own axis. The appends first scan for the
first empty cell, then call the batch write from there.

Python's default arguments are Dafny default values: `load := true`,
`header := true`, `startRow := 1`, `startCol := 1`, `bold := false` and
`italics := false`. The batch writes and appends take one extra argument,
`encodable` (see "## Left out"). It comes before the defaulted ones, so
Python's `write_column(col, content, start_row)` is
`WriteColumn(col, content, encodable, startRow)`, and
`append_row(row, content)` is `AppendRow(row, content, encodable)`.

## Model

| member | source | states |
|---|---|---|
| `Strings.WithExtension` | Spreadsheet.py:24-28 | the bound name ends with `.xlsx`; a name that already ends with it is unchanged; any other name gets `.xlsx` appended exactly once |
| `Strings.LastFive` | Spreadsheet.py:24 | Python's `name[-5::]`: the last five characters, or the whole name when it is shorter, and always a suffix of the name |
| `Strings.WithExtensionIdempotent` | Spreadsheet.py:24-28 | normalising a name a second time changes nothing |
| `Strings.Decimal` | Spreadsheet.py:107 | `str(row)` is a non-empty string of decimal digits with no leading zero |
| `Strings.DecimalRoundTrip` | Spreadsheet.py:107 | reading the digits of `str(n)` back gives `n` |
| `Strings.DecimalInjective` | Spreadsheet.py:107 | different rows get different `"Row: "` labels |
| `Spreadsheets.RowKey` | Spreadsheet.py:107 | the key of a row read is text that starts with "Row: " and continues with decimal digits, without a leading zero, that read back as the row number (Python's `str(row)`) |
| `Spreadsheets.RowKeyInjective` | Spreadsheet.py:107 | two reads of different rows file their values under different keys |
| `Spreadsheets.ColumnKey` | Spreadsheet.py:81-85 | without a header the key is the text "None"; with one it is None exactly when the header cell is empty, and otherwise the header cell's value |
| `Cells.Run` | Spreadsheet.py:88-95 | the scan's result: the value at each position from `start` on, in order, with no gaps, and the position just past the last value is empty |
| `Cells.RunUnique` | Spreadsheet.py:112-119 | any sequence with those two properties is the scan's result, so the scan returns the maximal run of present cells |
| `Cells.RunStopsAtGap` | Spreadsheet.py:112-119 | an empty cell at index `k` bounds the result to the cells before `k`, even when later cells are filled |
| `Cells.Gap` | Spreadsheet.py:183-189 | the first empty index at or after `start`: every index before it is filled and it is empty |
| `Cells.KeptBeforeSegment` | Spreadsheet.py:157-171 | a batch write leaves every cell of its line before its start index as it was |
| `Cells.RunAfterWrite` | Spreadsheet.py:132-146 | after a batch write, scanning from its start gives the written values, then the old run just past them |
| `Cells.RunAfterWriteOnEmpty` | Spreadsheet.py:132-146 | on a line with no cells, reading back from where a batch write started gives exactly the batch |
| `Cells.SheetWrittenStep` | Spreadsheet.py:135-144 | one pass of the batch-write loop (value and font of the next cell) extends the written prefix by one item and changes nothing else |
| `Cells.RunAfterAppend` | Spreadsheet.py:180-192 | after an append, scanning the line from index 1 gives the old run, then the appended values, then the old cells past them |
| `Spreadsheets.Spreadsheet.Open` | Spreadsheet.py:19-48 | the handle gets the normalised name and the workbook's active sheet; load mode takes the workbook saved at that path, and reports a load failure when the file is missing or unreadable; create mode replaces any file there with a new one-sheet, cell-less workbook and saves it |
| `Spreadsheets.NewWorkbook` | Spreadsheet.py:44 | a new workbook has exactly one sheet; it is the active one, named "Sheet", with no cells |
| `Spreadsheets.Spreadsheet.Save` | Spreadsheet.py:50-58 | the whole in-memory workbook is stored at the handle's path; nothing else on disk changes |
| `Spreadsheets.Spreadsheet.SetCell` | Spreadsheet.py:137-143 | one cell of the active sheet gets a value and a font; every other cell and sheet is unchanged |
| `Spreadsheets.Spreadsheet.Write` | Spreadsheet.py:60-66 | exactly the addressed cell of the active sheet gets the content (None clears it), fonts and other sheets are unchanged, then the workbook is saved |
| `Spreadsheets.Stored` | Spreadsheet.py:136-141 | an item the text codec accepts is stored as itself; any other item is stored as "Content Error" |
| `Spreadsheets.StoredAll` | Spreadsheet.py:135-141 | one stored value per content item, in the items' order |
| `Spreadsheets.Scan` | Spreadsheet.py:88-95 | the `while True` loop returns exactly the run of present cells of the line from its start index |
| `Spreadsheets.Spreadsheet.ReadColumn` | Spreadsheet.py:68-97 | exactly a one-entry dictionary: with a header, keyed by the cell at `startRow` (None when empty) and holding the run from the row below; without one, keyed by the text "None" and holding the run from `startRow` |
| `Spreadsheets.Spreadsheet.ReadRow` | Spreadsheet.py:99-121 | exactly a one-entry dictionary keyed by "Row: " and the row number, holding the run of the row from `startCol` rightward |
| `Spreadsheets.Spreadsheet.WriteLine` | Spreadsheet.py:132-146 | item i of the content goes to index `start + i` of the line, or "Content Error" when the codec refuses it; each written cell gets the given font; nothing else changes; disk gets the final workbook only |
| `Spreadsheets.Spreadsheet.WriteColumn` | Spreadsheet.py:123-146 | the batch write down a column from `startRow`, then one save; an empty batch is accepted with any indices and only saves |
| `Spreadsheets.Spreadsheet.WriteRow` | Spreadsheet.py:148-171 | the batch write along a row from `startCol`, then one save; an empty batch is accepted with any indices and only saves |
| `Spreadsheets.Spreadsheet.AppendRow` | Spreadsheet.py:173-192 | the batch write along the row starts at its first empty column counting from 1; the filled columns before it keep their values |
| `Spreadsheets.Spreadsheet.AppendColumn` | Spreadsheet.py:194-213 | the batch write down the column starts at its first empty row counting from 1; the filled rows above it keep their values |
| `Spreadsheets.Spreadsheet.CreateSheets` | Spreadsheet.py:215-222 | one empty sheet per name is appended to the workbook, in list order; the active sheet is unchanged; the workbook is saved once |
| `Spreadsheets.NewSheets` | Spreadsheet.py:219-220 | one empty sheet per name, titled with that name, in the names' order |
| `Spreadsheets.ReloadAfterWriteColumn` | Spreadsheet.py:123-146 | a column written in create mode survives a fresh load: reading it back without a header from the write's start row gives `{"None": ["X", "Y"]}` |

## Left out

- The spreadsheet library itself is not modelled. That covers loading and
  creating workbooks, the `.xlsx` zip format, and font attributes other
  than bold and italic. A sheet is an abstract pair of maps.
- The `IndexError` that `self.sheet[row][col - 1]` raises when `col` is
  past the sheet's current width (Spreadsheet.py:82) is not modelled. It
  depends on how wide the library thinks the sheet is. `ReadColumn` reads
  the header as the cell at `(startRow, col)`.
- The library's `cell()` creates an empty cell object on every lookup.
  This changes the sheet's reported size but no cell value, so the model
  leaves it out.
- Indices below 1 make the library raise an error as soon as a cell is
  touched. The model requires indices of at least 1 wherever a cell is
  touched instead. The reads, `Write` and the appends always touch one.
  The batch writes touch one only when the content is non-empty: an empty
  batch (for example `write_column(0, [])`) only saves, and the model
  accepts it with any indices.
- The file system is the `disk` map. `os.path.isfile` with `os.remove` is
  the removal of the path's entry (Spreadsheet.py:41-42).
- A save failure prints a message and exits the process
  (Spreadsheet.py:55-58). The model has no such outcome: `Save` always
  succeeds.
- A load failure prints a message and exits (Spreadsheet.py:35-38). The
  model returns `LoadFailed` instead.
- A saved workbook whose active index names no sheet counts as unreadable,
  so it is a load failure. With the library, such a handle would get no
  active sheet and fail on first use.
- Open: `load` is a `bool`, and true stands for Python's `load is True`
  test (Spreadsheet.py:32). In Python any other value takes the create
  path, including truthy ones such as `1`, and so deletes an existing
  file. The model has only the two booleans, so it does not show that
  `load=1` recreates the file.
- The debug `print` of the name's last five characters (Spreadsheet.py:25)
  is output only, and is left out.
- Python 2 `encode`/`decode` behaviour (Spreadsheet.py:136-141, 161-166) is
  not modelled. It is the parameter `encodable`: when it holds, the item is
  stored as it is (by either conversion); otherwise "Content Error" is
  stored. A `UnicodeEncodeError` raised by the `decode` retry is not caught
  in Spreadsheet.py, and is not modelled either.
- Content items that are not strings make `.encode` raise an
  `AttributeError` that Spreadsheet.py does not catch. The batch writes take
  strings only.
- `write` takes a position that is already resolved. Parsing a cell
  address such as "B3" belongs to the library.
- Cell values are text or integers. Floats, dates and formulas are not
  modelled.
- `create_sheet` renaming duplicate titles and rejecting invalid ones
  happens inside the library, and is not modelled.
