/**
 * The Spreadsheet class: a handle bound to one workbook file and to the
 * workbook's active sheet, with cell, column and row reads and writes, and a
 * save to disk at the end of every call that changes the workbook.
 *
 * The file system is the map `disk` from paths to the workbook saved there;
 * the spreadsheet library is the abstract sheet of module Cells.
 */
module Spreadsheets {
  import opened Cells
  import opened Strings

  /** A value, or Python's None: the content `write` puts in a cell. */
  datatype Option<T> = None | Some(value: T)

  /** A workbook: its sheets in order and the index of the sheet it opens on. */
  datatype Workbook = Workbook(sheets: seq<Sheet>, active: nat)

  /** The library's new workbook: one empty sheet named "Sheet", which is active. */
  function NewWorkbook(): (w: Workbook)
    ensures Readable(w) && |w.sheets| == 1
    ensures w.sheets[w.active] == EmptySheet("Sheet")
  {
    Workbook([EmptySheet("Sheet")], 0)
  }

  /** A saved workbook the library can open: its active index names one of its sheets. */
  predicate Readable(w: Workbook)
  {
    w.active < |w.sheets|
  }

  /** A key of the one-entry dictionaries the reads return: Python's None, or a value. */
  datatype Key = NoneKey | ValueKey(v: Value)

  /** The cell text written in place of content the text codec cannot handle. */
  const ContentError: string := "Content Error"

  /**
   * What a batch write stores for one item of content: the item itself when
   * the text codec accepts it, the placeholder when it does not.
   */
  function Stored(item: string, encodable: string -> bool): (v: Value)
    ensures encodable(item) ==> v == Text(item)
    ensures !encodable(item) ==> v == Text(ContentError)
  {
    if encodable(item) then Text(item) else Text(ContentError)
  }

  function StoredAll(content: seq<string>, encodable: string -> bool): (vals: seq<Value>)
    ensures |vals| == |content|
    ensures forall i :: 0 <= i < |content| ==> vals[i] == Stored(content[i], encodable)
  {
    seq(|content|, i requires 0 <= i < |content| => Stored(content[i], encodable))
  }

  function Repeat<T>(x: T, n: nat): (s: seq<T>)
    ensures |s| == n
    ensures forall i :: 0 <= i < n ==> s[i] == x
  {
    seq(n, _ => x)
  }

  /** The sheets `create_sheets` adds: one empty sheet per name, in order. */
  function NewSheets(names: seq<string>): (s: seq<Sheet>)
    ensures |s| == |names|
    ensures forall i :: 0 <= i < |names| ==> s[i] == EmptySheet(names[i])
  {
    seq(|names|, i requires 0 <= i < |names| => EmptySheet(names[i]))
  }

  /** The key `read_column` files its values under. */
  function ColumnKey(s: Sheet, col: int, header: bool, startRow: int): (k: Key)
    ensures !header ==> k == ValueKey(Text("None"))
    ensures header ==> (k.NoneKey? <==> Pos(startRow, col) !in s.values)
    ensures header && k.ValueKey? ==> k.v == s.values[Pos(startRow, col)]
  {
    if !header then ValueKey(Text("None"))
    else if Pos(startRow, col) in s.values then ValueKey(s.values[Pos(startRow, col)])
    else NoneKey
  }

  /** The key `read_row` files its values under: "Row: " and the row number. */
  function RowKey(row: nat): (k: Key)
    ensures k.ValueKey? && k.v.Text? && |k.v.s| > 5 && k.v.s[..5] == "Row: "
    ensures forall i :: 5 <= i < |k.v.s| ==> IsDigit(k.v.s[i])
    ensures DecimalValue(k.v.s[5..]) == row
    ensures k.v.s[5] == '0' ==> row == 0 && |k.v.s| == 6
  {
    var text := "Row: " + Decimal(row);
    assert text[5..] == Decimal(row);
    DecimalRoundTrip(row);
    ValueKey(Text(text))
  }

  /** Different rows are filed under different keys. */
  lemma RowKeyInjective(m: nat, n: nat)
    requires RowKey(m) == RowKey(n)
    ensures m == n
  {
    assert RowKey(m).v.s[5..] == Decimal(m) && RowKey(n).v.s[5..] == Decimal(n);
    DecimalInjective(m, n);
  }

  /**
   * `before` and `after` are the same sheet but for a batch write of
   * `content` along `line` from index `start`: each item (or the placeholder)
   * lands at its index with the given font, and all other cells, values and
   * fonts alike, are as they were.
   */
  ghost predicate LineWritten(before: Sheet, after: Sheet, axis: Axis, line: int, start: int,
                              content: seq<string>, style: Style, encodable: string -> bool)
  {
    SheetWritten(before, after, axis, line, start, StoredAll(content, encodable), Repeat(style, |content|))
  }

  /**
   * The `while True` scan shared by `read_column` and `read_row`: collects
   * the values of `line` from index `start` on, and stops at the first empty cell.
   */
  method Scan(m: map<Pos, Value>, axis: Axis, line: int, start: int) returns (values: seq<Value>)
    ensures values == Run(m, axis, line, start)
  {
    values := [];
    var i := start;
    while true
      invariant Run(m, axis, line, start) == values + Run(m, axis, line, i)
      decreases Ahead(m, axis, line, i)
    {
      var cell := At(axis, line, i);
      if cell !in m {
        break;
      }
      RunStep(m, axis, line, i, values);
      values := values + [m[cell]];
      i := i + 1;
    }
    assert Run(m, axis, line, i) == [];
  }

  /** The outcome of opening a handle: the handle, or the load failure on that path. */
  datatype Opened = Opened(handle: Spreadsheet) | LoadFailed(path: string)

  class Spreadsheet {
    /** The path of the backing file, always with the workbook extension. */
    var filename: string
    /** The workbook in memory. */
    var file: Workbook
    /** The index of the sheet all cell operations work on, fixed at construction. */
    var sheet: nat
    /** The file system: the workbook saved at each path. */
    var disk: map<string, Workbook>

    ghost predicate Valid()
      reads this
    {
      HasExtension(filename) && Readable(file) && sheet < |file.sheets|
    }

    /** The workbook in memory is the one saved at the handle's path. */
    ghost predicate Saved()
      reads this
    {
      filename in disk && disk[filename] == file
    }

    /** The active sheet. */
    function Active(): (s: Sheet)
      reads this
      requires Valid()
    {
      file.sheets[sheet]
    }

    constructor Attach(filename: string, file: Workbook, disk: map<string, Workbook>)
      requires HasExtension(filename) && Readable(file)
      ensures Valid()
      ensures this.filename == filename && this.file == file && sheet == file.active && this.disk == disk
    {
      this.filename := filename;
      this.file := file;
      this.sheet := file.active;
      this.disk := disk;
    }

    /**
     * Opening a handle. The name gets the workbook extension. In load mode
     * the workbook is read from the file at that path, and a missing or
     * unreadable file is a load failure. In create mode any file at the path
     * is removed and a new workbook is created and saved at once. Either way
     * the handle works on the workbook's active sheet.
     */
    static method Open(name: string, fs: map<string, Workbook>, load: bool := true) returns (r: Opened)
      ensures r.Opened? ==> fresh(r.handle) && r.handle.Valid() && r.handle.Saved()
      ensures r.Opened? ==> r.handle.filename == WithExtension(name) && r.handle.sheet == r.handle.file.active
      ensures load ==> (r.Opened? <==> WithExtension(name) in fs && Readable(fs[WithExtension(name)]))
      ensures load && r.Opened? ==> r.handle.file == fs[WithExtension(name)] && r.handle.disk == fs
      ensures r.LoadFailed? ==> load && r.path == WithExtension(name)
      ensures !load ==> r.Opened? && r.handle.file == NewWorkbook()
      ensures !load && r.Opened? ==> r.handle.disk == fs[WithExtension(name) := NewWorkbook()]
    {
      var filename := WithExtension(name);
      if load {
        if filename in fs && Readable(fs[filename]) {
          var h := new Spreadsheet.Attach(filename, fs[filename], fs);
          r := Opened(h);
        } else {
          r := LoadFailed(filename);
        }
      } else {
        var h := new Spreadsheet.Attach(filename, NewWorkbook(), fs - {filename});
        h.Save();
        assert h.disk == fs[filename := NewWorkbook()];
        r := Opened(h);
      }
    }

    /** Saving writes the whole workbook to the handle's path. */
    method Save()
      requires Valid()
      modifies this
      ensures Valid() && Saved()
      ensures filename == old(filename) && file == old(file) && sheet == old(sheet)
      ensures disk == old(disk)[filename := file]
    {
      disk := disk[filename := file];
    }

    /** The library's cell write: sets one cell of the active sheet to a value and a font. */
    method SetCell(p: Pos, v: Value, style: Style)
      requires Valid()
      modifies this
      ensures Valid()
      ensures filename == old(filename) && sheet == old(sheet) && disk == old(disk)
      ensures file == old(file).(sheets := old(file.sheets)[sheet := Active()])
      ensures Active() == old(Active()).(values := old(Active().values)[p := v], fonts := old(Active().fonts)[p := style])
    {
      var s := file.sheets[sheet];
      file := file.(sheets := file.sheets[sheet := s.(values := s.values[p := v], fonts := s.fonts[p := style])]);
    }

    /**
     * `write`: sets one addressed cell of the active sheet (clearing it when
     * the content is None), keeps its font and every other cell, and saves.
     */
    method Write(content: Option<Value>, cell: Pos)
      requires Valid()
      requires cell.row >= 1 && cell.col >= 1
      modifies this
      ensures Valid() && Saved()
      ensures filename == old(filename) && sheet == old(sheet) && disk == old(disk)[filename := file]
      ensures file == old(file).(sheets := old(file.sheets)[sheet := Active()])
      ensures Active().title == old(Active().title) && Active().fonts == old(Active().fonts)
      ensures content.Some? ==> Active().values == old(Active().values)[cell := content.value]
      ensures content.None? ==> Active().values == old(Active().values) - {cell}
    {
      var s := file.sheets[sheet];
      var values := if content.Some? then s.values[cell := content.value] else s.values - {cell};
      file := file.(sheets := file.sheets[sheet := s.(values := values)]);
      Save();
    }

    /**
     * `read_column`: with a header, the key is the cell at `startRow` (None
     * when it is empty) and the values are the run of present cells from the
     * row below it; without one, the key is the text "None" and the run
     * starts at `startRow`. The run stops at the first empty cell.
     */
    method ReadColumn(col: int, header: bool := true, startRow: int := 1) returns (column: map<Key, seq<Value>>)
      requires Valid()
      requires col >= 1 && startRow >= 1
      ensures column == map[ColumnKey(Active(), col, header, startRow) :=
                            Run(Active().values, Down, col, if header then startRow + 1 else startRow)]
    {
      var s := file.sheets[sheet];
      var key := ColumnKey(s, col, header, startRow);
      var row := if header then startRow + 1 else startRow;
      var values := Scan(s.values, Down, col, row);
      column := map[key := values];
    }

    /**
     * `read_row`: the key is "Row: " and the row number, and the values are
     * the run of present cells of that row from `startCol` rightward, up to
     * the first empty cell.
     */
    method ReadRow(row: int, startCol: int := 1) returns (obj: map<Key, seq<Value>>)
      requires Valid()
      requires row >= 1 && startCol >= 1
      ensures obj == map[RowKey(row) := Run(Active().values, Across, row, startCol)]
    {
      var s := file.sheets[sheet];
      var values := Scan(s.values, Across, row, startCol);
      obj := map[RowKey(row) := values];
    }

    /**
     * `write_column` and `write_row` along either axis: item i of the content
     * goes to index `start + i` of the line (or the placeholder when the
     * codec refuses it) with the given font, nothing else changes, and the
     * workbook is saved once, after the whole batch.
     */
    method WriteLine(axis: Axis, line: int, content: seq<string>, start: int, bold: bool, italics: bool, encodable: string -> bool)
      requires Valid()
      requires |content| > 0 ==> line >= 1 && start >= 1
      modifies this
      ensures Valid() && Saved()
      ensures filename == old(filename) && sheet == old(sheet) && disk == old(disk)[filename := file]
      ensures file == old(file).(sheets := old(file.sheets)[sheet := Active()])
      ensures LineWritten(old(Active()), Active(), axis, line, start, content, Style(bold, italics), encodable)
    {
      ghost var before := Active();
      ghost var vals := StoredAll(content, encodable);
      ghost var styles := Repeat(Style(bold, italics), |content|);
      var index := start;
      for i := 0 to |content|
        invariant index == start + i
        invariant Valid() && filename == old(filename) && sheet == old(sheet) && disk == old(disk)
        invariant file == old(file).(sheets := old(file.sheets)[sheet := Active()])
        invariant SheetWritten(before, Active(), axis, line, start, vals[..i], styles[..i])
      {
        var p, v, style := At(axis, line, index), Stored(content[i], encodable), Style(bold, italics);
        SheetWrittenStep(before, Active(), axis, line, start, vals, styles, i, p, v, style);
        SetCell(p, v, style);
        index := index + 1;
      }
      assert vals[..|content|] == vals && styles[..|content|] == styles;
      Save();
    }

    /** `write_column`: the batch write down column `col` from row `startRow`. */
    method WriteColumn(col: int, content: seq<string>, encodable: string -> bool,
                       startRow: int := 1, bold: bool := false, italics: bool := false)
      requires Valid()
      requires |content| > 0 ==> col >= 1 && startRow >= 1
      modifies this
      ensures Valid() && Saved()
      ensures filename == old(filename) && sheet == old(sheet) && disk == old(disk)[filename := file]
      ensures file == old(file).(sheets := old(file.sheets)[sheet := Active()])
      ensures LineWritten(old(Active()), Active(), Down, col, startRow, content, Style(bold, italics), encodable)
    {
      WriteLine(Down, col, content, startRow, bold, italics, encodable);
    }

    /** `write_row`: the batch write along row `row` from column `startCol`. */
    method WriteRow(row: int, content: seq<string>, encodable: string -> bool,
                    startCol: int := 1, bold: bool := false, italics: bool := false)
      requires Valid()
      requires |content| > 0 ==> row >= 1 && startCol >= 1
      modifies this
      ensures Valid() && Saved()
      ensures filename == old(filename) && sheet == old(sheet) && disk == old(disk)[filename := file]
      ensures file == old(file).(sheets := old(file.sheets)[sheet := Active()])
      ensures LineWritten(old(Active()), Active(), Across, row, startCol, content, Style(bold, italics), encodable)
    {
      WriteLine(Across, row, content, startCol, bold, italics, encodable);
    }

    /**
     * `append_row`: finds the first empty column of the row, counting from
     * column 1, and writes the content there and rightward; the filled
     * columns before it keep their values.
     */
    method AppendRow(row: int, content: seq<string>, encodable: string -> bool, bold: bool := false, italics: bool := false)
      requires Valid()
      requires row >= 1
      modifies this
      ensures Valid() && Saved()
      ensures filename == old(filename) && sheet == old(sheet) && disk == old(disk)[filename := file]
      ensures file == old(file).(sheets := old(file.sheets)[sheet := Active()])
      ensures LineWritten(old(Active()), Active(), Across, row, Gap(old(Active().values), Across, row, 1),
                          content, Style(bold, italics), encodable)
      ensures forall c :: 1 <= c < Gap(old(Active().values), Across, row, 1) ==>
        At(Across, row, c) in Active().values && Active().values[At(Across, row, c)] == old(Active().values)[At(Across, row, c)]
    {
      var s := file.sheets[sheet];
      var col := 1;
      while true
        modifies {}
        invariant 1 <= col <= Gap(s.values, Across, row, 1)
        decreases Ahead(s.values, Across, row, col)
      {
        if At(Across, row, col) !in s.values {
          break;
        }
        AheadShrinks(s.values, Across, row, col);
        col := col + 1;
      }
      WriteRow(row, content, encodable, col, bold, italics);
      KeptBeforeSegment(s.values, Active().values, Across, row, col, StoredAll(content, encodable));
    }

    /**
     * `append_column`: finds the first empty row of the column, counting
     * from row 1, and writes the content there and downward; the filled rows
     * above it keep their values.
     */
    method AppendColumn(col: int, content: seq<string>, encodable: string -> bool, bold: bool := false, italics: bool := false)
      requires Valid()
      requires col >= 1
      modifies this
      ensures Valid() && Saved()
      ensures filename == old(filename) && sheet == old(sheet) && disk == old(disk)[filename := file]
      ensures file == old(file).(sheets := old(file.sheets)[sheet := Active()])
      ensures LineWritten(old(Active()), Active(), Down, col, Gap(old(Active().values), Down, col, 1),
                          content, Style(bold, italics), encodable)
      ensures forall r :: 1 <= r < Gap(old(Active().values), Down, col, 1) ==>
        At(Down, col, r) in Active().values && Active().values[At(Down, col, r)] == old(Active().values)[At(Down, col, r)]
    {
      var s := file.sheets[sheet];
      var row := 1;
      while true
        modifies {}
        invariant 1 <= row <= Gap(s.values, Down, col, 1)
        decreases Ahead(s.values, Down, col, row)
      {
        if At(Down, col, row) !in s.values {
          break;
        }
        AheadShrinks(s.values, Down, col, row);
        row := row + 1;
      }
      WriteColumn(col, content, encodable, row, bold, italics);
      KeptBeforeSegment(s.values, Active().values, Down, col, row, StoredAll(content, encodable));
    }

    /**
     * `create_sheets`: adds one empty sheet per name at the end of the
     * workbook, in order, and saves once; the active sheet stays the same.
     */
    method CreateSheets(values: seq<string>)
      requires Valid()
      modifies this
      ensures Valid() && Saved()
      ensures filename == old(filename) && sheet == old(sheet) && disk == old(disk)[filename := file]
      ensures file == old(file).(sheets := old(file.sheets) + NewSheets(values))
      ensures Active() == old(Active())
    {
      for i := 0 to |values|
        invariant Valid() && filename == old(filename) && sheet == old(sheet) && disk == old(disk)
        invariant file == old(file).(sheets := old(file.sheets) + NewSheets(values)[..i])
      {
        file := file.(sheets := file.sheets + [EmptySheet(values[i])]);
        assert NewSheets(values)[..i + 1] == NewSheets(values)[..i] + [EmptySheet(values[i])];
      }
      assert NewSheets(values)[..|values|] == NewSheets(values);
      Save();
    }
  }

  /**
   * A column written in create mode survives a fresh load: reading it back
   * from where the write started, without a header, gives exactly the
   * written items filed under "None".
   */
  method ReloadAfterWriteColumn(name: string, fs: map<string, Workbook>, encodable: string -> bool)
    returns (column: map<Key, seq<Value>>)
    requires encodable("X") && encodable("Y")
    ensures column == map[ValueKey(Text("None")) := [Text("X"), Text("Y")]]
  {
    ghost var vals := StoredAll(["X", "Y"], encodable);
    assert vals == [Text("X"), Text("Y")];
    var created := Spreadsheet.Open(name, fs, load := false);
    var h := created.handle;
    assert h.Active().values == map[];
    h.WriteColumn(1, ["X", "Y"], encodable, startRow := 3);
    ghost var written := h.Active();
    RunAfterWriteOnEmpty(written.values, Down, 1, 3, vals);
    var loaded := Spreadsheet.Open(name, h.disk);
    var g := loaded.handle;
    assert g.Active() == written;
    column := g.ReadColumn(1, header := false, startRow := 3);
  }
}
