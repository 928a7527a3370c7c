/**
 * The abstract sheet under the Spreadsheet class: a finite map from 1-based
 * (row, column) positions to the values present there, beside a second map
 * that records the font (bold, italic) set on a cell. A position missing
 * from the value map is an empty cell, the `None` of the spreadsheet library.
 *
 * Column and row operations are the same operation along two axes, so the
 * gap-terminated scan (`Run`) and the batch-write frame (`WrittenAlong`) are
 * defined once, over an `Axis`.
 */
module Cells {

  datatype Pos = Pos(row: int, col: int)

  /** A cell value as the library hands it back: text or a number. */
  datatype Value = Text(s: string) | Number(n: int)

  /** The font pair written by the batch writes. */
  datatype Style = Style(bold: bool, italic: bool)

  datatype Sheet = Sheet(title: string, values: map<Pos, Value>, fonts: map<Pos, Style>)

  /** A sheet as the library creates it: a title and no cells. */
  function EmptySheet(title: string): (s: Sheet)
  {
    Sheet(title, map[], map[])
  }

  /** Down walks a column (the row index varies); Across walks a row. */
  datatype Axis = Down | Across

  /** The position at index `i` of line `line` (a column for Down, a row for Across). */
  function At(axis: Axis, line: int, i: int): (p: Pos)
  {
    if axis == Down then Pos(i, line) else Pos(line, i)
  }

  /** The line a position lies on, for the given axis. */
  function Line(p: Pos, axis: Axis): (line: int)
  {
    if axis == Down then p.col else p.row
  }

  /** The index of a position along its line, for the given axis. */
  function Along(p: Pos, axis: Axis): (i: int)
  {
    if axis == Down then p.row else p.col
  }

  /** The occupied positions of `line` at index `i` or beyond: what a scan has left to see. */
  ghost function Ahead<V>(m: map<Pos, V>, axis: Axis, line: int, i: int): (s: set<Pos>)
  {
    set p | p in m && Line(p, axis) == line && Along(p, axis) >= i
  }

  lemma AheadShrinks<V>(m: map<Pos, V>, axis: Axis, line: int, i: int)
    requires At(axis, line, i) in m
    ensures Ahead(m, axis, line, i + 1) < Ahead(m, axis, line, i)
  {
    assert At(axis, line, i) in Ahead(m, axis, line, i);
  }

  /**
   * The maximal run of present cells of `line` starting at index `start`:
   * every returned value sits at consecutive positions from `start`, and the
   * position just past the last one is empty. A gap therefore truncates the
   * run even when later cells of the line are filled.
   */
  function Run<V>(m: map<Pos, V>, axis: Axis, line: int, start: int): (r: seq<V>)
    ensures forall j :: start <= j < start + |r| ==> At(axis, line, j) in m && m[At(axis, line, j)] == r[j - start]
    ensures At(axis, line, start + |r|) !in m
    decreases Ahead(m, axis, line, start)
  {
    var p := At(axis, line, start);
    if p in m then
      AheadShrinks(m, axis, line, start);
      [m[p]] + Run(m, axis, line, start + 1)
    else
      []
  }

  /** The run is the only sequence with the two properties `Run` promises. */
  lemma {:induction false} RunUnique<V>(m: map<Pos, V>, axis: Axis, line: int, start: int, r: seq<V>)
    requires forall j :: start <= j < start + |r| ==> At(axis, line, j) in m && m[At(axis, line, j)] == r[j - start]
    requires At(axis, line, start + |r|) !in m
    ensures r == Run(m, axis, line, start)
    decreases |r|
  {
    if r != [] {
      assert At(axis, line, start) in m;
      RunUnique(m, axis, line, start + 1, r[1..]);
    }
  }

  /** Nothing at or beyond an empty cell is read: a gap cuts the run short. */
  lemma RunStopsAtGap<V>(m: map<Pos, V>, axis: Axis, line: int, start: int, k: int)
    requires start <= k && At(axis, line, k) !in m
    ensures |Run(m, axis, line, start)| <= k - start
  {
  }

  /** The first empty index of `line` at or after `start`. */
  function Gap<V>(m: map<Pos, V>, axis: Axis, line: int, start: int): (g: int)
    ensures start <= g
    ensures At(axis, line, g) !in m
    ensures forall i :: start <= i < g ==> At(axis, line, i) in m
  {
    start + |Run(m, axis, line, start)|
  }

  /** Whether `p` is one of the `n` positions of `line` from index `start` on. */
  predicate OnSegment(p: Pos, axis: Axis, line: int, start: int, n: nat)
  {
    Line(p, axis) == line && start <= Along(p, axis) < start + n
  }

  /**
   * `after` is `before` with `vals` written into the consecutive positions of
   * `line` from `start`, and every other position (present or empty) left as it was.
   */
  ghost predicate WrittenAlong<V>(before: map<Pos, V>, after: map<Pos, V>, axis: Axis, line: int, start: int, vals: seq<V>)
  {
    && (forall j :: start <= j < start + |vals| ==> At(axis, line, j) in after && after[At(axis, line, j)] == vals[j - start])
    && (forall p :: !OnSegment(p, axis, line, start, |vals|) ==> (p in after <==> p in before))
    && (forall p :: p in before && !OnSegment(p, axis, line, start, |vals|) ==> after[p] == before[p])
  }

  /** Writing the next value of a batch at the end of the written prefix extends the prefix. */
  lemma WrittenAlongStep<V>(before: map<Pos, V>, after: map<Pos, V>, axis: Axis, line: int, start: int, vals: seq<V>, i: nat)
    requires i < |vals| && WrittenAlong(before, after, axis, line, start, vals[..i])
    ensures WrittenAlong(before, after[At(axis, line, start + i) := vals[i]], axis, line, start, vals[..i + 1])
  {
  }

  /**
   * `after` is sheet `before` with `vals` written into the values and
   * `styles` into the fonts of `line` from index `start`, and nothing else changed.
   */
  ghost predicate SheetWritten(before: Sheet, after: Sheet, axis: Axis, line: int, start: int, vals: seq<Value>, styles: seq<Style>)
  {
    && after.title == before.title
    && WrittenAlong(before.values, after.values, axis, line, start, vals)
    && WrittenAlong(before.fonts, after.fonts, axis, line, start, styles)
  }

  /** Setting the next cell of a batch, value and font, extends the written prefix of the sheet. */
  lemma SheetWrittenStep(before: Sheet, cur: Sheet, axis: Axis, line: int, start: int, vals: seq<Value>, styles: seq<Style>,
                         i: nat, p: Pos, v: Value, style: Style)
    requires i < |vals| && i < |styles|
    requires p == At(axis, line, start + i) && v == vals[i] && style == styles[i]
    requires SheetWritten(before, cur, axis, line, start, vals[..i], styles[..i])
    ensures SheetWritten(before, cur.(values := cur.values[p := v], fonts := cur.fonts[p := style]),
                         axis, line, start, vals[..i + 1], styles[..i + 1])
  {
    WrittenAlongStep(before.values, cur.values, axis, line, start, vals, i);
    WrittenAlongStep(before.fonts, cur.fonts, axis, line, start, styles, i);
  }

  /**
   * Reading a line back from where a batch write started yields the written
   * values, followed by whatever run the old sheet had just past them.
   */
  lemma RunAfterWrite<V>(before: map<Pos, V>, after: map<Pos, V>, axis: Axis, line: int, start: int, vals: seq<V>)
    requires WrittenAlong(before, after, axis, line, start, vals)
    ensures Run(after, axis, line, start) == vals + Run(before, axis, line, start + |vals|)
  {
    var tail := Run(before, axis, line, start + |vals|);
    var r := vals + tail;
    forall j | start <= j < start + |r|
      ensures At(axis, line, j) in after && after[At(axis, line, j)] == r[j - start]
    {
      if j >= start + |vals| {
        assert !OnSegment(At(axis, line, j), axis, line, start, |vals|);
        assert r[j - start] == tail[j - (start + |vals|)];
      }
    }
    assert !OnSegment(At(axis, line, start + |r|), axis, line, start, |vals|);
    RunUnique(after, axis, line, start, r);
  }

  /** On a line with no cells, reading back from where a batch write started gives exactly the batch. */
  lemma RunAfterWriteOnEmpty<V>(after: map<Pos, V>, axis: Axis, line: int, start: int, vals: seq<V>)
    requires WrittenAlong(map[], after, axis, line, start, vals)
    ensures Run(after, axis, line, start) == vals
  {
    var empty: map<Pos, V> := map[];
    RunAfterWrite(empty, after, axis, line, start, vals);
    assert Run(empty, axis, line, start + |vals|) == [];
  }

  /** A write along a line leaves the cells of that line before its first index alone. */
  lemma KeptBeforeSegment<V>(before: map<Pos, V>, after: map<Pos, V>, axis: Axis, line: int, start: int, vals: seq<V>)
    requires WrittenAlong(before, after, axis, line, start, vals)
    ensures forall i :: i < start && At(axis, line, i) in before ==>
      At(axis, line, i) in after && after[At(axis, line, i)] == before[At(axis, line, i)]
  {
  }

  /** Through a filled stretch that a change left alone, a scan reads what it read before. */
  lemma {:induction false} RunThroughKept<V>(before: map<Pos, V>, after: map<Pos, V>, axis: Axis, line: int, start: int, g: int)
    requires start <= g && At(axis, line, g) !in before
    requires forall i :: start <= i < g ==>
      At(axis, line, i) in before && At(axis, line, i) in after && after[At(axis, line, i)] == before[At(axis, line, i)]
    ensures Run(after, axis, line, start) == Run(before, axis, line, start) + Run(after, axis, line, g)
    decreases g - start
  {
    if start < g {
      assert At(axis, line, start) in before && At(axis, line, start) in after;
      RunThroughKept(before, after, axis, line, start + 1, g);
    }
  }

  /**
   * Appending to a line (a batch write that starts at its first empty index
   * `g` from `start`) keeps the run that was there and continues it with the
   * written values and then with the old cells just past them.
   */
  lemma RunAfterAppend<V>(before: map<Pos, V>, after: map<Pos, V>, axis: Axis, line: int, start: int, g: int, vals: seq<V>)
    requires g == Gap(before, axis, line, start)
    requires WrittenAlong(before, after, axis, line, g, vals)
    ensures Run(after, axis, line, start) == Run(before, axis, line, start) + (vals + Run(before, axis, line, g + |vals|))
  {
    KeptBeforeSegment(before, after, axis, line, g, vals);
    RunThroughKept(before, after, axis, line, start, g);
    RunAfterWrite(before, after, axis, line, g, vals);
  }

  /** One step of a scan: a present cell is the head of the run it starts. */
  lemma RunStep<V>(m: map<Pos, V>, axis: Axis, line: int, i: int, done: seq<V>)
    requires At(axis, line, i) in m
    ensures done + Run(m, axis, line, i) == (done + [m[At(axis, line, i)]]) + Run(m, axis, line, i + 1)
    ensures Ahead(m, axis, line, i + 1) < Ahead(m, axis, line, i)
  {
    AheadShrinks(m, axis, line, i);
    assert Run(m, axis, line, i) == [m[At(axis, line, i)]] + Run(m, axis, line, i + 1);
  }
}
