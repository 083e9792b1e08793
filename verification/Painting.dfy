/** How writes land on the client's cell cache: a write clears whatever wide pair
    it cuts, and a run that cuts no pair of the old or the new row repaints
    exactly its own columns. */
module Painting {
  import opened Display
  import opened DisplayInterpreter

  /** The client's decoded cell: empty text is a blank. */
  datatype ScanCell = ScanCell(text: Text, styleId: nat, width: nat)

  const BLANK_SCAN := ScanCell([], DEFAULT_STYLE_ID, 1)

  type ScanRow = seq<ScanCell>
  type ScanGrid = seq<seq<ScanCell>>

  /** The cells from `from` up to `to` hold whole pairs only. */
  ghost predicate PairedSlice(row: ScanRow, from: int, to: int) {
    && 0 <= from <= to <= |row|
    && (forall i :: from <= i < to ==> row[i].width <= 2)
    && (forall i :: from <= i < to && row[i].width == 2 ==> i + 1 < to && row[i + 1].width == 0)
    && (forall i :: from <= i < to && row[i].width == 0 ==> from < i && row[i - 1].width == 2)
  }

  ghost predicate PairedGrid(grid: ScanGrid) {
    forall r :: 0 <= r < |grid| ==> PairedSlice(grid[r], 0, |grid[r]|)
  }

  // ------------------------------------------------------------- one write

  function ClearOccupant(row: ScanRow, column: nat): (out: ScanRow)
    requires column < |row|
    ensures |out| == |row|
  {
    var anchor := if row[column].width == 0 && column > 0 && row[column - 1].width == 2 then column - 1 else column;
    var blank := ScanCell([], row[anchor].styleId, 1);
    var once := row[anchor := blank];
    if row[anchor].width == 2 && anchor + 1 < |row| then once[anchor + 1 := blank] else once
  }

  function NormalizedText(text: Text, width: nat): Text {
    if text == [SPACE] && width == 1 then [] else text
  }

  function WriteCell(row: ScanRow, column: nat, text: Text, width: nat, id: nat): (out: ScanRow)
    requires (width == 1 || width == 2) && column + width <= |row|
    ensures |out| == |row|
  {
    var cleared := ClearOccupant(row, column);
    var free := if width == 2 then ClearOccupant(cleared, column + 1) else cleared;
    var anchored := free[column := ScanCell(NormalizedText(text, width), id, width)];
    if width == 2 then anchored[column + 1 := ScanCell([], id, 0)] else anchored
  }

  /** None is the cache's error for a span that leaves the pane. */
  function Paint(grid: ScanGrid, w: Write): (out: Option<ScanGrid>)
    ensures out.Some? ==> |out.value| == |grid|
  {
    if 0 <= w.row < |grid| && 0 <= w.column && (w.width == 1 || w.width == 2) && w.column + w.width <= |grid[w.row]|
    then Some(grid[w.row := WriteCell(grid[w.row], w.column, w.text, w.width, w.styleId)])
    else None
  }

  function PaintAll(grid: ScanGrid, writes: seq<Write>): Option<ScanGrid>
    decreases |writes|
  {
    if writes == [] then Some(grid)
    else match PaintAll(grid, writes[..|writes| - 1])
      case None => None
      case Some(before) => Paint(before, writes[|writes| - 1])
  }

  lemma {:induction false} PaintAllAppend(grid: ScanGrid, a: seq<Write>, b: seq<Write>)
    ensures PaintAll(grid, a + b) ==
            match PaintAll(grid, a) { case None => None case Some(mid) => PaintAll(mid, b) }
    decreases |b|
  {
    if b == [] {
      assert a + b == a;
    } else {
      assert (a + b)[..|a + b| - 1] == a + b[..|b| - 1];
      PaintAllAppend(grid, a, b[..|b| - 1]);
    }
  }

  /** Whole rows stay made of whole pairs, whatever is written where. */
  lemma {:induction false} WriteKeepsPairs(row: ScanRow, column: nat, text: Text, width: nat, id: nat)
    requires (width == 1 || width == 2) && column + width <= |row|
    requires PairedSlice(row, 0, |row|)
    ensures PairedSlice(WriteCell(row, column, text, width, id), 0, |row|)
  {
    hide ClearOccupant, PairedSlice;
    var cleared := ClearOccupant(row, column);
    ClearKeepsPairs(row, column);
    if width == 2 {
      var free := ClearOccupant(cleared, column + 1);
      ClearKeepsPairs(cleared, column + 1);
      PlaceWide(free, column, ScanCell(NormalizedText(text, 2), id, 2), ScanCell([], id, 0));
    } else {
      PlaceNarrow(cleared, column, ScanCell(NormalizedText(text, 1), id, 1));
    }
  }

  lemma {:induction false} PlaceNarrow(row: ScanRow, column: nat, cell: ScanCell)
    requires column < |row| && PairedSlice(row, 0, |row|) && row[column].width == 1 && cell.width == 1
    ensures PairedSlice(row[column := cell], 0, |row|)
  {
  }

  lemma {:induction false} PlaceWide(row: ScanRow, column: nat, anchor: ScanCell, tail: ScanCell)
    requires column + 1 < |row| && PairedSlice(row, 0, |row|) && row[column].width == 1 && row[column + 1].width == 1
    requires anchor.width == 2 && tail.width == 0
    ensures PairedSlice(row[column := anchor][column + 1 := tail], 0, |row|)
  {
    var out := row[column := anchor][column + 1 := tail];
    forall i | 0 <= i < |row| && out[i].width == 0 ensures 0 < i && out[i - 1].width == 2 {
      assert i != column;
      if i != column + 1 {
        assert row[i].width == 0 && row[i - 1].width == 2;
      }
    }
    forall i | 0 <= i < |row| && out[i].width == 2 ensures i + 1 < |row| && out[i + 1].width == 0 {
      if i != column {
        assert row[i].width == 2 && row[i + 1].width == 0;
      }
    }
  }

  lemma {:induction false} ClearKeepsPairs(row: ScanRow, column: nat)
    requires column < |row| && PairedSlice(row, 0, |row|)
    ensures PairedSlice(ClearOccupant(row, column), 0, |row|)
    ensures ClearOccupant(row, column)[column].width == 1
    ensures forall i :: 0 <= i < |row| && row[i].width == 1 ==> ClearOccupant(row, column)[i].width == 1
  {
    var out := ClearOccupant(row, column);
    forall i | 0 <= i < |row| && out[i].width == 0 ensures 0 < i && out[i - 1].width == 2 {
      assert row[i].width == 0 && row[i - 1].width == 2;
    }
    forall i | 0 <= i < |row| && out[i].width == 2 ensures i + 1 < |row| && out[i + 1].width == 0 {
      assert row[i].width == 2 && row[i + 1].width == 0;
    }
  }

  lemma {:induction false} PaintKeepsPairs(grid: ScanGrid, writes: seq<Write>)
    requires PairedGrid(grid) && PaintAll(grid, writes).Some?
    ensures PairedGrid(PaintAll(grid, writes).value)
    decreases |writes|
  {
    if writes != [] {
      var before, w := PaintAll(grid, writes[..|writes| - 1]).value, writes[|writes| - 1];
      PaintKeepsPairs(grid, writes[..|writes| - 1]);
      WriteKeepsPairs(before[w.row], w.column, w.text, w.width, w.styleId);
    }
  }

  // --------------------------------------------------- what a cell displays

  function CellText(cell: Cell): Text {
    match cell.glyph
    case Blank => [SPACE]
    case Scalar(r) => [r]
    case Cluster(text) => text
    case Continuation => []
  }

  /** A blank may carry any style in which a space looks the same, or one that shows
      the other default colour: the server takes those two for each other. */
  predicate StyleShows(table: map<nat, Style>, id: nat, cell: Cell) {
    && id in table
    && (|| table[id] == cell.style
        || (&& cell.glyph.Blank?
            && (|| SpaceLook(table[id]) == SpaceLook(cell.style)
                || DefaultsMixed(SpaceLook(table[id]), SpaceLook(cell.style)))))
  }

  /** A cached cell displays a terminal cell. The style of a continuation is
      never displayed. */
  predicate Shows(scan: ScanCell, table: map<nat, Style>, cell: Cell) {
    && scan.width == cell.width
    && scan.text == NormalizedText(CellText(cell), cell.width)
    && (cell.glyph.Continuation? || StyleShows(table, scan.styleId, cell))
  }

  ghost predicate GridShows(grid: ScanGrid, table: map<nat, Style>, target: Grid) {
    && |grid| == |target|
    && (forall r :: 0 <= r < |grid| ==> |grid[r]| == |target[r]|)
    && (forall r, c :: 0 <= r < |grid| && 0 <= c < |grid[r]| ==> Shows(grid[r][c], table, target[r][c]))
  }

  /** Without text a cell is a space. */
  function TextOnScreen(text: Text): Text { if text == [] then [SPACE] else text }

  function ScanLook(scan: ScanCell, table: map<nat, Style>): Look
    requires scan.styleId in table
  {
    LookOf(TextOnScreen(scan.text), table[scan.styleId])
  }

  function CellLook(cell: Cell): Look { LookOf(TextOnScreen(CellText(cell)), cell.style) }

  /** Only a blank can show the one default colour for the other. */
  predicate Mixed(scan: ScanCell, table: map<nat, Style>, cell: Cell) {
    cell.glyph.Blank? && scan.styleId in table && DefaultsMixed(ScanLook(scan, table), CellLook(cell))
  }

  /** What is cached for a cell looks like the cell, exactly unless it mixes up the
      two defaults. */
  lemma {:induction false} ShownLooks(scan: ScanCell, table: map<nat, Style>, cell: Cell)
    requires Shows(scan, table, cell) && !cell.glyph.Continuation?
    ensures scan.styleId in table && (ScanLook(scan, table) == CellLook(cell) <==> !Mixed(scan, table, cell))
  {
  }

  // ------------------------------------------------------------------ runs

  /** Consecutive cells of one row to be repainted. */
  datatype Run = Run(row: nat, column: nat, cells: seq<Cell>)

  /** A cell that has to be written, and where. */
  datatype Want = Want(row: nat, column: nat, cell: Cell)

  /** Continuations are written by the wide cell before them. */
  function RunWants(row: nat, column: nat, cells: seq<Cell>): seq<Want>
    decreases |cells|
  {
    if cells == [] then []
    else
      var last := cells[|cells| - 1];
      RunWants(row, column, cells[..|cells| - 1])
        + if last.glyph.Continuation? then [] else [Want(row, column + |cells| - 1, last)]
  }

  function RunsWants(runs: seq<Run>): seq<Want>
    decreases |runs|
  {
    if runs == [] then []
    else
      var last := runs[|runs| - 1];
      RunsWants(runs[..|runs| - 1]) + RunWants(last.row, last.column, last.cells)
  }

  predicate Fulfils(w: Write, want: Want, table: map<nat, Style>) {
    && w.row == want.row && w.column == want.column
    && w.text == CellText(want.cell) && w.width == want.cell.width
    && StyleShows(table, w.styleId, want.cell)
  }

  ghost predicate FulfilsAll(writes: seq<Write>, wants: seq<Want>, table: map<nat, Style>) {
    |writes| == |wants| && forall i :: 0 <= i < |writes| ==> Fulfils(writes[i], wants[i], table)
  }

  /** The first `done` cells of a run are shown, the rest of the run still holds
      whole pairs, and nothing outside the run has changed. */
  ghost predicate RunPainted(before: ScanRow, row: ScanRow, table: map<nat, Style>, column: nat, cells: seq<Cell>, done: nat) {
    && |row| == |before| && column + |cells| <= |row| && done <= |cells|
    && (forall j :: 0 <= j < |row| && !(column <= j < column + |cells|) ==> row[j] == before[j])
    && (forall i :: 0 <= i < done ==> Shows(row[column + i], table, cells[i]))
    && PairedSlice(row, column + done, column + |cells|)
  }

  /** Cells settled once the wants of the first `k` have been written. */
  function Settled(cells: seq<Cell>, k: nat): nat
    requires k <= |cells|
  {
    if k < |cells| && cells[k].glyph.Continuation? then k + 1 else k
  }

  /** Clearing the first cell of a slice of whole pairs leaves whole pairs behind it. */
  lemma {:induction false} ClearFront(row: ScanRow, from: nat, to: nat)
    requires from < to && PairedSlice(row, from, to)
    ensures PairedSlice(ClearOccupant(row, from), from + 1, to)
    ensures ClearOccupant(row, from)[from].width == 1
    ensures forall j :: 0 <= j < |row| && !(from <= j < to) ==> ClearOccupant(row, from)[j] == row[j]
  {
    var out := ClearOccupant(row, from);
    assert row[from].width != 0;
    assert row[from].width == 2 ==> row[from + 1].width == 0;
    forall i | from < i < to ensures out[i] == row[i] || (i == from + 1 && row[from].width == 2 && out[i].width == 1) {
    }
    forall i | from < i < to && out[i].width == 0 ensures from + 1 < i && out[i - 1].width == 2 {
      assert row[i].width == 0 && row[i - 1].width == 2;
    }
    forall i | from < i < to && out[i].width == 2 ensures i + 1 < to && out[i + 1].width == 0 {
      assert row[i].width == 2 && row[i + 1].width == 0;
    }
  }

  lemma {:induction false} WriteFront(row: ScanRow, from: nat, to: nat, text: Text, width: nat, id: nat)
    requires (width == 1 || width == 2) && from + width <= to && PairedSlice(row, from, to)
    ensures var out := WriteCell(row, from, text, width, id);
            && PairedSlice(out, from + width, to)
            && (forall j :: 0 <= j < |row| && !(from <= j < to) ==> out[j] == row[j])
            && out[from] == ScanCell(NormalizedText(text, width), id, width)
            && (width == 2 ==> out[from + 1] == ScanCell([], id, 0))
  {
    hide ClearOccupant;
    var cleared := ClearOccupant(row, from);
    ClearFront(row, from, to);
    if width == 2 {
      ClearFront(cleared, from + 1, to);
    }
  }

  lemma {:induction false} WriteRunCell(before: ScanRow, row: ScanRow, table: map<nat, Style>, column: nat, cells: seq<Cell>, i: nat, w: Write)
    requires ValidRow(cells) && i < |cells| && !cells[i].glyph.Continuation?
    requires RunPainted(before, row, table, column, cells, i)
    requires w.column == column + i && w.text == CellText(cells[i]) && w.width == cells[i].width
    requires StyleShows(table, w.styleId, cells[i])
    ensures w.column + w.width <= |row|
    ensures RunPainted(before, WriteCell(row, w.column, w.text, w.width, w.styleId), table, column, cells, i + w.width)
  {
    hide WriteCell, StyleShows, ValidRow, PairedSlice;
    PairAt(cells, i);
    WriteFront(row, column + i, column + |cells|, w.text, w.width, w.styleId);
    var out := WriteCell(row, w.column, w.text, w.width, w.styleId);
    forall j | 0 <= j < i + w.width ensures Shows(out[column + j], table, cells[j]) {
      if j < i {
        assert out[column + j] == row[column + j];
      }
    }
  }

  /** A cell's width says what the cell after it is. */
  lemma {:induction false} PairAt(cells: seq<Cell>, i: nat)
    requires ValidRow(cells) && i < |cells|
    ensures ValidCell(cells[i]) && cells[i].width <= 2
    ensures cells[i].width == 2 ==> i + 1 < |cells| && cells[i + 1].glyph.Continuation? && cells[i + 1].width == 0
    ensures cells[i].glyph.Continuation? ==> 0 < i && cells[i - 1].width == 2
  {
    var widths := CellWidths(cells);
    assert widths[i] == cells[i].width;
    if cells[i].width == 2 {
      assert widths[i + 1] == 0;
    }
  }

  lemma {:induction false} PaintRunPrefix(grid: ScanGrid, table: map<nat, Style>, run: Run, k: nat, writes: seq<Write>)
    requires run.row < |grid| && k <= |run.cells| && ValidRow(run.cells)
    requires PairedSlice(grid[run.row], run.column, run.column + |run.cells|)
    requires FulfilsAll(writes, RunWants(run.row, run.column, run.cells[..k]), table)
    ensures PaintAll(grid, writes).Some?
    ensures var out := PaintAll(grid, writes).value;
            && |out| == |grid| && out == grid[run.row := out[run.row]]
            && RunPainted(grid[run.row], out[run.row], table, run.column, run.cells, Settled(run.cells, k))
    decreases k
  {
    hide WriteCell, StyleShows, ValidRow, RunPainted, RunWants, FulfilsAll;
    var cells := run.cells;
    NoWants(writes, run.row, run.column, cells, table);
    if k == 0 {
      NothingPainted(grid[run.row], table, run.column, cells);
    } else {
      var last := cells[k - 1];
      LastWant(writes, run.row, run.column, cells, k, table);
      PairAt(cells, k - 1);
      if k < |cells| { PairAt(cells, k); }
      if last.glyph.Continuation? {
        PaintRunPrefix(grid, table, run, k - 1, writes);
      } else {
        var early, w := writes[..|writes| - 1], writes[|writes| - 1];
        PaintRunPrefix(grid, table, run, k - 1, early);
        WriteRunCell(grid[run.row], PaintAll(grid, early).value[run.row], table, run.column, cells, k - 1, w);
      }
    }
  }

  lemma {:induction false} NoWants(writes: seq<Write>, row: nat, column: nat, cells: seq<Cell>, table: map<nat, Style>)
    ensures FulfilsAll(writes, RunWants(row, column, cells[..0]), table) ==> writes == []
  {
  }

  lemma {:induction false} LastWant(writes: seq<Write>, row: nat, column: nat, cells: seq<Cell>, k: nat, table: map<nat, Style>)
    requires 0 < k <= |cells| && FulfilsAll(writes, RunWants(row, column, cells[..k]), table)
    ensures cells[k - 1].glyph.Continuation? ==> FulfilsAll(writes, RunWants(row, column, cells[..k - 1]), table)
    ensures !cells[k - 1].glyph.Continuation? ==>
              && writes != []
              && FulfilsAll(writes[..|writes| - 1], RunWants(row, column, cells[..k - 1]), table)
              && Fulfils(writes[|writes| - 1], Want(row, column + k - 1, cells[k - 1]), table)
  {
    assert cells[..k][..k - 1] == cells[..k - 1];
    var wants := RunWants(row, column, cells[..k]);
    if !cells[k - 1].glyph.Continuation? {
      var init := RunWants(row, column, cells[..k - 1]);
      assert wants == init + [Want(row, column + k - 1, cells[k - 1])];
      SplitFulfils(writes, init, [Want(row, column + k - 1, cells[k - 1])], table);
      assert writes[|init|..][0] == writes[|init|];
    }
  }

  lemma {:induction false} NothingPainted(row: ScanRow, table: map<nat, Style>, column: nat, cells: seq<Cell>)
    requires ValidRow(cells) && PairedSlice(row, column, column + |cells|)
    ensures RunPainted(row, row, table, column, cells, Settled(cells, 0))
  {
    if |cells| > 0 { PairAt(cells, 0); }
  }

  /** Runs in row-major order, none overlapping another. */
  ghost predicate OrderedRuns(runs: seq<Run>) {
    forall i, j :: 0 <= i < j < |runs| ==>
      || runs[i].row < runs[j].row
      || (runs[i].row == runs[j].row && runs[i].column + |runs[i].cells| <= runs[j].column)
  }

  predicate RunHas(run: Run, r: int, c: int) {
    run.row == r && run.column <= c < run.column + |run.cells|
  }

  /** A run can be painted on a grid: it is inside, and cuts no pair. */
  ghost predicate Paintable(grid: ScanGrid, run: Run) {
    && run.row < |grid| && ValidRow(run.cells)
    && PairedSlice(grid[run.row], run.column, run.column + |run.cells|)
  }

  /** Exactly the cells of the runs changed, and each shows its new content. */
  ghost predicate RunsPainted(before: ScanGrid, after: ScanGrid, table: map<nat, Style>, runs: seq<Run>) {
    && |after| == |before|
    && (forall r :: 0 <= r < |before| ==> |after[r]| == |before[r]|)
    && (forall i, c :: 0 <= i < |runs| && RunHas(runs[i], runs[i].row, c) && runs[i].row < |after| && c < |after[runs[i].row]| ==>
          Shows(after[runs[i].row][c], table, runs[i].cells[c - runs[i].column]))
    && (forall r, c :: 0 <= r < |after| && 0 <= c < |after[r]| && (forall i :: 0 <= i < |runs| ==> !RunHas(runs[i], r, c)) ==>
          after[r][c] == before[r][c])
  }

  lemma {:induction false} SplitFulfils(writes: seq<Write>, a: seq<Want>, b: seq<Want>, table: map<nat, Style>)
    requires FulfilsAll(writes, a + b, table)
    ensures FulfilsAll(writes[..|a|], a, table) && FulfilsAll(writes[|a|..], b, table)
    ensures writes == writes[..|a|] + writes[|a|..]
  {
    forall i | 0 <= i < |a| ensures Fulfils(writes[..|a|][i], a[i], table) {
      assert (a + b)[i] == a[i];
    }
    forall i | 0 <= i < |b| ensures Fulfils(writes[|a|..][i], b[i], table) {
      assert (a + b)[|a| + i] == b[i];
    }
  }

  lemma {:induction false} StillPaintable(grid: ScanGrid, mid: ScanGrid, table: map<nat, Style>, init: seq<Run>, last: Run)
    requires OrderedRuns(init + [last]) && RunsPainted(grid, mid, table, init) && Paintable(grid, last)
    ensures Paintable(mid, last)
  {
    forall c | last.column <= c < last.column + |last.cells| ensures mid[last.row][c] == grid[last.row][c] {
      forall i | 0 <= i < |init| ensures !RunHas(init[i], last.row, c) {
        assert (init + [last])[i] == init[i] && (init + [last])[|init|] == last;
      }
    }
  }

  lemma {:induction false} RunsWantsAppend(init: seq<Run>, last: Run)
    ensures RunsWants(init + [last]) == RunsWants(init) + RunWants(last.row, last.column, last.cells)
  {
    assert (init + [last])[..|init|] == init;
  }

  lemma {:induction false} OrderedPrefix(init: seq<Run>, last: Run)
    requires OrderedRuns(init + [last])
    ensures OrderedRuns(init)
  {
    forall i, j | 0 <= i < j < |init|
      ensures init[i].row < init[j].row || (init[i].row == init[j].row && init[i].column + |init[i].cells| <= init[j].column)
    {
      assert (init + [last])[i] == init[i] && (init + [last])[j] == init[j];
    }
  }

  /** Writing the cells of pair-closed runs in order repaints exactly the runs. */
  lemma {:induction false} PaintRuns(grid: ScanGrid, table: map<nat, Style>, runs: seq<Run>, writes: seq<Write>)
    requires OrderedRuns(runs)
    requires forall i :: 0 <= i < |runs| ==> Paintable(grid, runs[i])
    requires FulfilsAll(writes, RunsWants(runs), table)
    ensures PaintAll(grid, writes).Some?
    ensures RunsPainted(grid, PaintAll(grid, writes).value, table, runs)
    decreases |runs|
  {
    if runs == [] {
      assert writes == [] by { assert RunsWants(runs) == []; }
    } else {
      hide OrderedRuns, Paintable, RunsWants, RunWants, FulfilsAll, RunsPainted, PaintAll;
      var init, last := runs[..|runs| - 1], runs[|runs| - 1];
      assert runs == init + [last];
      RunsWantsAppend(init, last);
      OrderedPrefix(init, last);
      var wants := RunsWants(init);
      SplitFulfils(writes, wants, RunWants(last.row, last.column, last.cells), table);
      var early, late := writes[..|wants|], writes[|wants|..];
      PaintRuns(grid, table, init, early);
      var mid := PaintAll(grid, early).value;
      StillPaintable(grid, mid, table, init, last);
      PaintLastRun(grid, mid, table, init, last, late);
      PaintAllAppend(grid, early, late);
    }
  }

  lemma {:induction false} PaintLastRun(before: ScanGrid, mid: ScanGrid, table: map<nat, Style>, init: seq<Run>, last: Run, writes: seq<Write>)
    requires OrderedRuns(init + [last]) && RunsPainted(before, mid, table, init) && Paintable(mid, last)
    requires FulfilsAll(writes, RunWants(last.row, last.column, last.cells), table)
    ensures PaintAll(mid, writes).Some? && RunsPainted(before, PaintAll(mid, writes).value, table, init + [last])
  {
    hide OrderedRuns, RunWants, FulfilsAll, RunsPainted, PaintAll, RunPainted;
    assert last.cells[..|last.cells|] == last.cells;
    PaintRunPrefix(mid, table, last, |last.cells|, writes);
    LastRunPainted(before, mid, PaintAll(mid, writes).value, table, init, last);
  }

  lemma {:induction false} LastRunShown(before: ScanRow, after: ScanRow, table: map<nat, Style>, last: Run, c: nat)
    requires RunPainted(before, after, table, last.column, last.cells, |last.cells|) && RunHas(last, last.row, c) && c < |after|
    ensures Shows(after[c], table, last.cells[c - last.column])
  {
    hide Shows;
    assert last.column + (c - last.column) == c;
  }

  lemma {:induction false} LastRunPainted(before: ScanGrid, mid: ScanGrid, after: ScanGrid, table: map<nat, Style>, init: seq<Run>, last: Run)
    requires OrderedRuns(init + [last]) && RunsPainted(before, mid, table, init)
    requires last.row < |mid| == |after| && after == mid[last.row := after[last.row]]
    requires RunPainted(mid[last.row], after[last.row], table, last.column, last.cells, |last.cells|)
    ensures RunsPainted(before, after, table, init + [last])
  {
    hide Shows, OrderedRuns;
    var runs := init + [last];
    forall i, c | 0 <= i < |runs| && RunHas(runs[i], runs[i].row, c) && runs[i].row < |after| && c < |after[runs[i].row]|
      ensures Shows(after[runs[i].row][c], table, runs[i].cells[c - runs[i].column])
    {
      if i < |init| {
        EarlierRunKept(mid, after, table, init, last, i, c);
      } else {
        LastRunShown(mid[last.row], after[last.row], table, last, c);
      }
    }
    forall r, c | 0 <= r < |after| && 0 <= c < |after[r]| && (forall i :: 0 <= i < |runs| ==> !RunHas(runs[i], r, c))
      ensures after[r][c] == before[r][c]
    {
      UncoveredKept(before, mid, after, table, init, last, r, c);
    }
  }

  lemma {:induction false} EarlierRunKept(mid: ScanGrid, after: ScanGrid, table: map<nat, Style>, init: seq<Run>, last: Run, i: nat, c: nat)
    requires OrderedRuns(init + [last]) && i < |init| && RunHas(init[i], init[i].row, c)
    requires last.row < |mid| == |after| && after == mid[last.row := after[last.row]]
    requires RunPainted(mid[last.row], after[last.row], table, last.column, last.cells, |last.cells|)
    requires init[i].row < |mid| && c < |mid[init[i].row]|
    ensures after[init[i].row][c] == mid[init[i].row][c]
  {
    hide Shows;
    assert (init + [last])[i] == init[i] && (init + [last])[|init|] == last;
  }

  lemma {:induction false} UncoveredKept(before: ScanGrid, mid: ScanGrid, after: ScanGrid, table: map<nat, Style>, init: seq<Run>, last: Run,
                                         r: nat, c: nat)
    requires RunsPainted(before, mid, table, init)
    requires last.row < |mid| == |after| && after == mid[last.row := after[last.row]]
    requires RunPainted(mid[last.row], after[last.row], table, last.column, last.cells, |last.cells|)
    requires r < |after| && c < |after[r]|
    requires forall i :: 0 <= i < |init + [last]| ==> !RunHas((init + [last])[i], r, c)
    ensures after[r][c] == before[r][c]
  {
    hide Shows;
    assert !RunHas((init + [last])[|init|], r, c);
    forall i | 0 <= i < |init| ensures !RunHas(init[i], r, c) {
      assert (init + [last])[i] == init[i];
    }
  }

  // --------------------------------------------------------------- scrolls

  function ScrollScan(grid: ScanGrid, region: Option<ScrollRegion>, cols: nat): ScanGrid
    requires region.Some? ==> 0 <= region.value.top && region.value.bottom <= |grid|
  {
    Scrolled(grid, region, BLANK_SCAN, cols)
  }

  /** Scrolling the cache and scrolling what it shows agree. */
  lemma {:induction false} ScrollShows(grid: ScanGrid, table: map<nat, Style>, target: Grid, region: Option<ScrollRegion>, cols: nat)
    requires GridShows(grid, table, target) && Sized(grid, |grid|, cols)
    requires region.Some? ==> LegalScroll(region.value, |grid|)
    requires DEFAULT_STYLE_ID in table && table[DEFAULT_STYLE_ID] == DEFAULT_STYLE
    ensures GridShows(ScrollScan(grid, region, cols), table, Scrolled(target, region, DEFAULT_BLANK, cols))
  {
    var scanned, shown := ScrollScan(grid, region, cols), Scrolled(target, region, DEFAULT_BLANK, cols);
    forall r | 0 <= r < |scanned|
      ensures |scanned[r]| == |shown[r]|
      ensures forall c :: 0 <= c < |scanned[r]| ==> Shows(scanned[r][c], table, shown[r][c])
    {
      if region.Some? && ScrollSource(region.value, r).Some? {
        var source := ScrollSource(region.value, r).value;
        assert scanned[r] == grid[source] && shown[r] == target[source];
      }
    }
  }

  lemma {:induction false} ScrollKeepsPairs(grid: ScanGrid, region: Option<ScrollRegion>, cols: nat)
    requires PairedGrid(grid) && Sized(grid, |grid|, cols)
    requires region.Some? ==> LegalScroll(region.value, |grid|)
    ensures PairedGrid(ScrollScan(grid, region, cols)) && Sized(ScrollScan(grid, region, cols), |grid|, cols)
  {
    var out := ScrollScan(grid, region, cols);
    forall r | 0 <= r < |out| ensures |out[r]| == cols && PairedSlice(out[r], 0, |out[r]|) {
      if region.Some? && ScrollSource(region.value, r).Some? {
        assert out[r] == grid[ScrollSource(region.value, r).value];
      }
    }
  }
}
