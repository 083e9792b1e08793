/** `paneScanoutCache`: a pane's decoded cells in a circular store of rows. The
    logical grid is what the rest of the client sees; the store may start at any row. */
module ScanoutCache {
  import opened Display
  import opened DisplayInterpreter
  import opened Painting

  /** Where logical row `row` is stored. */
  function Physical(head: nat, row: nat, rows: nat): (at: nat)
    requires head < rows && row < rows
    ensures at < rows
    ensures at == if head + row < rows then head + row else head + row - rows
  {
    WrapOnce(head + row, rows);
    (head + row) % rows
  }

  lemma {:induction false} WrapOnce(x: nat, n: nat)
    requires x < 2 * n
    ensures x % n == if x < n then x else x - n
  {
    var q := x / n;
    assert x == n * q + x % n;
    if q >= 2 {
      TwiceAtMost(n, q);
    } else if q == 1 {
      assert n * q == n;
    } else {
      assert n * q == 0;
    }
  }

  lemma {:induction false} TwiceAtMost(n: nat, q: nat)
    requires 2 <= q
    ensures 2 * n <= n * q
  {
    assert n * q == n * 2 + n * (q - 2);
  }

  predicate Legal(region: ScrollRegion, rows: nat) {
    rows != 0 && LegalScroll(region, rows)
  }

  lemma {:induction false} LegalByChecks(region: ScrollRegion, rows: nat)
    ensures Legal(region, rows) <==>
            !(rows == 0 || region.top < 0 || region.top >= region.bottom || region.bottom > rows
              || region.delta == 0 || region.delta < -(region.bottom - region.top) || region.delta > region.bottom - region.top)
  {
  }

  // -------------------------------------------------------- frame evidence

  /** Which cells a frame wrote, each with its content before the frame and after it. */
  datatype CellChange = CellChange(before: ScanCell, after: ScanCell)
  type Evidence = map<(int, int), CellChange>

  /** The evidence names every cell that differs and tells the truth about each it names. */
  ghost predicate EvidenceExact(touched: Evidence, before: ScanGrid, after: ScanGrid) {
    && |before| == |after|
    && (forall r :: 0 <= r < |before| ==> |before[r]| == |after[r]|)
    && (forall p :: p in touched ==>
          && 0 <= p.0 < |before| && 0 <= p.1 < |before[p.0]|
          && touched[p] == CellChange(before[p.0][p.1], after[p.0][p.1]))
    && (forall r, c :: 0 <= r < |before| && 0 <= c < |before[r]| && (r, c) !in touched ==> before[r][c] == after[r][c])
  }

  /** One recorded store. */
  function Recorded(touched: Evidence, row: int, column: int, stored: ScanCell, cell: ScanCell): Evidence {
    var first := if (row, column) in touched then touched[(row, column)].before else stored;
    touched[(row, column) := CellChange(first, cell)]
  }

  lemma {:induction false} RecordExact(touched: Evidence, before: ScanGrid, mid: ScanGrid, row: nat, column: nat, cell: ScanCell)
    requires EvidenceExact(touched, before, mid) && row < |mid| && column < |mid[row]|
    ensures EvidenceExact(Recorded(touched, row, column, mid[row][column], cell), before, mid[row := mid[row][column := cell]])
  {
  }

  // ------------------------------------------------------- single-width grids

  predicate NarrowRow(row: ScanRow) { forall c :: 0 <= c < |row| ==> row[c].width == 1 }

  predicate Narrow(grid: ScanGrid) { forall r :: 0 <= r < |grid| ==> NarrowRow(grid[r]) }

  predicate NarrowWrites(writes: seq<Write>) { forall i :: 0 <= i < |writes| ==> writes[i].width == 1 }

  /** The cells a sequence of single-width writes lands on. */
  function WrittenKeys(writes: seq<Write>): set<(int, int)> {
    if writes == [] then {}
    else WrittenKeys(writes[..|writes| - 1]) + {(writes[|writes| - 1].row, writes[|writes| - 1].column)}
  }

  lemma {:induction false} WrittenAppend(a: seq<Write>, b: seq<Write>)
    ensures WrittenKeys(a + b) == WrittenKeys(a) + WrittenKeys(b)
    decreases |b|
  {
    if b == [] {
      assert a + b == a;
    } else {
      assert (a + b)[..|a + b| - 1] == a + b[..|b| - 1];
      WrittenAppend(a, b[..|b| - 1]);
    }
  }

  lemma {:induction false} WrittenNext(writes: seq<Write>, k: nat)
    requires k < |writes|
    ensures WrittenKeys(writes[..k + 1]) == WrittenKeys(writes[..k]) + {(writes[k].row, writes[k].column)}
  {
    assert writes[..k + 1][..k] == writes[..k];
  }

  /** A single-width write on a single-width row touches its own cell only. */
  lemma {:induction false} NarrowWrite(row: ScanRow, column: nat, text: Text, id: nat)
    requires NarrowRow(row) && column < |row|
    ensures WriteCell(row, column, text, 1, id) == row[column := ScanCell(NormalizedText(text, 1), id, 1)]
    ensures NarrowRow(WriteCell(row, column, text, 1, id))
  {
  }

  lemma {:induction false} NarrowAt(grid: ScanGrid, r: int)
    ensures Narrow(grid) && 0 <= r < |grid| ==> NarrowRow(grid[r])
  {
  }

  lemma {:induction false} NarrowPaint(grid: ScanGrid, w: Write)
    requires Narrow(grid) && w.width == 1 && Paint(grid, w).Some?
    ensures Narrow(Paint(grid, w).value)
  {
    NarrowWrite(grid[w.row], w.column, w.text, w.styleId);
  }

  // ------------------------------------------------------- spans as writes

  /** The cells a fill loop paints, the last one possibly past an odd end. */
  function FillCount(columns: nat, width: nat): nat {
    if width == 2 then (columns + 1) / 2 else columns
  }

  function FillText(r: Rune): Text {
    if r == SPACE then [] else [r]
  }

  function FillWrites(row: int, column: int, count: nat, text: Text, width: nat, id: nat): (writes: seq<Write>)
    ensures |writes| == count
  {
    if count == 0 then []
    else FillWrites(row, column, count - 1, text, width, id)
           + [Write(row, column + Columns(count - 1, width), text, width, id)]
  }

  /** What the cache stores for a span: a fill of spaces stores empty text
      whatever its width. */
  function CachedWrites(span: Span): seq<Write> {
    match span
    case FillSpan(row, column, id, width, r, columns) =>
      FillWrites(row, column, FillCount(columns, width), FillText(r), width, id)
    case _ => SpanWrites(span)
  }

  /** No fill of double-width spaces: no terminal has such a cell. */
  predicate NarrowSpaces(span: Span) {
    span.FillSpan? && span.fillRune == SPACE ==> span.width == 1
  }

  lemma {:induction false} RepeatedWrites(row: int, column: int, count: nat, r: Rune, width: nat, id: nat)
    ensures RuneWrites(row, column, Repeat(r, count), width, id) == FillWrites(row, column, count, [r], width, id)
    decreases count
  {
    if count > 0 {
      assert Repeat(r, count)[..count - 1] == Repeat(r, count - 1);
      RepeatedWrites(row, column, count - 1, r, width, id);
    }
  }

  /** For cells one column wide the empty text and the space are the same blank. */
  lemma {:induction false} EmptyIsSpace(grid: ScanGrid, row: int, column: int, count: nat, id: nat)
    ensures PaintAll(grid, FillWrites(row, column, count, [], 1, id)) == PaintAll(grid, FillWrites(row, column, count, [SPACE], 1, id))
    decreases count
  {
    hide PaintAll, Paint;
    if count > 0 {
      var empty, spaces := FillWrites(row, column, count, [], 1, id), FillWrites(row, column, count, [SPACE], 1, id);
      EmptyIsSpace(grid, row, column, count - 1, id);
      assert empty[..count - 1] == FillWrites(row, column, count - 1, [], 1, id);
      assert spaces[..count - 1] == FillWrites(row, column, count - 1, [SPACE], 1, id);
      LastWrite(grid, empty, spaces);
    }
  }

  lemma {:induction false} LastWrite(grid: ScanGrid, empty: seq<Write>, spaces: seq<Write>)
    requires 0 < |empty| == |spaces|
    requires PaintAll(grid, empty[..|empty| - 1]) == PaintAll(grid, spaces[..|spaces| - 1])
    requires empty[|empty| - 1] == spaces[|spaces| - 1].(text := []) && spaces[|spaces| - 1].text == [SPACE]
    requires spaces[|spaces| - 1].width == 1
    ensures PaintAll(grid, empty) == PaintAll(grid, spaces)
  {
    hide ClearOccupant;
  }

  lemma {:induction false} FillKeys(row: int, column: int, count: nat, a: Text, b: Text, width: nat, id: nat)
    ensures WrittenKeys(FillWrites(row, column, count, a, width, id)) == WrittenKeys(FillWrites(row, column, count, b, width, id))
    decreases count
  {
    hide Columns, WrittenKeys;
    if count > 0 {
      FillKeys(row, column, count - 1, a, b, width, id);
      var at := column + Columns(count - 1, width);
      LastKey(FillWrites(row, column, count - 1, a, width, id), Write(row, at, a, width, id));
      LastKey(FillWrites(row, column, count - 1, b, width, id), Write(row, at, b, width, id));
    }
  }

  lemma {:induction false} LastKey(init: seq<Write>, last: Write)
    ensures WrittenKeys(init + [last]) == WrittenKeys(init) + {(last.row, last.column)}
  {
    assert (init + [last])[..|init|] == init;
  }

  lemma {:induction false} CachedKeys(span: Span)
    requires WholeSpan(span)
    ensures WrittenKeys(CachedWrites(span)) == WrittenKeys(SpanWrites(span))
  {
    hide WrittenKeys, FillWrites, RuneWrites, Repeat, Cells, FillCount, ValidFill;
    if span.FillSpan? {
      WholeCount(span.columns, span.width);
      FilledKeys(span.row, span.column, Cells(span.columns, span.width), span.fillRune, span.width, span.styleId);
    }
  }

  lemma {:induction false} FilledKeys(row: int, column: int, count: nat, r: Rune, width: nat, id: nat)
    ensures WrittenKeys(FillWrites(row, column, count, FillText(r), width, id)) ==
            WrittenKeys(RuneWrites(row, column, Repeat(r, count), width, id))
  {
    hide *;
    RepeatedWrites(row, column, count, r, width, id);
    FillKeys(row, column, count, FillText(r), [r], width, id);
  }

  lemma {:induction false} WholeCount(columns: nat, width: nat)
    requires ValidFill(columns, width)
    ensures FillCount(columns, width) == Cells(columns, width)
  {
  }

  /** The cache stores a span as the interpreter meant it. */
  lemma {:induction false} CachedWritesPaint(grid: ScanGrid, span: Span)
    requires WholeSpan(span) && NarrowSpaces(span)
    ensures PaintAll(grid, CachedWrites(span)) == PaintAll(grid, SpanWrites(span))
  {
    hide PaintAll, RuneWrites, FillWrites, Repeat;
    if span.FillSpan? {
      RepeatedWrites(span.row, span.column, Cells(span.columns, span.width), span.fillRune, span.width, span.styleId);
      if span.fillRune == SPACE {
        EmptyIsSpace(grid, span.row, span.column, span.columns, span.styleId);
      }
    }
  }

  /** Nothing after a refused write is painted. */
  lemma {:induction false} PrefixRefused(grid: ScanGrid, writes: seq<Write>, k: nat)
    requires k <= |writes| && PaintAll(grid, writes[..k]).None?
    ensures PaintAll(grid, writes).None?
    decreases |writes| - k
  {
    if k < |writes| {
      NextWrite(grid, writes, k);
      PrefixRefused(grid, writes, k + 1);
    } else {
      assert writes[..k] == writes;
    }
  }

  lemma {:induction false} NextWrite(grid: ScanGrid, writes: seq<Write>, k: nat)
    requires k < |writes|
    ensures PaintAll(grid, writes[..k + 1]) ==
            match PaintAll(grid, writes[..k]) { case None => None case Some(mid) => Paint(mid, writes[k]) }
  {
    assert writes[..k + 1][..k] == writes[..k];
  }

  lemma {:induction false} RuneWriteAt(row: int, column: int, text: Text, width: nat, id: nat, k: nat)
    requires k < |text|
    ensures |RuneWrites(row, column, text, width, id)| == |text|
    ensures RuneWrites(row, column, text, width, id)[k] == Write(row, column + Columns(k, width), [text[k]], width, id)
    decreases |text|
  {
    var init := text[..|text| - 1];
    if k < |init| {
      RuneWriteAt(row, column, init, width, id, k);
    } else if |init| > 0 {
      RuneWriteAt(row, column, init, width, id, 0);
    }
  }

  lemma {:induction false} FillWriteAt(row: int, column: int, count: nat, text: Text, width: nat, id: nat, k: nat)
    requires k < count
    ensures FillWrites(row, column, count, text, width, id)[k] == Write(row, column + Columns(k, width), text, width, id)
    decreases count
  {
    if k < count - 1 {
      FillWriteAt(row, column, count - 1, text, width, id, k);
    }
  }

  /** A painted span starts inside the grid. */
  lemma {:induction false} StartsInside(grid: ScanGrid, span: Span)
    requires WholeSpan(span) && PaintAll(grid, SpanWrites(span)).Some?
    ensures 0 <= span.row < |grid| && 0 <= span.column < |grid[span.row]|
    ensures span.width == 1 || span.width == 2
  {
    var writes := SpanWrites(span);
    if span.TextSpan? {
      RuneWriteAt(span.row, span.column, span.text, span.width, span.styleId, 0);
    } else if span.FillSpan? {
      RuneWriteAt(span.row, span.column, Repeat(span.fillRune, Cells(span.columns, span.width)), span.width, span.styleId, 0);
    }
    if PaintAll(grid, writes[..1]).None? {
      PrefixRefused(grid, writes, 1);
    }
    NextWrite(grid, writes, 0);
    assert writes[..0] == [];
    assert PaintAll(grid, []) == Some(grid);
  }

  /** One span on a cache of this size; none where it leaves the pane. */
  function Applied(grid: ScanGrid, rows: nat, cols: nat, span: Span): Option<ScanGrid> {
    if 0 <= span.row < rows && 0 <= span.column < cols then PaintAll(grid, CachedWrites(span)) else None
  }

  function ApplyAll(grid: ScanGrid, rows: nat, cols: nat, spans: seq<Span>): Option<ScanGrid>
    decreases |spans|
  {
    if spans == [] then Some(grid)
    else match ApplyAll(grid, rows, cols, spans[..|spans| - 1])
      case None => None
      case Some(mid) => Applied(mid, rows, cols, spans[|spans| - 1])
  }

  /** Whole spans without double-width spaces are cached as the writes they mean. */
  lemma {:induction false} ApplyIsPaint(grid: ScanGrid, rows: nat, cols: nat, spans: seq<Span>)
    requires Sized(grid, rows, cols) && WholeSpans(spans) && forall i :: 0 <= i < |spans| ==> NarrowSpaces(spans[i])
    ensures ApplyAll(grid, rows, cols, spans) == PaintAll(grid, SpansWrites(spans))
    decreases |spans|
  {
    hide PaintAll, SpanWrites, CachedWrites, NarrowSpaces, WholeSpan, Sized;
    if spans == [] {
      NothingPainted(grid);
    } else {
      var init, last := spans[..|spans| - 1], spans[|spans| - 1];
      ApplyIsPaint(grid, rows, cols, init);
      PaintAllAppend(grid, SpansWrites(init), SpanWrites(last));
      if PaintAll(grid, SpansWrites(init)).Some? {
        var mid := PaintAll(grid, SpansWrites(init)).value;
        StaysSized(grid, SpansWrites(init), rows, cols);
        CachedWritesPaint(mid, last);
        if PaintAll(mid, SpanWrites(last)).Some? {
          StartsInside(mid, last);
          RowsAndColumns(mid, rows, cols);
        }
      }
    }
  }

  lemma {:induction false} NothingPainted(grid: ScanGrid)
    ensures PaintAll(grid, []) == Some(grid)
  {
  }

  lemma {:induction false} RowsAndColumns(grid: ScanGrid, rows: int, cols: int)
    requires Sized(grid, rows, cols)
    ensures |grid| == rows && forall r :: 0 <= r < rows ==> |grid[r]| == cols
  {
  }

  lemma {:induction false} StaysSized(grid: ScanGrid, writes: seq<Write>, rows: int, cols: int)
    requires Sized(grid, rows, cols) && PaintAll(grid, writes).Some?
    ensures Sized(PaintAll(grid, writes).value, rows, cols)
    decreases |writes|
  {
    if writes != [] {
      StaysSized(grid, writes[..|writes| - 1], rows, cols);
      hide WriteCell;
    }
  }

  // ------------------------------------------------------- rows of a scroll

  function UpCopied(grid: ScanGrid, top: nat, row: int, shift: nat): (out: ScanGrid)
    ensures |out| == |grid|
  {
    seq(|grid|, r requires 0 <= r < |grid| => if top <= r < row && r + shift < |grid| then grid[r + shift] else grid[r])
  }

  function DownCopied(grid: ScanGrid, row: int, bottom: nat, shift: nat): (out: ScanGrid)
    ensures |out| == |grid|
  {
    seq(|grid|, r requires 0 <= r < |grid| => if row < r < bottom && r >= shift then grid[r - shift] else grid[r])
  }

  function Blanked(grid: ScanGrid, from: int, to: int, cols: nat): (out: ScanGrid)
    ensures |out| == |grid|
  {
    seq(|grid|, r requires 0 <= r < |grid| => if from <= r < to then BlankRow(BLANK_SCAN, cols) else grid[r])
  }

  function RolledUp(grid: ScanGrid, turns: nat, cols: nat): (out: ScanGrid)
    ensures |out| == |grid|
  {
    seq(|grid|, r requires 0 <= r < |grid| => if r + turns < |grid| then grid[r + turns] else BlankRow(BLANK_SCAN, cols))
  }

  function RolledDown(grid: ScanGrid, turns: nat, cols: nat): (out: ScanGrid)
    ensures |out| == |grid|
  {
    seq(|grid|, r requires 0 <= r < |grid| => if r >= turns then grid[r - turns] else BlankRow(BLANK_SCAN, cols))
  }

  /** Copying and blanking rows, or rolling them all, is the scroll. */
  lemma {:induction false} ScrollRows(grid: ScanGrid, region: ScrollRegion, cols: nat)
    requires Legal(region, |grid|)
    ensures var top, bottom, delta := region.top, region.bottom, region.delta;
            var target := ScrollScan(grid, Some(region), cols);
            && (delta < 0 ==> Blanked(UpCopied(grid, top, bottom + delta, -delta), bottom + delta, bottom, cols) == target)
            && (delta > 0 ==> Blanked(DownCopied(grid, top + delta - 1, bottom, delta), top, top + delta, cols) == target)
            && (top == 0 && bottom == |grid| && delta < 0 ==> target == RolledUp(grid, -delta, cols))
            && (top == 0 && bottom == |grid| && delta > 0 ==> target == RolledDown(grid, delta, cols))
  {
    var target := ScrollScan(grid, Some(region), cols);
    forall r | 0 <= r < |grid|
      ensures target[r] == (match ScrollSource(region, r) case Some(source) => grid[source] case None => BlankRow(BLANK_SCAN, cols))
    {
    }
  }

  /** One more row copied, blanked or rolled. */
  lemma {:induction false} UpStep(grid: ScanGrid, top: nat, row: nat, shift: nat)
    ensures UpCopied(grid, top, top, shift) == grid
    ensures top <= row && row + shift < |grid| ==>
              UpCopied(grid, top, row + 1, shift) == UpCopied(grid, top, row, shift)[row := UpCopied(grid, top, row, shift)[row + shift]]
  {
  }

  lemma {:induction false} DownStep(grid: ScanGrid, row: int, bottom: nat, shift: nat)
    ensures DownCopied(grid, bottom - 1, bottom, shift) == grid
    ensures shift <= row < bottom <= |grid| && row < |grid| ==>
              DownCopied(grid, row - 1, bottom, shift) == DownCopied(grid, row, bottom, shift)[row := DownCopied(grid, row, bottom, shift)[row - shift]]
  {
  }

  lemma {:induction false} BlankStep(grid: ScanGrid, from: int, row: int, cols: nat)
    ensures Blanked(grid, from, from, cols) == grid
    ensures 0 <= from <= row < |grid| ==>
              Blanked(grid, from, row + 1, cols) == Blanked(grid, from, row, cols)[row := BlankRow(BLANK_SCAN, cols)]
  {
  }

  lemma {:induction false} RollStep(grid: ScanGrid, turns: nat, cols: nat)
    ensures RolledUp(grid, 0, cols) == grid == RolledDown(grid, 0, cols)
    ensures |grid| > 0 ==>
              && RolledUp(grid, turns + 1, cols) == RotatedUp(RolledUp(grid, turns, cols))[|grid| - 1 := BlankRow(BLANK_SCAN, cols)]
              && RolledDown(grid, turns + 1, cols) == RotatedDown(RolledDown(grid, turns, cols))[0 := BlankRow(BLANK_SCAN, cols)]
  {
  }

  function AllBlank(rows: nat, cols: nat): ScanGrid {
    seq(rows, _ => BlankRow(BLANK_SCAN, cols))
  }

  lemma {:induction false} AllRolled(grid: ScanGrid, turns: nat, cols: nat)
    requires |grid| <= turns
    ensures AllBlank(|grid|, cols) == RolledUp(grid, turns, cols) == RolledDown(grid, turns, cols)
  {
  }

  function RotatedUp(grid: ScanGrid): (out: ScanGrid)
    requires |grid| > 0
  {
    grid[1..] + [grid[0]]
  }

  function RotatedDown(grid: ScanGrid): (out: ScanGrid)
    requires |grid| > 0
  {
    [grid[|grid| - 1]] + grid[..|grid| - 1]
  }

  // ------------------------------------------------------------- the cache

  class PaneScanoutCache {
    const cols: nat
    const rows: nat
    const cells: array2<ScanCell>
    var head: nat
    /** The rows in logical order, tied to the store by `Valid`. */
    ghost var grid: ScanGrid

    ghost predicate Valid()
      reads this, cells
      ensures Valid() ==> Sized(grid, rows, cols)
    {
      && cells.Length0 == rows && cells.Length1 == cols && Sized(grid, rows, cols)
      && (if rows == 0 then head == 0 else head < rows)
      && (forall r, c :: 0 <= r < rows && 0 <= c < cols ==> cells[Physical(head, r, rows), c] == grid[r][c])
    }

    constructor (cols: nat, rows: nat)
      ensures Valid() && fresh(cells) && this.cols == cols && this.rows == rows
      ensures forall r :: 0 <= r < rows ==> grid[r] == BlankRow(BLANK_SCAN, cols)
    {
      this.cols, this.rows, head := cols, rows, 0;
      cells := new ScanCell[rows, cols]((r, c) => BLANK_SCAN);
      grid := seq(rows, _ => BlankRow(BLANK_SCAN, cols));
    }

    /** One cell of the logical grid. */
    method CellAt(row: nat, column: nat) returns (cell: ScanCell)
      requires Valid() && row < rows && column < cols
      ensures cell == grid[row][column]
    {
      cell := cells[Physical(head, row, rows), column];
    }

    // ---------------------------------------------------------- row stores

    method CopyRow(to: nat, from: nat)
      requires Valid() && to < rows && from < rows
      modifies `grid, cells
      ensures Valid() && grid == old(grid)[to := old(grid)[from]]
    {
      var target, source := Physical(head, to, rows), Physical(head, from, rows);
      var column := 0;
      while column < cols
        invariant 0 <= column <= cols && grid == old(grid)
        invariant forall r, c :: 0 <= r < rows && 0 <= c < cols ==>
                    cells[r, c] == if r == target && c < column then old(cells[source, c]) else old(cells[r, c])
      {
        cells[target, column] := cells[source, column];
        column := column + 1;
      }
      grid := grid[to := grid[from]];
    }

    method FillBlank(row: nat)
      requires Valid() && row < rows
      modifies `grid, cells
      ensures Valid() && grid == old(grid)[row := BlankRow(BLANK_SCAN, cols)]
    {
      var target := Physical(head, row, rows);
      var column := 0;
      while column < cols
        invariant 0 <= column <= cols && grid == old(grid)
        invariant forall r, c :: 0 <= r < rows && 0 <= c < cols ==>
                    cells[r, c] == if r == target && c < column then BLANK_SCAN else old(cells[r, c])
      {
        cells[target, column] := BLANK_SCAN;
        column := column + 1;
      }
      grid := grid[row := BlankRow(BLANK_SCAN, cols)];
    }

    // ------------------------------------------------------------- scrolls

    /** Whatever row the store starts at, a legal scroll is the scroll of the
        plain sequence of rows; an illegal one changes nothing. */
    method ScrollBy(region: ScrollRegion)
      requires Valid()
      modifies this, cells
      ensures Valid()
      ensures grid == if Legal(region, rows) then ScrollScan(old(grid), Some(region), cols) else old(grid)
    {
      LegalByChecks(region, rows);
      if rows == 0 || region.top < 0 || region.top >= region.bottom || region.bottom > rows
         || region.delta == 0 || region.delta < -(region.bottom - region.top) || region.delta > region.bottom - region.top {
        return;
      }
      hide *;
      if region.top == 0 && region.bottom == rows {
        ScrollViewport(region);
      } else if region.delta < 0 {
        ScrollUp(region);
      } else {
        ScrollDown(region);
      }
    }

    /** Overlapping rows are copied from the top down. */
    method ScrollUp(region: ScrollRegion)
      requires Valid() && Legal(region, rows) && region.delta < 0
      modifies this, cells
      ensures Valid() && grid == ScrollScan(old(grid), Some(region), cols)
    {
      ScrollRows(grid, region, cols);
      LegalByChecks(region, rows);
      hide *;
      var top: nat, bottom: nat, shift: nat := region.top, region.bottom, -region.delta;
      CopyUp(top, bottom - shift, shift);
      BlankRows(bottom - shift, bottom);
    }

    method CopyUp(top: nat, end: nat, shift: nat)
      requires Valid() && top <= end && end + shift <= rows
      modifies this, cells
      ensures Valid() && grid == UpCopied(old(grid), top, end, shift)
    {
      ghost var was := grid;
      assert |was| == rows;
      hide *;
      UpStep(was, top, top, shift);
      var row := top;
      while row < end
        invariant top <= row <= end && Valid() && grid == UpCopied(was, top, row, shift)
      {
        UpStep(was, top, row, shift);
        CopyRow(row, row + shift);
        row := row + 1;
      }
    }

    /** Overlapping rows are copied from the bottom up. */
    method ScrollDown(region: ScrollRegion)
      requires Valid() && Legal(region, rows) && region.delta > 0
      modifies this, cells
      ensures Valid() && grid == ScrollScan(old(grid), Some(region), cols)
    {
      ScrollRows(grid, region, cols);
      LegalByChecks(region, rows);
      hide *;
      CopyDown(region.top, region.bottom, region.delta);
      BlankRows(region.top, region.top + region.delta);
    }

    method CopyDown(top: nat, bottom: nat, shift: nat)
      requires Valid() && top + shift <= bottom <= rows
      modifies this, cells
      ensures Valid() && grid == DownCopied(old(grid), top + shift - 1, bottom, shift)
    {
      ghost var was := grid;
      assert |was| == rows;
      hide *;
      DownStep(was, bottom - 1, bottom, shift);
      var row: int := bottom - 1;
      while row >= top + shift
        invariant top + shift - 1 <= row <= bottom - 1 && Valid() && grid == DownCopied(was, row, bottom, shift)
      {
        DownStep(was, row, bottom, shift);
        CopyRow(row, row - shift);
        row := row - 1;
      }
    }

    method BlankRows(from: nat, to: nat)
      requires Valid() && from <= to <= rows
      modifies this, cells
      ensures Valid() && grid == Blanked(old(grid), from, to, cols)
    {
      ghost var was := grid;
      assert |was| == rows;
      hide *;
      BlankStep(was, from, from, cols);
      var row := from;
      while row < to
        invariant from <= row <= to && Valid() && grid == Blanked(was, from, row, cols)
      {
        BlankStep(was, from, row, cols);
        FillBlank(row);
        row := row + 1;
      }
    }

    /** A whole-viewport scroll moves the head instead of the rows. */
    method ScrollViewport(region: ScrollRegion)
      requires Valid() && Legal(region, rows) && region.top == 0 && region.bottom == rows
      modifies this, cells
      ensures Valid() && grid == ScrollScan(old(grid), Some(region), cols)
    {
      var delta := region.delta;
      ScrollRows(grid, region, cols);
      hide *;
      if delta <= -(rows as int) || delta >= rows {
        AllRolled(grid, if delta < 0 then -delta else delta, cols);
        ClearCells();
      } else if delta < 0 {
        RollUp(-delta);
      } else {
        RollDown(delta);
      }
    }

    method RollUp(turns: nat)
      requires Valid() && 0 < rows
      modifies this, cells
      ensures Valid() && grid == RolledUp(old(grid), turns, cols)
    {
      ghost var was := grid;
      assert |was| == rows;
      hide *;
      var i := 0;
      RollStep(was, i, cols);
      while i < turns
        invariant 0 <= i <= turns && Valid() && grid == RolledUp(was, i, cols)
      {
        RollStep(was, i, cols);
        RotateUp();
        FillBlank(rows - 1);
        i := i + 1;
      }
    }

    method RollDown(turns: nat)
      requires Valid() && 0 < rows
      modifies this, cells
      ensures Valid() && grid == RolledDown(old(grid), turns, cols)
    {
      ghost var was := grid;
      assert |was| == rows;
      hide *;
      var i := 0;
      RollStep(was, i, cols);
      while i < turns
        invariant 0 <= i <= turns && Valid() && grid == RolledDown(was, i, cols)
      {
        RollStep(was, i, cols);
        RotateDown();
        FillBlank(0);
        i := i + 1;
      }
    }

    method ClearCells()
      requires Valid() && 0 < rows
      modifies this, cells
      ensures Valid() && grid == AllBlank(rows, cols)
    {
      forall r, c | 0 <= r < rows && 0 <= c < cols {
        cells[r, c] := BLANK_SCAN;
      }
      head := 0;
      grid := AllBlank(rows, cols);
    }

    method RotateUp()
      requires Valid() && 0 < rows
      modifies `head, `grid
      ensures Valid() && grid == RotatedUp(old(grid))
    {
      WrapOnce(head + 1, rows);
      head := (head + 1) % rows;
      grid := RotatedUp(grid);
      forall r | 0 <= r < rows ensures Physical(head, r, rows) == Physical(old(head), if r + 1 < rows then r + 1 else 0, rows) {
      }
    }

    method RotateDown()
      requires Valid() && 0 < rows
      modifies `head, `grid
      ensures Valid() && grid == RotatedDown(old(grid))
    {
      WrapOnce(head + rows - 1, rows);
      head := (head + rows - 1) % rows;
      grid := RotatedDown(grid);
      forall r | 0 <= r < rows ensures Physical(head, r, rows) == Physical(old(head), if r > 0 then r - 1 else rows - 1, rows) {
      }
    }

    // -------------------------------------------------------------- writes

    /** Stores one cell and records the change. */
    method Record(row: nat, column: nat, cell: ScanCell, touched: Evidence, ghost origin: ScanGrid) returns (after: Evidence)
      requires Valid() && row < rows && column < cols
      requires EvidenceExact(touched, origin, grid)
      modifies `grid, cells
      ensures Valid() && grid == old(grid)[row := old(grid)[row][column := cell]]
      ensures EvidenceExact(after, origin, grid)
      ensures forall p :: p in after <==> p in touched || p == (row, column)
    {
      ghost var was := grid;
      var at := Physical(head, row, rows);
      after := Recorded(touched, row, column, cells[at, column], cell);
      assert cells[at, column] == was[row][column];
      RecordExact(touched, origin, was, row, column, cell);
      cells[at, column] := cell;
      grid := was[row := was[row][column := cell]];
    }

    method ClearOccupantAt(row: nat, column: nat, touched: Evidence, ghost origin: ScanGrid) returns (after: Evidence)
      requires Valid() && row < rows && column < cols
      requires EvidenceExact(touched, origin, grid)
      modifies `grid, cells
      ensures Valid() && grid == old(grid)[row := ClearOccupant(old(grid)[row], column)]
      ensures EvidenceExact(after, origin, grid)
      ensures NarrowRow(old(grid)[row]) ==> forall p :: p in after <==> p in touched || p == (row, column)
    {
      hide EvidenceExact;
      ghost var was := grid;
      var at := Physical(head, row, rows);
      var anchor := column;
      assert forall c :: 0 <= c < cols ==> cells[at, c] == was[row][c];
      if cells[at, column].width == 0 && column > 0 && cells[at, column - 1].width == 2 {
        anchor := column - 1;
      }
      var blank := ScanCell([], cells[at, anchor].styleId, 1);
      var width := cells[at, anchor].width;
      after := Record(row, anchor, blank, touched, origin);
      if width == 2 && anchor + 1 < cols {
        after := Record(row, anchor + 1, blank, after, origin);
      }
      assert grid[row] == ClearOccupant(was[row], column);
      assert grid == was[row := ClearOccupant(was[row], column)];
    }

    /** The cache's store of one cell: exactly the write's meaning on the grid. */
    method Store(w: Write, touched: Evidence, ghost origin: ScanGrid) returns (ok: bool, after: Evidence)
      requires Valid() && 0 <= w.row < rows && 0 <= w.column && (w.width == 1 || w.width == 2)
      requires EvidenceExact(touched, origin, grid)
      modifies `grid, cells
      ensures Valid() && EvidenceExact(after, origin, grid)
      ensures ok <==> Paint(old(grid), w).Some?
      ensures ok ==> grid == Paint(old(grid), w).value
      ensures ok && w.width == 1 && Narrow(old(grid)) ==> forall p :: p in after <==> p in touched || p == (w.row, w.column)
    {
      hide EvidenceExact, ClearOccupant, Narrow, NarrowRow, NormalizedText;
      ghost var was := grid;
      NarrowAt(was, w.row);
      after := touched;
      if w.column + w.width > cols {
        return false, after;
      }
      ok := true;
      after := ClearOccupantAt(w.row, w.column, after, origin);
      if w.width == 2 {
        after := ClearOccupantAt(w.row, w.column + 1, after, origin);
      }
      after := Record(w.row, w.column, ScanCell(NormalizedText(w.text, w.width), w.styleId, w.width), after, origin);
      if w.width == 2 {
        after := Record(w.row, w.column + 1, ScanCell([], w.styleId, 0), after, origin);
      }
      assert grid == Paint(was, w).value;
    }

    /** `applySpanToCache`: paints a span cell by cell, or stops at the first
        cell that would leave the pane. */
    method ApplySpan(span: Span, touched: Evidence, ghost origin: ScanGrid) returns (ok: bool, after: Evidence)
      requires Valid() && (span.width == 1 || span.width == 2)
      requires EvidenceExact(touched, origin, grid)
      modifies `grid, cells
      ensures Valid() && EvidenceExact(after, origin, grid)
      ensures ok <==> 0 <= span.row < rows && 0 <= span.column < cols && PaintAll(old(grid), CachedWrites(span)).Some?
      ensures ok ==> grid == PaintAll(old(grid), CachedWrites(span)).value
      ensures ok && span.width == 1 && Narrow(old(grid)) ==> Narrow(grid) && forall p :: p in after <==> p in touched || p in WrittenKeys(CachedWrites(span))
    {
      hide EvidenceExact, PaintAll, Paint, Narrow, WrittenKeys;
      ghost var was := grid;
      ghost var writes := CachedWrites(span);
      after := touched;
      if span.row < 0 || span.row >= rows || span.column < 0 || span.column >= cols {
        return false, after;
      }
      NothingYet(was, writes);
      ghost var narrow := span.width == 1 && Narrow(was);
      var column := span.column;
      var k := 0;
      if span.ClusterSpan? {
        NextWrite(was, writes, 0);
        WrittenNext(writes, 0);
        StaysNarrow(was, writes[0]);
        ok, after := Store(Write(span.row, span.column, span.text, span.width, span.styleId), touched, origin);
        assert writes[..1] == writes;
      } else if span.TextSpan? {
        RuneCount(span.row, span.column, span.text, span.width, span.styleId);
        while k < |span.text|
          invariant 0 <= k <= |span.text| == |writes| && column == span.column + Columns(k, span.width)
          invariant Valid() && EvidenceExact(after, origin, grid)
          invariant PaintAll(was, writes[..k]) == Some(grid)
          invariant narrow ==> Narrow(grid) && forall p :: p in after <==> p in touched || p in WrittenKeys(writes[..k])
        {
          NextWrite(was, writes, k);
          WrittenNext(writes, k);
          StaysNarrow(grid, writes[k]);
          RuneWriteAt(span.row, span.column, span.text, span.width, span.styleId, k);
          ok, after := Store(Write(span.row, column, [span.text[k]], span.width, span.styleId), after, origin);
          if !ok {
            PrefixRefused(was, writes, k + 1);
            return;
          }
          column := column + span.width;
          k := k + 1;
        }
        ok := true;
        assert writes[..k] == writes;
      } else {
        var columns := 0;
        FillTurns(0, span.columns, span.width);
        while columns < span.columns
          invariant 0 <= k <= |writes| == FillCount(span.columns, span.width) && columns == Columns(k, span.width)
          invariant columns < span.columns <==> k < FillCount(span.columns, span.width)
          invariant column == span.column + columns
          invariant Valid() && EvidenceExact(after, origin, grid)
          invariant PaintAll(was, writes[..k]) == Some(grid)
          invariant narrow ==> Narrow(grid) && forall p :: p in after <==> p in touched || p in WrittenKeys(writes[..k])
          decreases |writes| - k
        {
          NextWrite(was, writes, k);
          WrittenNext(writes, k);
          StaysNarrow(grid, writes[k]);
          FillWriteAt(span.row, span.column, FillCount(span.columns, span.width), FillText(span.fillRune), span.width, span.styleId, k);
          ok, after := Store(Write(span.row, column, FillText(span.fillRune), span.width, span.styleId), after, origin);
          if !ok {
            PrefixRefused(was, writes, k + 1);
            return;
          }
          column := column + span.width;
          columns := columns + span.width;
          k := k + 1;
          FillTurns(k, span.columns, span.width);
        }
        ok := true;
        assert writes[..k] == writes;
      }
    }

    static lemma {:induction false} NothingYet(grid: ScanGrid, writes: seq<Write>)
      ensures PaintAll(grid, writes[..0]) == Some(grid) && WrittenKeys(writes[..0]) == {}
    {
    }

    static lemma {:induction false} StaysNarrow(grid: ScanGrid, w: Write)
      ensures Narrow(grid) && w.width == 1 && Paint(grid, w).Some? ==> Narrow(Paint(grid, w).value)
    {
      if Narrow(grid) && w.width == 1 && Paint(grid, w).Some? {
        NarrowPaint(grid, w);
      }
    }

    static lemma {:induction false} RuneCount(row: int, column: int, text: Text, width: nat, id: nat)
      ensures |RuneWrites(row, column, text, width, id)| == |text|
    {
      if text != [] {
        RuneWriteAt(row, column, text, width, id, 0);
      }
    }

    static lemma {:induction false} FillTurns(k: nat, columns: nat, width: nat)
      requires width == 1 || width == 2
      ensures Columns(k, width) < columns <==> k < FillCount(columns, width)
    {
      ColumnsOfFill(k, width);
    }

    /** A frame's spans in order, up to the first that leaves the pane; the evidence
        tells exactly which cells changed, also then. */
    method ApplySpans(spans: seq<Span>) returns (ok: bool, touched: Evidence)
      requires Valid() && forall i :: 0 <= i < |spans| ==> spans[i].width == 1 || spans[i].width == 2
      modifies `grid, cells
      ensures Valid() && EvidenceExact(touched, old(grid), grid)
      ensures ok <==> ApplyAll(old(grid), rows, cols, spans).Some?
      ensures ok ==> grid == ApplyAll(old(grid), rows, cols, spans).value
      ensures ok && WholeSpans(spans) && Narrow(old(grid)) && (forall i :: 0 <= i < |spans| ==> spans[i].width == 1) ==>
                forall p :: p in touched <==> p in WrittenKeys(SpansWrites(spans))
    {
      hide EvidenceExact, PaintAll, Narrow, WrittenKeys, SpansWrites, SpanWrites, CachedWrites, WholeSpan, ApplyAll;
      ghost var was := grid;
      ghost var narrow := Narrow(was) && WholeSpans(spans) && forall k :: 0 <= k < |spans| ==> spans[k].width == 1;
      touched := map[];
      NoEvidence(was);
      NoSpans(was, rows, cols, spans);
      var i := 0;
      while i < |spans|
        invariant 0 <= i <= |spans| && Valid() && EvidenceExact(touched, was, grid)
        invariant ApplyAll(was, rows, cols, spans[..i]) == Some(grid)
        invariant narrow ==> Narrow(grid) && forall p :: p in touched <==> p in WrittenKeys(SpansWrites(spans[..i]))
      {
        NextSpan(was, rows, cols, spans, i);
        if narrow {
          SpanKeys(spans, i);
        }
        ok, touched := ApplySpan(spans[i], touched, was);
        if !ok {
          SpansRefused(was, rows, cols, spans, i + 1);
          return;
        }
        i := i + 1;
      }
      assert spans[..i] == spans;
      ok := true;
    }

    static lemma {:induction false} NoEvidence(grid: ScanGrid)
      ensures EvidenceExact(map[], grid, grid)
    {
    }

    static lemma {:induction false} NoSpans(grid: ScanGrid, rows: nat, cols: nat, spans: seq<Span>)
      ensures ApplyAll(grid, rows, cols, spans[..0]) == Some(grid) && WrittenKeys(SpansWrites(spans[..0])) == {}
    {
    }

    static lemma {:induction false} SpanKeys(spans: seq<Span>, i: nat)
      requires i < |spans| && WholeSpan(spans[i])
      ensures WrittenKeys(SpansWrites(spans[..i + 1])) == WrittenKeys(SpansWrites(spans[..i])) + WrittenKeys(CachedWrites(spans[i]))
    {
      hide WrittenKeys;
      assert spans[..i + 1] == spans[..i] + [spans[i]];
      SpansWritesAppend(spans[..i], spans[i]);
      WrittenAppend(SpansWrites(spans[..i]), SpanWrites(spans[i]));
      CachedKeys(spans[i]);
    }

    static lemma {:induction false} NextSpan(was: ScanGrid, rows: nat, cols: nat, spans: seq<Span>, i: nat)
      requires i < |spans|
      ensures ApplyAll(was, rows, cols, spans[..i + 1]) ==
              match ApplyAll(was, rows, cols, spans[..i]) { case None => None case Some(mid) => Applied(mid, rows, cols, spans[i]) }
    {
      assert spans[..i + 1][..i] == spans[..i];
    }

    static lemma {:induction false} SpansRefused(was: ScanGrid, rows: nat, cols: nat, spans: seq<Span>, k: nat)
      requires k <= |spans| && ApplyAll(was, rows, cols, spans[..k]).None?
      ensures ApplyAll(was, rows, cols, spans).None?
      decreases |spans| - k
    {
      if k < |spans| {
        NextSpan(was, rows, cols, spans, k);
        SpansRefused(was, rows, cols, spans, k + 1);
      } else {
        assert spans[..k] == spans;
      }
    }
  }
}
