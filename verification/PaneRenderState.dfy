/** `panePublicationState`: the renderer's fields and the methods that change them,
    each proved against its event in `PublicationRun`. */
module PaneRenderState {
  import opened Display
  import opened Damage
  import opened Publication
  import opened Painting
  import opened SemanticCells
  import opened RowDiff
  import opened PublicationBuffer
  import opened PublicationRun

  // --------------------------------------------------- one row of a publication

  /** The runs added for one row, and what they leave out. */
  ghost predicate RowChanges(added: seq<Run>, row: nat, current: seq<Cell>, shown: seq<Cell>, keyframe: bool, known: bool) {
    && OrderedRuns(added) && |current| == |shown|
    && (forall i :: 0 <= i < |added| ==> FitsRow(added[i], row, current, shown))
    && (keyframe ==> Covered(added, row, 0) && forall i :: 0 <= i < |added| ==> added[i].column == 0 && |added[i].cells| == |current|)
    && (!keyframe ==> forall c :: 0 <= c < |current| && !Covered(added, row, c) ==> current[c] == shown[c])
    && (!keyframe && known ==> forall c :: 0 <= c < |current| && Covered(added, row, c) ==> NeedsPaint(current, shown, c))
  }

  /** One row of `prepare`: compare, close under pairs, gather runs. */
  method DiffRow(buffer: Buffer, row: nat, current: seq<Cell>, previous: PreviousRow, keyframe: bool, span: DirtySpan,
                 styles: seq<Style>, clusters: Text, ghost shown: seq<Cell>)
    returns (ok: bool, ghost added: seq<Run>)
    requires buffer.Valid() && 0 < |current| == |shown| && ValidRow(current) && CanonicalCells(current)
    requires PreviousShows(previous, styles, clusters, shown)
    requires !keyframe ==> forall c :: 0 <= c < |current| && !InSpan(span, c) ==> current[c] == shown[c]
    modifies buffer
    ensures buffer.Valid() && (!ok ==> buffer.NoRoomFor(current))
    ensures ok ==> buffer.Content() == old(buffer.Content()) + added && RowChanges(added, row, current, shown, keyframe, previous.Some?)
  {
    hide PreviousShows, ValidRow, CanonicalCells, Contents, Holds, CutsNothing, CannotStore;
    var from, to := 0, |current|;
    if !keyframe {
      var start := if span.start < 0 then 0 else span.start;
      var end := if span.end > |current| then |current| else span.end;
      if end <= start {
        added := [];
        NoChanges(row, current, shown, span, previous.Some?);
        assert buffer.Content() == old(buffer.Content()) + added;
        return true, added;
      }
      from, to := Widen(current, previous, start, end, styles, clusters, shown);
    } else {
      WholeRow(current, previous, styles, clusters, shown);
    }
    var changes := Compare(current, previous, keyframe, from, to, styles, clusters, shown);
    var diff, first, last := ClosePairs(current, previous, changes, from, to, styles, clusters, shown);
    assert CutsNothing(current, from, to) && from <= to by { CutsOrder(current, from, to); }
    ok, added := buffer.AppendRow(row, current, shown, diff, first, last);
    if ok {
      RowChanged(added, row, current, shown, keyframe, previous.Some?, span, from, to, changes, diff);
    }
  }

  lemma {:induction false} CutsOrder(row: seq<Cell>, from: nat, to: nat)
    requires CutsNothing(row, from, to)
    ensures from < to <= |row|
  {
  }

  lemma {:induction false} NoChanges(row: nat, current: seq<Cell>, shown: seq<Cell>, span: DirtySpan, known: bool)
    requires |current| == |shown| && (span.end <= span.start || span.end <= 0 || |current| <= span.start)
    requires forall c :: 0 <= c < |current| && !InSpan(span, c) ==> current[c] == shown[c]
    ensures RowChanges([], row, current, shown, false, known)
  {
    assert forall c :: 0 <= c < |current| ==> !InSpan(span, c);
  }

  lemma {:induction false} WholeRow(current: seq<Cell>, previous: PreviousRow, styles: seq<Style>, clusters: Text, shown: seq<Cell>)
    requires ValidRow(current) && PreviousShows(previous, styles, clusters, shown) && 0 < |current| == |shown|
    ensures CutsNothing(current, 0, |current|) && CutsNothing(shown, 0, |current|)
  {
    FirstColumn(current);
    FirstColumn(shown);
  }

  lemma {:induction false} RowChanged(added: seq<Run>, row: nat, current: seq<Cell>, shown: seq<Cell>, keyframe: bool, known: bool, span: DirtySpan,
                                      from: nat, to: nat, changes: seq<bool>, diff: seq<bool>)
    requires |current| == |shown| == |changes| && 0 < |current|
    requires RowRuns(added, row, current, shown, diff, |current|)
    requires from < to <= |current| && Marks(changes, |current|, from, to)
    requires Marks(diff, |current|, from, to) && MarkedMore(changes, diff) && OnlyPartners(current, changes, diff)
    requires forall c :: from <= c < to ==> (changes[c] <==> keyframe || !known || current[c] != shown[c])
    requires keyframe ==> from == 0 && to == |current|
    requires !keyframe ==> forall c :: InSpan(span, c) && 0 <= c < |current| ==> from <= c < to
    requires !keyframe ==> forall c :: 0 <= c < |current| && !InSpan(span, c) ==> current[c] == shown[c]
    ensures RowChanges(added, row, current, shown, keyframe, known)
  {
    hide FitsRow, OrderedRuns;
    if keyframe {
      assert forall c :: 0 <= c < |current| ==> diff[c];
      assert diff[0];
    } else {
      forall c | 0 <= c < |current| && !Covered(added, row, c) ensures current[c] == shown[c] {
        assert !diff[c];
      }
      forall c | known && 0 <= c < |current| && Covered(added, row, c) ensures NeedsPaint(current, shown, c) {
        assert diff[c];
        if !changes[c] {
          assert PartnerChanged(current, changes, c);
        }
      }
    }
  }

  // ----------------------------------------------------- the shadow snapshot

  /** The renderer's copy of what a client shows, in its own tables. */
  datatype Viewport = Viewport(
    cols: nat, rows: nat, epoch: nat, version: nat, valid: bool,
    cells: seq<seq<SemanticCell>>, styles: seq<Style>, clusters: Text, cursor: CursorUpdate)

  const NO_VIEWPORT := Viewport(0, 0, 0, 0, false, [], [], [], CursorUpdate(Cursor(0, 0), false))
  const NO_CELL := SemanticCell(SBlank, 0, 0)

  ghost predicate CannotStoreSome(styles: seq<Style>, clusters: Text, grid: Grid) {
    exists r, c :: 0 <= r < |grid| && 0 <= c < |grid[r]| && CannotStore(styles, clusters, grid[r][c])
  }

  function ViewportGrid(v: Viewport): (grid: Grid)
    ensures |grid| == |v.cells|
  {
    seq(|v.cells|, r requires 0 <= r < |v.cells| => ResolveAll(v.cells[r], v.styles, v.clusters))
  }

  /** Cells whose meaning is known, and what it is. */
  type Known = seq<seq<Option<Cell>>>

  ghost predicate Knows(cells: seq<seq<SemanticCell>>, styles: seq<Style>, clusters: Text, known: Known) {
    && |cells| == |known|
    && (forall r :: 0 <= r < |cells| ==> |cells[r]| == |known[r]|)
    && (forall r, c :: 0 <= r < |cells| && 0 <= c < |cells[r]| && known[r][c].Some? ==>
          Denotes(cells[r][c], styles, clusters, known[r][c].value))
  }

  function AllKnown(grid: Grid): (known: Known)
    ensures |known| == |grid|
    ensures forall r :: 0 <= r < |grid| ==> |known[r]| == |grid[r]|
    ensures forall r, c :: 0 <= r < |grid| && 0 <= c < |grid[r]| ==> known[r][c] == Some(grid[r][c])
  {
    seq(|grid|, r requires 0 <= r < |grid| => seq(|grid[r]|, c requires 0 <= c < |grid[r]| => Some(grid[r][c])))
  }

  /** A valid viewport has every cell in its tables. */
  ghost predicate ViewportOk(v: Viewport) {
    v.valid ==> Sized(v.cells, v.rows, v.cols) && Knows(v.cells, v.styles, v.clusters, AllKnown(ViewportGrid(v)))
  }

  lemma {:induction false} StoreKnown(cells: seq<seq<SemanticCell>>, styles: seq<Style>, clusters: Text, known: Known,
                                      r: nat, c: nat, cell: SemanticCell, moreStyles: seq<Style>, moreClusters: Text, meaning: Cell)
    requires Knows(cells, styles, clusters, known) && Grown(styles, clusters, moreStyles, moreClusters)
    requires r < |cells| && c < |cells[r]| && Denotes(cell, moreStyles, moreClusters, meaning)
    ensures Knows(cells[r := cells[r][c := cell]], moreStyles, moreClusters, known[r := known[r][c := Some(meaning)]])
  {
    hide Denotes, Grown;
    var next := cells[r := cells[r][c := cell]];
    var knew: Known := known[r := known[r][c := Some(meaning)]];
    forall i, j | 0 <= i < |next| && 0 <= j < |next[i]| && knew[i][j].Some?
      ensures Denotes(next[i][j], moreStyles, moreClusters, knew[i][j].value)
    {
      if i != r || j != c {
        assert next[i][j] == cells[i][j] && knew[i][j] == known[i][j];
        GrownDenotes(cells[i][j], styles, clusters, moreStyles, moreClusters, known[i][j].value);
      }
    }
  }

  lemma {:induction false} KnownGrid(v: Viewport, grid: Grid)
    requires Knows(v.cells, v.styles, v.clusters, AllKnown(grid)) && Sized(grid, |grid|, v.cols) && |grid| == v.rows
    ensures ViewportGrid(v) == grid && ViewportOk(v)
  {
    assert |v.cells| == |grid|;
    forall r | 0 <= r < |grid| ensures ViewportGrid(v)[r] == grid[r] {
      forall c | 0 <= c < |grid[r]| ensures ResolveAll(v.cells[r], v.styles, v.clusters)[c] == grid[r][c] {
        assert AllKnown(grid)[r][c] == Some(grid[r][c]);
      }
    }
  }

  /** The first `row` rows and `column` cells of the next one have been copied. */
  function Copied(over: Grid, row: nat, column: nat): (known: Known)
    ensures |known| == |over|
    ensures forall r :: 0 <= r < |over| ==> |known[r]| == |over[r]|
    ensures forall r, c :: 0 <= r < |over| && 0 <= c < |over[r]| ==>
              known[r][c] == if r < row || (r == row && c < column) then Some(over[r][c]) else None
  {
    seq(|over|, r requires 0 <= r < |over| =>
      seq(|over[r]|, c requires 0 <= c < |over[r]| => if r < row || (r == row && c < column) then Some(over[r][c]) else None))
  }

  lemma {:induction false} CopiedStep(over: Grid, row: nat, column: nat)
    requires row < |over| && column < |over[row]|
    ensures Copied(over, row, column + 1) == Copied(over, row, column)[row := Copied(over, row, column)[row][column := Some(over[row][column])]]
  {
    var next := Copied(over, row, column + 1);
    var stored := Copied(over, row, column)[row := Copied(over, row, column)[row][column := Some(over[row][column])]];
    forall r | 0 <= r < |over| ensures next[r] == stored[r] {
      assert |next[r]| == |stored[r]|;
    }
  }

  lemma {:induction false} CopiedRow(over: Grid, row: nat, cols: nat)
    requires row < |over| && Sized(over, |over|, cols)
    ensures Copied(over, row, cols) == Copied(over, row + 1, 0)
  {
    forall r | 0 <= r < |over| ensures Copied(over, row, cols)[r] == Copied(over, row + 1, 0)[r] {
      assert |Copied(over, row, cols)[r]| == |Copied(over, row + 1, 0)[r]|;
    }
  }

  lemma {:induction false} CopiedAll(over: Grid)
    ensures Copied(over, |over|, 0) == AllKnown(over)
  {
    forall r | 0 <= r < |over| ensures Copied(over, |over|, 0)[r] == AllKnown(over)[r] {
    }
  }

  /** `reset`: a grid of zero cells. */
  function NoCells(rows: nat, cols: nat): (cells: seq<seq<SemanticCell>>)
    ensures Sized(cells, rows, cols)
  {
    seq(rows, _ => seq(cols, _ => NO_CELL))
  }

  lemma {:induction false} NothingCopied(over: Grid, rows: nat, cols: nat, styles: seq<Style>)
    requires Sized(over, rows, cols)
    ensures Knows(NoCells(rows, cols), styles, [], Copied(over, 0, 0))
  {
  }

  /** The previous snapshot moved by the scroll, blanks on the exposed rows. */
  method CopyScrolled(previous: Viewport, p: Publication, ghost base: Shot, ghost over: Grid)
    returns (ok: bool, next: Viewport)
    requires previous.valid && ViewportOk(previous) && ViewportGrid(previous) == base.grid && GridOk(base.grid, p.rows, p.cols)
    requires p.scroll.Some? ==> LegalScroll(p.scroll.value, p.rows)
    requires over == Scrolled(base.grid, p.scroll, DEFAULT_BLANK, p.cols) && Sized(over, p.rows, p.cols)
    ensures next.cols == p.cols && next.rows == p.rows
    ensures ok ==> Knows(next.cells, next.styles, next.clusters, AllKnown(over))
    ensures !ok ==> CannotStoreSome(next.styles, next.clusters, over)
  {
    hide Knows, Copied, AllKnown, Denotes, GridOk, Scrolled, ViewportOk, ViewportGrid, CannotStore, CannotStoreSome, NoCells;
    next := Viewport(p.cols, p.rows, 0, 0, false, NoCells(p.rows, p.cols), [], [], previous.cursor);
    var id, table := InternStyle([], DEFAULT_STYLE);
    var blank := SemanticCell(SBlank, 0, 1);
    if id.None? {
      return false, next;
    }
    blank := blank.(style := id.value);
    next := next.(styles := table);
    BlankMeans(blank, table);
    NothingCopied(over, p.rows, p.cols, table);
    var row := 0;
    while row < p.rows
      invariant 0 <= row <= p.rows && next.cols == p.cols && next.rows == p.rows
      invariant Knows(next.cells, next.styles, next.clusters, Copied(over, row, 0))
      invariant Denotes(blank, next.styles, next.clusters, DEFAULT_BLANK)
    {
      var column := 0;
      var source := if p.scroll.Some? then ScrollSource(p.scroll.value, row) else Some(row);
      while column < p.cols
        invariant 0 <= column <= p.cols && next.cols == p.cols && next.rows == p.rows
        invariant Knows(next.cells, next.styles, next.clusters, Copied(over, row, column))
        invariant Denotes(blank, next.styles, next.clusters, DEFAULT_BLANK)
      {
        SourceMeans(previous, base, p, over, row, column);
        CopiedSize(next.cells, next.styles, next.clusters, over, row, column);
        CopiedStep(over, row, column);
        if source.None? {
          StoreKnown(next.cells, next.styles, next.clusters, Copied(over, row, column), row, column, blank,
                     next.styles, next.clusters, over[row][column]);
          next := next.(cells := next.cells[row := next.cells[row][column := blank]]);
        } else {
          var copied, styles, clusters;
          ok, copied, styles, clusters := TranslateCell(next.styles, next.clusters, previous.cells[source.value][column],
                                                        previous.styles, previous.clusters, over[row][column]);
          if !ok {
            Cannot(next.styles, next.clusters, over, row, column);
            return;
          }
          StoreKnown(next.cells, next.styles, next.clusters, Copied(over, row, column), row, column, copied,
                     styles, clusters, over[row][column]);
          GrownDenotes(blank, next.styles, next.clusters, styles, clusters, DEFAULT_BLANK);
          next := next.(cells := next.cells[row := next.cells[row][column := copied]], styles := styles, clusters := clusters);
        }
        column := column + 1;
      }
      CopiedRow(over, row, p.cols);
      row := row + 1;
    }
    CopiedAll(over);
    ok := true;
  }

  lemma {:induction false} BlankMeans(blank: SemanticCell, styles: seq<Style>)
    requires blank.glyph.SBlank? && blank.width == 1 && blank.style < |styles| && styles[blank.style] == CanonicalStyle(DEFAULT_STYLE)
    ensures Denotes(blank, styles, [], DEFAULT_BLANK)
  {
  }

  lemma {:induction false} CopiedSize(cells: seq<seq<SemanticCell>>, styles: seq<Style>, clusters: Text, over: Grid, row: nat, column: nat)
    requires Knows(cells, styles, clusters, Copied(over, row, column))
    ensures |cells| == |over| && forall r :: 0 <= r < |cells| ==> |cells[r]| == |over[r]|
  {
  }

  lemma {:induction false} Cannot(styles: seq<Style>, clusters: Text, grid: Grid, r: nat, c: nat)
    requires r < |grid| && c < |grid[r]|
    ensures StylesFull(styles, grid[r][c].style) ==> CannotStoreSome(styles, clusters, grid)
    ensures grid[r][c].glyph.Cluster? && TextBytes(clusters) + TextBytes(grid[r][c].glyph.text) > MAX_ARENA_BYTES ==>
              CannotStoreSome(styles, clusters, grid)
  {
    hide TextBytes;
    assert CannotStore(styles, clusters, grid[r][c]) ==> CannotStoreSome(styles, clusters, grid);
  }

  /** The cell a scrolled row is copied from means what the painted-over grid shows. */
  lemma {:induction false} SourceMeans(previous: Viewport, base: Shot, p: Publication, over: Grid, row: nat, column: nat)
    requires previous.valid && ViewportOk(previous) && ViewportGrid(previous) == base.grid && GridOk(base.grid, p.rows, p.cols)
    requires p.scroll.Some? ==> LegalScroll(p.scroll.value, p.rows)
    requires over == Scrolled(base.grid, p.scroll, DEFAULT_BLANK, p.cols) && row < p.rows && column < p.cols && Sized(over, p.rows, p.cols)
    ensures var source := if p.scroll.Some? then ScrollSource(p.scroll.value, row) else Some(row);
            && Canonical(over[row][column].style)
            && (source.None? ==> over[row][column] == DEFAULT_BLANK)
            && (source.Some? ==>
                  && 0 <= source.value < |previous.cells| && column < |previous.cells[source.value]|
                  && Denotes(previous.cells[source.value][column], previous.styles, previous.clusters, over[row][column]))
  {
    hide Denotes;
    var source := if p.scroll.Some? then ScrollSource(p.scroll.value, row) else Some(row);
    if source.Some? {
      assert over[row] == base.grid[source.value];
      assert AllKnown(base.grid)[source.value][column] == Some(base.grid[source.value][column]);
      assert CanonicalCells(base.grid[source.value]);
    } else {
      assert over[row] == BlankRow(DEFAULT_BLANK, p.cols);
    }
  }

  // ------------------------------------------------------ runs over the copy

  /** Cells painted by the runs so far show the new grid, the others what they did. */
  ghost predicate Overlaid(known: Known, start: Known, grid: Grid, runs: seq<Run>, count: nat, offset: nat) {
    && |known| == |start| == |grid| && count <= |runs|
    && (forall r :: 0 <= r < |grid| ==> |known[r]| == |start[r]| == |grid[r]|)
    && (forall r, c :: 0 <= r < |grid| && 0 <= c < |grid[r]| ==>
          known[r][c] == if PaintedSoFar(runs, count, offset, r, c) then Some(grid[r][c]) else start[r][c])
  }

  predicate PaintedSoFar(runs: seq<Run>, count: nat, offset: nat, r: int, c: int)
    requires count <= |runs|
  {
    || Covered(runs[..count], r, c)
    || (count < |runs| && r == runs[count].row && runs[count].column <= c < runs[count].column + offset)
  }

  lemma {:induction false} OverlayStep(known: Known, start: Known, grid: Grid, runs: seq<Run>, count: nat, offset: nat)
    requires Overlaid(known, start, grid, runs, count, offset) && count < |runs|
    requires RunShowsGrid(runs[count], grid) && offset < |runs[count].cells|
    ensures var r, c := runs[count].row, runs[count].column + offset;
            Overlaid(known[r := known[r][c := Some(grid[r][c])]], start, grid, runs, count, offset + 1)
  {
    hide Covered;
  }

  lemma {:induction false} OverlayRun(known: Known, start: Known, grid: Grid, runs: seq<Run>, count: nat)
    requires count < |runs| && Overlaid(known, start, grid, runs, count, |runs[count].cells|)
    ensures Overlaid(known, start, grid, runs, count + 1, 0)
  {
    hide Covered;
    assert runs[..count + 1] == runs[..count] + [runs[count]];
    forall r, c | 0 <= r < |grid| && 0 <= c < |grid[r]|
      ensures PaintedSoFar(runs, count + 1, 0, r, c) <==> PaintedSoFar(runs, count, |runs[count].cells|, r, c)
    {
      Buffer.CoveredOneMore(runs[..count], runs[count], r, c);
    }
  }

  /** A run's stored cell means the grid's cell. */
  lemma {:induction false} CellOfRun(p: Publication, grid: Grid, i: nat, offset: nat)
    requires i < |p.runs| && RunInRange(p, p.runs[i]) && offset < p.runs[i].columns
    requires forall k :: 0 <= k < |p.cells| ==> InTables(p.cells[k], p.styles, p.clusters)
    requires RunShowsGrid(SemanticRun(p, p.runs[i]), grid)
    ensures var r, c := p.runs[i].row, p.runs[i].column + offset;
            && r < |grid| && c < |grid[r]|
            && Denotes(p.cells[p.runs[i].cellStart + offset], p.styles, p.clusters, grid[r][c])
  {
    var run := p.runs[i];
    var cell := p.cells[run.cellStart + offset];
    assert p.cells[run.cellStart..run.cellStart + run.columns][offset] == cell;
    assert RunCells(p, run)[offset] == Resolve(cell, p.styles, p.clusters);
    assert grid[run.row][run.column..run.column + run.columns][offset] == grid[run.row][run.column + offset];
  }

  /** The runs of a publication, painted over what is known so far. */
  method OverlayRuns(p: Publication, before: Viewport, ghost start: Known, ghost grid: Grid) returns (ok: bool, next: Viewport)
    requires Knows(before.cells, before.styles, before.clusters, start) && GridOk(grid, p.rows, p.cols)
    requires |start| == |grid| && forall r :: 0 <= r < |grid| ==> |start[r]| == |grid[r]|
    requires forall i :: 0 <= i < |p.runs| ==> RunInRange(p, p.runs[i]) && RunShowsGrid(SemanticRun(p, p.runs[i]), grid)
    requires forall k :: 0 <= k < |p.cells| ==> InTables(p.cells[k], p.styles, p.clusters)
    ensures next.cols == before.cols && next.rows == before.rows && next.cursor == before.cursor
    ensures ok ==> exists known: Known :: Knows(next.cells, next.styles, next.clusters, known) && Overlaid(known, start, grid, SemanticRuns(p), |p.runs|, 0)
    ensures !ok ==> CannotStoreSome(next.styles, next.clusters, grid)
  {
    hide Knows, Overlaid, Denotes, GridOk, RunShowsGrid, CannotStore, CannotStoreSome, InTables, RunCells;
    ghost var runs := SemanticRuns(p);
    ghost var known: Known := start;
    next := before;
    NothingOverlaid(start, grid, runs);
    var i := 0;
    while i < |p.runs|
      invariant 0 <= i <= |p.runs| == |runs|
      invariant next.cols == before.cols && next.rows == before.rows && next.cursor == before.cursor
      invariant Knows(next.cells, next.styles, next.clusters, known) && Overlaid(known, start, grid, runs, i, 0)
    {
      var run := p.runs[i];
      assert runs[i] == SemanticRun(p, run);
      var offset := 0;
      while offset < run.columns
        invariant 0 <= offset <= run.columns == |runs[i].cells|
        invariant next.cols == before.cols && next.rows == before.rows && next.cursor == before.cursor
        invariant Knows(next.cells, next.styles, next.clusters, known) && Overlaid(known, start, grid, runs, i, offset)
      {
        CellOfRun(p, grid, i, offset);
        var r, c := run.row, run.column + offset;
        CanonicalIn(p, grid, r, c);
        var copied, styles, clusters;
        ok, copied, styles, clusters := TranslateCell(next.styles, next.clusters, p.cells[run.cellStart + offset],
                                                      p.styles, p.clusters, grid[r][c]);
        if !ok {
          Cannot(next.styles, next.clusters, grid, r, c);
          return;
        }
        OverlaidSize(next, known, start, grid, runs, i, offset);
        StoreKnown(next.cells, next.styles, next.clusters, known, r, c, copied, styles, clusters, grid[r][c]);
        OverlayStep(known, start, grid, runs, i, offset);
        next := next.(cells := next.cells[r := next.cells[r][c := copied]], styles := styles, clusters := clusters);
        known := known[r := known[r][c := Some(grid[r][c])]];
        offset := offset + 1;
      }
      OverlayRun(known, start, grid, runs, i);
      i := i + 1;
    }
    ok := true;
  }

  lemma {:induction false} NothingOverlaid(start: Known, grid: Grid, runs: seq<Run>)
    requires |start| == |grid| && forall r :: 0 <= r < |grid| ==> |start[r]| == |grid[r]|
    ensures Overlaid(start, start, grid, runs, 0, 0)
  {
  }

  lemma {:induction false} OverlaidSize(v: Viewport, known: Known, start: Known, grid: Grid, runs: seq<Run>, count: nat, offset: nat)
    requires Knows(v.cells, v.styles, v.clusters, known) && Overlaid(known, start, grid, runs, count, offset)
    ensures |v.cells| == |known| == |grid| && forall r :: 0 <= r < |grid| ==> |v.cells[r]| == |known[r]| == |grid[r]|
  {
  }

  lemma {:induction false} CanonicalIn(p: Publication, grid: Grid, r: nat, c: nat)
    requires GridOk(grid, p.rows, p.cols) && r < |grid| && c < |grid[r]|
    ensures Canonical(grid[r][c].style)
  {
    assert CanonicalCells(grid[r]);
  }

  /** Painted over the copy, the runs leave the new grid and nothing else. */
  lemma {:induction false} OverlayComplete(known: Known, start: Known, base: Option<Shot>, p: Publication, shot: Shot)
    requires PublicationOf(base, p, shot)
    requires Overlaid(known, start, shot.grid, SemanticRuns(p), |p.runs|, 0)
    requires p.kind.Delta? ==> start == AllKnown(PaintedOver(base, p))
    ensures known == AllKnown(shot.grid)
  {
    var runs, grid := SemanticRuns(p), shot.grid;
    assert runs[..|p.runs|] == runs;
    forall r | 0 <= r < |grid| ensures known[r] == AllKnown(grid)[r] {
      forall c | 0 <= c < |grid[r]| ensures known[r][c] == Some(grid[r][c]) {
        PaintedOrSame(base, p, shot, r, c);
        assert PaintedSoFar(runs, |runs|, 0, r, c) <==> Covered(runs, r, c);
        if !Covered(runs, r, c) {
          assert start[r][c] == Some(PaintedOver(base, p)[r][c]);
        }
      }
      assert known[r] == AllKnown(grid)[r];
    }
  }

  lemma {:induction false} PaintedOrSame(base: Option<Shot>, p: Publication, shot: Shot, r: nat, c: nat)
    requires PublicationOf(base, p, shot) && r < |shot.grid| && c < |shot.grid[r]|
    ensures p.kind.Keyframe? ==> Covered(SemanticRuns(p), r, c)
    ensures p.kind.Delta? && !Covered(SemanticRuns(p), r, c) ==>
              && c < |PaintedOver(base, p)[r]| == |shot.grid[r]|
              && shot.grid[r][c] == PaintedOver(base, p)[r][c]
  {
    var runs := SemanticRuns(p);
    assert |shot.grid[r]| == p.cols;
    if p.kind.Keyframe? {
      assert Covered(runs, r, 0);
      var i :| 0 <= i < |runs| && RunHas(runs[i], r, 0);
      assert RunHas(runs[i], r, c);
    } else {
      OverSize(base, p, r);
    }
  }

  lemma {:induction false} OverSize(base: Option<Shot>, p: Publication, r: nat)
    requires base.Some? && GridOk(base.value.grid, p.rows, p.cols) && r < p.rows
    requires p.scroll.Some? ==> LegalScroll(p.scroll.value, p.rows)
    ensures |PaintedOver(base, p)[r]| == p.cols
  {
    if p.scroll.Some? && ScrollSource(p.scroll.value, r).Some? {
      assert PaintedOver(base, p)[r] == base.value.grid[ScrollSource(p.scroll.value, r).value];
    }
  }

  /** `prepareNextSnapshot`: the snapshot a client will show once it has this
      publication, cell for cell the current grid. */
  method PrepareNextSnapshot(p: Publication, previous: Viewport, ghost base: Option<Shot>, ghost shot: Shot)
    returns (ok: bool, next: Viewport)
    requires PublicationOf(base, p, shot)
    requires forall i :: 0 <= i < |p.runs| ==> RunInRange(p, p.runs[i])
    requires forall k :: 0 <= k < |p.cells| ==> InTables(p.cells[k], p.styles, p.clusters)
    requires ViewportOk(previous) && (base.Some? <==> previous.valid)
    requires base.Some? ==> base.value == Shot(ViewportGrid(previous), previous.cursor)
    ensures next.cols == p.cols && next.rows == p.rows
    ensures ok ==> next.valid && ViewportOk(next) && Shot(ViewportGrid(next), next.cursor) == shot
    ensures ok ==> next.epoch == p.epoch && next.version == p.targetVersion
    ensures !ok ==> CannotStoreSome(next.styles, next.clusters, shot.grid)
                    || (p.kind.Delta? && CannotStoreSome(next.styles, next.clusters, PaintedOver(base, p)))
  {
    hide Knows, Overlaid, Denotes, GridOk, RunShowsGrid, CannotStore, CannotStoreSome, InTables, RunCells, ViewportOk, ViewportGrid;
    hide Scrolled, NoCells, Copied, AllKnown, OrderedRuns, DeltaRuns, KeyframeRuns, WellFormed;
    next := Viewport(p.cols, p.rows, 0, 0, false, NoCells(p.rows, p.cols), [], [], previous.cursor);
    ghost var start: Known := seq(p.rows, _ => seq(p.cols, _ => None));
    if p.kind.Delta? {
      ScrollInGrid(base, p, shot);
      ok, next := CopyScrolled(previous, p, base.value, PaintedOver(base, p));
      if !ok {
        return;
      }
      start := AllKnown(PaintedOver(base, p));
    } else {
      NothingKnown(p.rows, p.cols, start);
    }
    StartSize(p, shot, start);
    PublicationRuns(base, p, shot);
    ok, next := OverlayRuns(p, next, start, shot.grid);
    if !ok {
      return;
    }
    ghost var known: Known :| Knows(next.cells, next.styles, next.clusters, known)
                              && Overlaid(known, start, shot.grid, SemanticRuns(p), |p.runs|, 0);
    OverlayComplete(known, start, base, p, shot);
    next := next.(cursor := if p.cursorChanged then p.cursor else previous.cursor,
                  epoch := p.epoch, version := p.targetVersion, valid := true);
    SizedShot(p, shot);
    KnownGrid(next, shot.grid);
  }

  lemma {:induction false} ScrollInGrid(base: Option<Shot>, p: Publication, shot: Shot)
    requires PublicationOf(base, p, shot) && p.kind.Delta?
    ensures GridOk(base.value.grid, p.rows, p.cols)
    ensures p.scroll.Some? ==> LegalScroll(p.scroll.value, p.rows)
    ensures |base.value.grid| == p.rows && Sized(PaintedOver(base, p), p.rows, p.cols)
  {
    forall r | 0 <= r < p.rows ensures |PaintedOver(base, p)[r]| == p.cols {
      OverSize(base, p, r);
    }
  }

  lemma {:induction false} NothingKnown(rows: nat, cols: nat, start: Known)
    requires start == seq(rows, _ => seq(cols, _ => None))
    ensures Knows(NoCells(rows, cols), [], [], start) && Sized(start, rows, cols)
  {
  }

  lemma {:induction false} StartSize(p: Publication, shot: Shot, start: Known)
    requires GridOk(shot.grid, p.rows, p.cols) && Sized(start, p.rows, p.cols)
    ensures |start| == |shot.grid| && forall r :: 0 <= r < |shot.grid| ==> |start[r]| == |shot.grid[r]|
  {
  }

  lemma {:induction false} PublicationRuns(base: Option<Shot>, p: Publication, shot: Shot)
    requires PublicationOf(base, p, shot)
    ensures forall i :: 0 <= i < |p.runs| ==> RunShowsGrid(SemanticRun(p, p.runs[i]), shot.grid)
  {
    assert forall i :: 0 <= i < |p.runs| ==> SemanticRuns(p)[i] == SemanticRun(p, p.runs[i]);
  }

  lemma {:induction false} SizedShot(p: Publication, shot: Shot)
    requires GridOk(shot.grid, p.rows, p.cols)
    ensures Sized(shot.grid, |shot.grid|, p.cols) && |shot.grid| == p.rows
  {
  }

  // ------------------------------------------------- all rows of a publication

  /** The rows before `row` are in the buffer. */
  ghost predicate RowsDone(content: seq<Run>, row: nat, grid: Grid, over: Grid, keyframe: bool, scroll: Option<ScrollRegion>, cols: nat) {
    && OrderedRuns(content) && row <= |grid| == |over| && Sized(grid, |grid|, cols) && Sized(over, |grid|, cols)
    && (forall i :: 0 <= i < |content| ==>
          content[i].row < row && FitsRow(content[i], content[i].row, grid[content[i].row], over[content[i].row]))
    && (keyframe ==>
          && (forall i :: 0 <= i < |content| ==> content[i].column == 0 && |content[i].cells| == cols)
          && (forall r :: 0 <= r < row ==> Covered(content, r, 0)))
    && (!keyframe ==> forall r, c :: 0 <= r < row && 0 <= c < cols ==> CellDone(content, grid[r], over[r], r, c, Exposed(scroll, r)))
  }

  /** An equal cell left out, or a cell that needs painting painted. */
  predicate CellDone(content: seq<Run>, current: seq<Cell>, shown: seq<Cell>, r: int, c: int, exposed: bool)
    requires |current| == |shown| && 0 <= c < |current|
  {
    if Covered(content, r, c) then exposed || NeedsPaint(current, shown, c) else current[c] == shown[c]
  }

  lemma {:induction false} NoRowsDone(grid: Grid, over: Grid, keyframe: bool, scroll: Option<ScrollRegion>, cols: nat)
    requires |grid| == |over| && Sized(grid, |grid|, cols) && Sized(over, |grid|, cols)
    ensures RowsDone([], 0, grid, over, keyframe, scroll, cols)
  {
  }

  lemma {:induction false} CoveredAppend(a: seq<Run>, b: seq<Run>, r: int, c: int)
    ensures Covered(a + b, r, c) <==> Covered(a, r, c) || Covered(b, r, c)
  {
    var all := a + b;
    if Covered(a, r, c) {
      var i :| 0 <= i < |a| && RunHas(a[i], r, c);
      assert RunHas(all[i], r, c);
    }
    if Covered(b, r, c) {
      var i :| 0 <= i < |b| && RunHas(b[i], r, c);
      assert RunHas(all[|a| + i], r, c);
    }
    if Covered(all, r, c) {
      var i :| 0 <= i < |all| && RunHas(all[i], r, c);
      assert if i < |a| then RunHas(a[i], r, c) else RunHas(b[i - |a|], r, c);
    }
  }

  lemma {:induction false} NextRowDone(content: seq<Run>, added: seq<Run>, row: nat, grid: Grid, over: Grid, keyframe: bool, known: bool,
                                       scroll: Option<ScrollRegion>, cols: nat)
    requires RowsDone(content, row, grid, over, keyframe, scroll, cols) && row < |grid|
    requires RowChanges(added, row, grid[row], over[row], keyframe, known)
    requires keyframe || (known <==> !Exposed(scroll, row))
    ensures RowsDone(content + added, row + 1, grid, over, keyframe, scroll, cols)
  {
    hide FitsRow, NeedsPaint, Exposed, Covered;
    var all := content + added;
    AddedRow(added, row, grid[row], over[row], keyframe, known);
    RowsOrdered(content, added, row);
    forall i | 0 <= i < |all|
      ensures all[i].row < row + 1 && FitsRow(all[i], all[i].row, grid[all[i].row], over[all[i].row])
      ensures keyframe ==> all[i].column == 0 && |all[i].cells| == cols
    {
      assert all[i] == if i < |content| then content[i] else added[i - |content|];
    }
    if keyframe {
      forall r | 0 <= r < row + 1 ensures Covered(all, r, 0) {
        CoveredAppend(content, added, r, 0);
      }
    } else {
      forall r, c | 0 <= r < row + 1 && 0 <= c < cols ensures CellDone(all, grid[r], over[r], r, c, Exposed(scroll, r)) {
        CoveredAppend(content, added, r, c);
        OnlyThatRow(content, added, row, r, c);
        if r < row {
          assert CellDone(content, grid[r], over[r], r, c, Exposed(scroll, r));
        }
      }
    }
  }

  lemma {:induction false} AddedRow(added: seq<Run>, row: nat, current: seq<Cell>, shown: seq<Cell>, keyframe: bool, known: bool)
    requires RowChanges(added, row, current, shown, keyframe, known)
    ensures forall i :: 0 <= i < |added| ==> added[i].row == row
  {
  }

  lemma {:induction false} RowsOrdered(content: seq<Run>, added: seq<Run>, row: nat)
    requires OrderedRuns(content) && OrderedRuns(added)
    requires forall i :: 0 <= i < |content| ==> content[i].row < row
    requires forall i :: 0 <= i < |added| ==> added[i].row == row
    ensures OrderedRuns(content + added)
  {
  }

  lemma {:induction false} OnlyThatRow(content: seq<Run>, added: seq<Run>, row: nat, r: int, c: int)
    requires forall i :: 0 <= i < |content| ==> content[i].row < row
    requires forall i :: 0 <= i < |added| ==> added[i].row == row
    ensures r != row ==> !Covered(added, r, c)
    ensures r == row ==> !Covered(content, r, c)
  {
  }

  /** All rows done, the buffer holds a publication of the terminal. */
  lemma {:induction false} PublicationDone(base: Option<Shot>, p: Publication, t: Terminal, over: Grid, meaning: seq<Cell>)
    requires TerminalOk(t) && p.cols == t.cols && p.rows == t.rows && p.cursor == t.cursor
    requires Holds(p.runs, p.cells, p.styles, p.clusters, meaning)
    requires RowsDone(Contents(p.runs, meaning), t.rows, t.grid, over, p.kind.Keyframe?, p.scroll, t.cols)
    requires if p.kind.Keyframe? then p.scroll.None?
             else base.Some? && GridOk(base.value.grid, t.rows, t.cols)
                  && (p.scroll.Some? ==> LegalScroll(p.scroll.value, t.rows)) && over == PaintedOver(base, p)
    requires p.cursorChanged || (base.Some? && base.value.cursor == t.cursor)
    ensures PublicationOf(base, p, TerminalShot(t))
    ensures forall i :: 0 <= i < |p.runs| ==> RunInRange(p, p.runs[i])
    ensures forall k :: 0 <= k < |p.cells| ==> InTables(p.cells[k], p.styles, p.clusters)
  {
    hide GridOk, NeedsPaint, Exposed, Covered, CutsNothing, OrderedRuns, Holds;
    HoldsMeans(p, meaning);
    var runs := SemanticRuns(p);
    forall i | 0 <= i < |runs|
      ensures RunShowsGrid(runs[i], t.grid) && p.runs[i].row < p.rows && p.runs[i].column + p.runs[i].columns <= p.cols
      ensures ValidRow(RunCells(p, p.runs[i]))
    {
      assert runs[i] == SemanticRun(p, p.runs[i]);
      assert FitsRow(runs[i], runs[i].row, t.grid[runs[i].row], over[runs[i].row]);
      GridRow(t, runs[i].row);
      SliceValid(t.grid[runs[i].row], runs[i].column, runs[i].column + |runs[i].cells|);
    }
    assert TerminalShot(t).grid == t.grid;
    if p.kind.Delta? {
      GridRow(t, 0);
      DeltaDone(runs, t.rows, t.grid, over, p.scroll, t.cols);
    }
  }

  lemma {:induction false} DeltaDone(content: seq<Run>, rows: nat, grid: Grid, over: Grid, scroll: Option<ScrollRegion>, cols: nat)
    requires RowsDone(content, rows, grid, over, false, scroll, cols) && rows == |grid|
    ensures DeltaRuns(content, over, grid, scroll)
  {
    hide FitsRow, NeedsPaint, Exposed, Covered, OrderedRuns;
    forall r, c | 0 <= r < |grid| && 0 <= c < |grid[r]|
      ensures |over[r]| == |grid[r]| && CellDone(content, grid[r], over[r], r, c, Exposed(scroll, r))
    {
    }
    forall r, c | 0 <= r < |grid| && 0 <= c < |grid[r]| && c < |over[r]| && !Covered(content, r, c) ensures grid[r][c] == over[r][c] {
      assert CellDone(content, grid[r], over[r], r, c, Exposed(scroll, r));
    }
    forall r, c | 0 <= r < |grid| && 0 <= c < |grid[r]| && |grid[r]| == |over[r]| && Covered(content, r, c) && !Exposed(scroll, r)
      ensures NeedsPaint(grid[r], over[r], c)
    {
      assert CellDone(content, grid[r], over[r], r, c, Exposed(scroll, r));
    }
  }

  lemma {:induction false} GridRow(t: Terminal, r: nat)
    requires TerminalOk(t) && r < t.rows
    ensures |t.grid| == t.rows && |t.grid[r]| == t.cols && ValidRow(t.grid[r]) && CanonicalCells(t.grid[r])
  {
  }

  /** Columns that cut no pair hold whole pairs. */
  lemma {:induction false} SliceValid(row: seq<Cell>, from: nat, to: nat)
    requires ValidRow(row) && CutsNothing(row, from, to)
    ensures ValidRow(row[from..to])
  {
    var slice := row[from..to];
    var widths := CellWidths(slice);
    forall i | 0 <= i < |slice|
      ensures ValidCell(slice[i]) && widths[i] <= 2
      ensures widths[i] == 2 ==> i + 1 < |slice| && widths[i + 1] == 0
      ensures widths[i] == 0 ==> 0 < i && widths[i - 1] == 2
    {
      assert slice[i] == row[from + i];
      ValidPairs(row, from + i);
      PairAt(row, from + i);
    }
  }

  /** Nothing changed, nothing to publish; and the other way round. */
  lemma {:induction false} NoRunsMeansSame(content: seq<Run>, grid: Grid, over: Grid, cols: nat)
    requires RowsDone(content, |grid|, grid, over, false, None, cols)
    ensures content == [] <==> grid == over
  {
    hide OrderedRuns;
    if content == [] {
      forall r | 0 <= r < |grid| ensures grid[r] == over[r] {
        forall c | 0 <= c < cols ensures grid[r][c] == over[r][c] {
          assert CellDone(content, grid[r], over[r], r, c, Exposed(None, r));
        }
      }
    } else {
      var run := content[0];
      assert FitsRow(run, run.row, grid[run.row], over[run.row]);
      assert RunHas(run, run.row, run.column);
      assert CellDone(content, grid[run.row], over[run.row], run.row, run.column, Exposed(None, run.row));
      assert NeedsPaint(grid[run.row], over[run.row], run.column);
    }
  }

  // ------------------------------------------------------------- the renderer

  datatype Outcome = Idle | Unchanged | Published | Refused

  class PanePublicationState {
    var attached: bool
    var layoutRevision: nat
    var epoch: nat
    var version: nat
    var snapshot: Viewport
    var nextSnapshot: Viewport
    var pending: Option<Publication>
    var dirty: seq<DirtySpan>
    var dirtyRows: nat
    var scroll: Option<ScrollRegion>
    var cursorDirty: bool
    var keyframe: bool
    var barrier: bool

    function SnapshotShot(v: Viewport): Shot {
      Shot(ViewportGrid(v), v.cursor)
    }

    /** The fields as the state machine sees them. */
    function State(): Phase
      reads this
    {
      Phase(attached, layoutRevision, epoch, version,
            if snapshot.valid then Some(SnapshotShot(snapshot)) else None,
            if pending.Some? then Some(Submission(pending.value, SnapshotShot(nextSnapshot))) else None,
            dirty, scroll, cursorDirty, keyframe, barrier)
    }

    /** `dirtyRows` counts the rows with damage, and the snapshots index their own tables. */
    ghost predicate Valid()
      reads this
    {
      && dirtyRows == DirtyCount(dirty)
      && ViewportOk(snapshot)
      && (pending.Some? ==> nextSnapshot.valid && ViewportOk(nextSnapshot))
    }

    constructor ()
      ensures Valid() && State() == Phase(false, 0, 1, 0, None, None, [], None, false, false, false)
    {
      attached, layoutRevision, epoch, version := false, 0, 1, 0;
      snapshot, nextSnapshot, pending := NO_VIEWPORT, NO_VIEWPORT, None;
      dirty, dirtyRows, scroll := [], 0, None;
      cursorDirty, keyframe, barrier := false, false, false;
    }

    method CancelPending()
      requires Valid()
      modifies this
      ensures Valid() && State() == Cancelled(old(State()))
    {
      if pending.Some? {
        barrier := barrier || pending.value.barrier;
        pending := None;
      }
    }

    method InvalidateEpoch(withBarrier: bool, t: Terminal)
      requires Valid() && 0 < t.cols
      modifies this
      ensures Valid() && State() == Invalidated(old(State()), withBarrier, t)
    {
      hide SnapshotShot, DirtyCount, ViewportOk, ViewportGrid;
      CancelPending();
      epoch, version := epoch + 1, 0;
      snapshot := snapshot.(valid := false);
      InvalidViewport(snapshot);
      keyframe, barrier := true, barrier || withBarrier;
      scroll, cursorDirty := None, true;
      SizeDamage(t);
    }

    method SizeDamage(t: Terminal)
      requires 0 < t.cols
      modifies `dirty, `dirtyRows
      ensures dirty == FullSpans(t.rows, t.cols) && dirtyRows == DirtyCount(dirty)
    {
      hide DirtyCount;
      dirty := FullSpans(t.rows, t.cols);
      dirtyRows := t.rows;
      AllSame(dirty, DirtySpan(0, t.cols));
    }

    static lemma {:induction false} InvalidViewport(v: Viewport)
      ensures !v.valid ==> ViewportOk(v)
    {
    }

    method Attach(revision: nat, t: Terminal)
      requires Valid() && 0 < t.cols
      modifies this
      ensures Valid() && State() == Attached(old(State()), revision, t)
    {
      CancelPending();
      attached, layoutRevision := true, revision;
      InvalidateEpoch(true, t);
    }

    method Detach()
      requires Valid()
      modifies this
      ensures Valid() && State() == Detached(old(State()))
    {
      hide ViewportGrid;
      CancelPending();
      attached, layoutRevision := false, 0;
      ClearMutation();
      snapshot := snapshot.(valid := false);
    }

    method ClearMutation()
      requires Valid()
      modifies `dirty, `dirtyRows, `scroll, `cursorDirty, `keyframe, `barrier
      ensures Valid() && State() == Cleared(old(State()))
    {
      hide SnapshotShot, ViewportOk, DirtyCount;
      dirty, dirtyRows, scroll := CleanSpans(|dirty|), 0, None;
      AllSame(dirty, CLEAN);
      cursorDirty, keyframe, barrier := false, false, false;
    }

    /** `mergeViewMutation`. */
    method MergeViewMutation(u: Update, t: Terminal)
      requires Valid() && 0 < t.cols && ScrollFits(u.scroll, |dirty|)
      modifies `dirty, `dirtyRows, `scroll, `cursorDirty, `keyframe
      ensures Valid() && State() == if attached then Merged(old(State()), u, t.cols) else old(State())
    {
      hide SnapshotShot, DirtyCount, ViewportOk, MovedBy, MergedSpans, FullSpans, LegalScroll;
      if !attached {
        return;
      }
      MoveDamage(u);
      MergeDamage(u.dirtySpans, t.cols);
      cursorDirty := cursorDirty || u.cursorChanged || u.scroll.Some?;
    }

    method MoveDamage(u: Update)
      requires Valid() && ScrollFits(u.scroll, |dirty|)
      modifies `dirty, `dirtyRows, `scroll, `keyframe
      ensures Valid() && |dirty| == |old(dirty)| && State() == MovedBy(old(State()), u)
    {
      hide SnapshotShot, DirtyCount, ViewportOk, MergedScroll, LegalScroll;
      if u.fullRedraw {
        keyframe := true;
      }
      if u.scroll.Some? {
        MergeScroll(u.scroll.value);
      }
    }

    method MergeDamage(spans: seq<DirtySpan>, cols: nat)
      requires Valid() && 0 < cols
      modifies `dirty, `dirtyRows
      ensures Valid()
      ensures State() == old(State()).(dirty := if keyframe then FullSpans(|old(dirty)|, cols) else MergedSpans(old(dirty), spans, cols))
    {
      hide DirtyCount, ViewportOk, ViewportGrid;
      MergeSpans(spans, cols);
      if keyframe {
        MarkAllRows(cols);
      }
    }

    method MarkAllRows(cols: nat)
      requires Valid() && 0 < cols
      modifies `dirty, `dirtyRows
      ensures Valid() && State() == old(State()).(dirty := FullSpans(|old(dirty)|, cols))
    {
      hide DirtyCount, ViewportOk, ViewportGrid;
      dirty := FullSpans(|dirty|, cols);
      dirtyRows := |dirty|;
      AllSame(dirty, DirtySpan(0, cols));
    }

    method MergeScroll(region: ScrollRegion)
      requires Valid() && LegalScroll(region, |dirty|)
      modifies `dirty, `dirtyRows, `scroll, `keyframe
      ensures Valid() && State() == MergedScroll(old(State()), region) && |dirty| == |old(dirty)|
    {
      hide SnapshotShot, DirtyCount, ViewportOk, ViewportGrid, ShiftedSpans;
      if keyframe {
        return;
      }
      if scroll.Some? && (scroll.value.top != region.top || scroll.value.bottom != region.bottom
                          || (scroll.value.delta < 0) != (region.delta < 0)) {
        keyframe, scroll := true, None;
        return;
      }
      var shifted, dropped := ShiftDirtyRows(dirty, region);
      dirty, dirtyRows := shifted, dirtyRows - dropped;
      if scroll.None? {
        scroll := Some(region);
      } else {
        scroll := Some(scroll.value.(delta := scroll.value.delta + region.delta));
      }
      var height := region.bottom - region.top;
      if scroll.value.delta <= -height || scroll.value.delta >= height {
        keyframe, scroll := true, None;
      }
    }

    method MergeSpans(spans: seq<DirtySpan>, cols: nat)
      requires Valid()
      modifies `dirty, `dirtyRows
      ensures Valid() && State() == old(State()).(dirty := MergedSpans(old(dirty), spans, cols))
    {
      hide DirtyCount, ViewportOk;
      ghost var was := dirty;
      var row := 0;
      while row < |dirty| && row < |spans|
        invariant 0 <= row <= |dirty| == |was| && row <= |spans|
        invariant dirtyRows == DirtyCount(dirty) && |dirty| == |was|
        invariant forall r :: 0 <= r < |was| ==> dirty[r] == if r < row then Hull(was[r], Clipped(spans[r], cols)) else was[r]
      {
        var next := DirtySpan(if spans[row].start < 0 then 0 else spans[row].start,
                              if spans[row].end > cols then cols else spans[row].end);
        var merged, added := MergeDirtySpan(dirty[row], next);
        DirtyCountUpdate(dirty, row, merged);
        dirty := dirty[row := merged];
        if added {
          dirtyRows := dirtyRows + 1;
        }
        row := row + 1;
      }
      assert dirty == MergedSpans(was, spans, cols);
    }

    /** `mergeDirtySpan` on clipped columns: the hull, and whether the row became dirty. */
    static method MergeDirtySpan(span: DirtySpan, next: DirtySpan) returns (merged: DirtySpan, added: bool)
      ensures merged == Hull(span, next)
      ensures added <==> Dirty(merged) && !Dirty(span)
      ensures Dirty(span) ==> Dirty(merged)
    {
      if next.start >= next.end {
        return span, false;
      }
      if span.end <= span.start {
        return next, true;
      }
      return DirtySpan(if span.start < next.start then span.start else next.start,
                       if span.end > next.end then span.end else next.end), false;
    }

    method HandOff()
      requires Valid()
      modifies this
      ensures Valid() && State() == HandedOff(old(State()))
    {
      if pending.None? {
        return;
      }
      version := pending.value.targetVersion;
      snapshot, nextSnapshot := nextSnapshot, snapshot;
      pending := None;
    }

    // ---------------------------------------------------------------- prepare

    method CandidateCellCount() returns (total: nat)
      ensures total == CandidateCells(dirty)
    {
      total := 0;
      var row := 0;
      while row < |dirty|
        invariant 0 <= row <= |dirty| && total == CandidateCells(dirty[..row])
      {
        assert dirty[..row + 1][..row] == dirty[..row];
        if dirty[row].end > dirty[row].start {
          total := total + (dirty[row].end - dirty[row].start);
        }
        row := row + 1;
      }
      assert dirty[..row] == dirty;
    }

    /** `previousCell`, a row at a time. */
    method PreviousRowAt(row: nat, t: Terminal) returns (previous: PreviousRow)
      requires Valid() && PhaseOk(State(), t) && attached && pending.None? && row < t.rows
      ensures PreviousShows(previous, snapshot.styles, snapshot.clusters, OverGrid(t)[row])
      ensures previous.None? <==> !snapshot.valid || Exposed(scroll, row)
    {
      hide PreviousShows, DirtyCount, PhaseOk, ViewportOk, ViewportGrid;
      previous := None;
      OverRow(t, row);
      if !snapshot.valid || snapshot.cols != t.cols || snapshot.rows != t.rows {
        return;
      }
      var source := row;
      if scroll.Some? && scroll.value.top <= row < scroll.value.bottom {
        var from := row - scroll.value.delta;
        if from < scroll.value.top || from >= scroll.value.bottom {
          return;
        }
        source := from;
      }
      previous := Some(snapshot.cells[source]);
    }

    /** What the client will show before the runs are painted. */
    ghost function OverGrid(t: Terminal): (over: Grid)
      requires PhaseOk(State(), t) && attached && pending.None?
      reads this
      ensures |over| == t.rows
    {
      if snapshot.valid then Scrolled(ViewportGrid(snapshot), scroll, DEFAULT_BLANK, t.cols)
      else seq(t.rows, _ => BlankRow(DEFAULT_BLANK, t.cols))
    }

    lemma {:induction false} OverRow(t: Terminal, row: nat)
      requires Valid() && PhaseOk(State(), t) && attached && pending.None? && row < t.rows
      ensures |OverGrid(t)[row]| == t.cols
      ensures snapshot.valid ==> snapshot.cols == t.cols && snapshot.rows == t.rows == |snapshot.cells|
      ensures !snapshot.valid || Exposed(scroll, row) ==> PreviousShows(None, snapshot.styles, snapshot.clusters, OverGrid(t)[row])
      ensures snapshot.valid && !Exposed(scroll, row) ==>
                var source := if scroll.Some? then ScrollSource(scroll.value, row).value else row;
                && 0 <= source < |snapshot.cells|
                && PreviousShows(Some(snapshot.cells[source]), snapshot.styles, snapshot.clusters, OverGrid(t)[row])
    {
      hide DirtyCount, PublicationOf, CanonicalCells, Denotes, Covers;
      var over := OverGrid(t);
      BlankRowValid(t.cols);
      if snapshot.valid {
        var grid := ViewportGrid(snapshot);
        assert |grid[0]| == t.cols == |snapshot.cells[0]|;
        if Exposed(scroll, row) {
          assert over[row] == BlankRow(DEFAULT_BLANK, t.cols);
        } else {
          var source := if scroll.Some? then ScrollSource(scroll.value, row).value else row;
          assert over[row] == grid[source];
          RowMeans(snapshot, source);
        }
      }
    }

    static lemma {:induction false} BlankRowValid(cols: nat)
      ensures ValidRow(BlankRow(DEFAULT_BLANK, cols))
    {
    }

    static lemma {:induction false} RowMeans(v: Viewport, row: nat)
      requires v.valid && ViewportOk(v) && row < |v.cells|
      ensures DenoteAll(v.cells[row], v.styles, v.clusters, ViewportGrid(v)[row])
    {
      var grid := ViewportGrid(v);
      forall c | 0 <= c < |v.cells[row]| ensures Denotes(v.cells[row][c], v.styles, v.clusters, grid[row][c]) {
        assert AllKnown(grid)[row][c] == Some(grid[row][c]);
      }
    }

    /** Every row, through the buffer. */
    method CompareRows(buffer: Buffer, t: Terminal, keyframe: bool) returns (ok: bool)
      requires Valid() && PhaseOk(State(), t) && attached && pending.None? && buffer.Valid() && buffer.Content() == []
      requires keyframe <==> SendsKeyframe(State(), t)
      modifies buffer
      ensures buffer.Valid() && (!ok ==> CannotStoreSome(buffer.styles, buffer.clusters, t.grid))
      ensures ok ==> RowsDone(buffer.Content(), t.rows, t.grid, OverGrid(t), keyframe, if keyframe then None else scroll, t.cols)
    {
      hide PhaseOk, DirtyCount, ViewportOk, ViewportGrid, RowsDone, PreviousShows, CanonicalCells, ValidRow, RowChanges, Holds, Contents;
      hide Exposed, CannotStore, SendsKeyframe;
      ghost var over := OverGrid(t);
      ghost var region := if keyframe then None else scroll;
      StartRows(t);
      NoRowsDone(t.grid, over, keyframe, region, t.cols);
      ok := true;
      var row := 0;
      while row < t.rows
        invariant 0 <= row <= t.rows && buffer.Valid()
        invariant RowsDone(buffer.Content(), row, t.grid, over, keyframe, region, t.cols)
      {
        ghost var before := buffer.Content();
        GridRow(t, row);
        var previous := PreviousRowAt(row, t);
        OverRow(t, row);
        OutsideSpan(t, row, keyframe);
        ghost var added;
        ok, added := DiffRow(buffer, row, t.grid[row], previous, keyframe, dirty[row], snapshot.styles, snapshot.clusters, over[row]);
        if !ok {
          RowCannot(buffer, t.grid, row);
          return;
        }
        NextRowDone(before, added, row, t.grid, over, keyframe, previous.Some?, region, t.cols);
        row := row + 1;
      }
    }

    lemma {:induction false} StartRows(t: Terminal)
      requires Valid() && PhaseOk(State(), t) && attached && pending.None?
      ensures TerminalOk(t) && |t.grid| == t.rows == |dirty| && Sized(t.grid, t.rows, t.cols) && Sized(OverGrid(t), t.rows, t.cols)
    {
      hide DirtyCount, ViewportOk, ViewportGrid, PublicationOf;
      forall r | 0 <= r < t.rows ensures |OverGrid(t)[r]| == t.cols {
        OverRow(t, r);
      }
    }

    /** Outside its span a row is what the client will show; unless a keyframe is sent. */
    lemma {:induction false} OutsideSpan(t: Terminal, row: nat, keyframe: bool)
      requires Valid() && PhaseOk(State(), t) && attached && pending.None? && row < t.rows
      requires keyframe <==> SendsKeyframe(State(), t)
      ensures !keyframe ==> snapshot.valid
      ensures row < |dirty| && row < |t.grid| && |t.grid[row]| == |OverGrid(t)[row]| == t.cols
      ensures !keyframe ==> forall c :: 0 <= c < t.cols && !InSpan(dirty[row], c) ==> t.grid[row][c] == OverGrid(t)[row][c]
    {
      hide DirtyCount, ViewportOk, ViewportGrid, PublicationOf, CandidateCells;
      OverRow(t, row);
      StartRows(t);
    }

    static lemma {:induction false} RowCannot(buffer: Buffer, grid: Grid, row: nat)
      requires row < |grid| && buffer.NoRoomFor(grid[row])
      ensures CannotStoreSome(buffer.styles, buffer.clusters, grid)
    {
      hide CannotStore;
    }

    /** Chooses delta or keyframe. */
    method ChooseKeyframe(t: Terminal) returns (keyframe: bool)
      ensures keyframe <==> SendsKeyframe(State(), t)
    {
      keyframe := this.keyframe || barrier || !snapshot.valid || (version > 0 && (version + 1) % ANCHOR_INTERVAL == 0);
      if !keyframe {
        var candidates := CandidateCellCount();
        keyframe := t.rows * t.cols > 0 && candidates * 100 >= t.rows * t.cols * KEYFRAME_DENSITY_PERCENT;
      }
    }

    /** `prepare`: the one pending publication for everything that changed, or
        nothing when nothing did; refused only when a table is full. */
    method Prepare(buffer: Buffer, t: Terminal) returns (outcome: Outcome)
      requires Valid() && (attached ==> PhaseOk(State(), t))
      modifies this, buffer
      ensures Valid()
      ensures outcome.Idle? <==> old(State()).pending.Some? || !HasMutation(old(State()))
      ensures outcome.Idle? || outcome.Refused? ==> State() == old(State())
      ensures outcome.Unchanged? || outcome.Published? ==> PreparedNow(old(State()), t, State())
      ensures outcome.Published? <==> State().pending.Some? && old(State()).pending.None?
      ensures outcome.Refused? ==>
                || CannotStoreSome(buffer.styles, buffer.clusters, t.grid)
                || CannotStoreSome(nextSnapshot.styles, nextSnapshot.clusters, t.grid)
                || (PhaseOk(State(), t) && attached && pending.None?
                    && CannotStoreSome(nextSnapshot.styles, nextSnapshot.clusters, OverGrid(t)))
    {
      hide PhaseOk, ViewportOk, ViewportGrid, RowsDone, Holds, Contents, CannotStoreSome, PublicationOf, DirtyCount, CandidateCells;
      if pending.Some? || !(attached && (keyframe || barrier || scroll.Some? || cursorDirty || dirtyRows > 0)) {
        return Idle;
      }
      ghost var s := State();
      buffer.Reset();
      var whole := ChooseKeyframe(t);
      var ok := CompareRows(buffer, t, whole);
      if !ok {
        return Refused;
      }
      var moved := if whole then None else scroll;
      var cursorChanged := whole || barrier || moved.Some? || (cursorDirty && (!snapshot.valid || t.cursor != snapshot.cursor));
      assert cursorChanged == CursorChanges(s, t);
      ContentCount(buffer);
      if |buffer.runs| == 0 && moved.None? && !cursorChanged && !whole {
        NothingFound(t, buffer.Content());
        ClearMutation();
        return Unchanged;
      }
      SomethingFound(t, buffer.Content(), whole);
      var p := Publication(epoch, if whole then 0 else version, version + 1, if whole then Keyframe else Delta, layoutRevision, barrier,
                           t.cols, t.rows, moved, buffer.runs, buffer.cells, buffer.styles, buffer.clusters, t.cursor, cursorChanged);
      Publishable(buffer, t, p);
      ok := StorePending(p, t);
      outcome := if ok then Published else Refused;
    }

    /** The publication becomes pending together with the snapshot it leads to. */
    method StorePending(p: Publication, t: Terminal) returns (ok: bool)
      requires Valid() && PhaseOk(State(), t) && attached && pending.None?
      requires PublicationOf(State().snapshot, p, TerminalShot(t))
      requires forall i :: 0 <= i < |p.runs| ==> RunInRange(p, p.runs[i])
      requires forall k :: 0 <= k < |p.cells| ==> InTables(p.cells[k], p.styles, p.clusters)
      requires p.kind.Delta? ==> p.scroll == scroll && p.cols == t.cols
      modifies this
      ensures Valid()
      ensures ok ==> State() == Cleared(old(State())).(pending := Some(Submission(p, TerminalShot(t))))
      ensures !ok ==> State() == old(State()) && (|| CannotStoreSome(nextSnapshot.styles, nextSnapshot.clusters, t.grid)
                                                 || (PhaseOk(State(), t) && attached && pending.None?
                                                     && CannotStoreSome(nextSnapshot.styles, nextSnapshot.clusters, OverGrid(t))))
    {
      hide PhaseOk, ViewportOk, ViewportGrid, CannotStoreSome, PublicationOf, DirtyCount, Scrolled, RunInRange, InTables;
      ghost var s, over := State(), OverGrid(t);
      ghost var base := s.snapshot;
      DeltaBase(base, p, TerminalShot(t));
      assert p.kind.Delta? ==> over == PaintedOver(base, p);
      var next;
      ok, next := PrepareNextSnapshot(p, snapshot, base, TerminalShot(t));
      nextSnapshot := next;
      if ok {
        pending := Some(p);
        ClearMutation();
      }
    }

    static lemma {:induction false} DeltaBase(base: Option<Shot>, p: Publication, shot: Shot)
      requires PublicationOf(base, p, shot)
      ensures p.kind.Delta? ==> base.Some? && (p.scroll.Some? ==> 0 <= p.scroll.value.top && p.scroll.value.bottom <= |base.value.grid|)
    {
    }

    static lemma {:induction false} ContentCount(buffer: Buffer)
      ensures |buffer.Content()| == |buffer.runs|
    {
    }

    lemma {:induction false} NothingFound(t: Terminal, content: seq<Run>)
      requires Valid() && PhaseOk(State(), t) && attached && pending.None? && scroll.None?
      requires content == [] && !SendsKeyframe(State(), t) && !CursorChanges(State(), t)
      requires RowsDone(content, t.rows, t.grid, OverGrid(t), false, None, t.cols)
      ensures NothingToSend(State(), t)
    {
      hide ViewportOk, ViewportGrid, RowsDone, PublicationOf, CandidateCells, DirtyCount;
      StartRows(t);
      NoRunsMeansSame(content, t.grid, OverGrid(t), t.cols);
    }

    lemma {:induction false} SomethingFound(t: Terminal, content: seq<Run>, whole: bool)
      requires Valid() && PhaseOk(State(), t) && attached && pending.None? && (whole <==> SendsKeyframe(State(), t))
      requires content != [] || scroll.Some? || CursorChanges(State(), t) || whole
      requires RowsDone(content, t.rows, t.grid, OverGrid(t), whole, if whole then None else scroll, t.cols)
      ensures !NothingToSend(State(), t)
    {
      hide ViewportOk, ViewportGrid, RowsDone, PublicationOf, CandidateCells, DirtyCount;
      if NothingToSend(State(), t) {
        StartRows(t);
        NoRunsMeansSame(content, t.grid, OverGrid(t), t.cols);
      }
    }

    lemma {:induction false} Publishable(buffer: Buffer, t: Terminal, p: Publication)
      requires Valid() && PhaseOk(State(), t) && attached && pending.None? && buffer.Valid()
      requires HeaderOf(State(), t, p)
      requires p.runs == buffer.runs && p.cells == buffer.cells && p.styles == buffer.styles && p.clusters == buffer.clusters
      requires RowsDone(buffer.Content(), t.rows, t.grid, OverGrid(t), p.kind.Keyframe?, p.scroll, t.cols)
      ensures PublicationOf(State().snapshot, p, TerminalShot(t))
      ensures forall i :: 0 <= i < |p.runs| ==> RunInRange(p, p.runs[i])
      ensures forall k :: 0 <= k < |p.cells| ==> InTables(p.cells[k], p.styles, p.clusters)
    {
      hide ViewportOk, ViewportGrid, RowsDone, PublicationOf, Holds, Contents, Covers, GridOk, CandidateCells, DirtyCount, RunInRange, InTables;
      StartRows(t);
      PublicationDone(State().snapshot, p, t, OverGrid(t), buffer.meaning);
    }
  }
}
