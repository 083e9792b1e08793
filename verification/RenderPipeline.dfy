/** Server to client, end to end: what one delivered publication does to a client's
    cache, and what every run of the renderer guarantees about all of them. */
module RenderPipeline {
  import opened Display
  import opened Damage
  import opened DisplayInterpreter
  import opened Painting
  import opened Publication
  import opened FrameCompiler
  import opened SemanticCells
  import opened RowDiff
  import opened PublicationBuffer
  import opened PublicationRun
  import opened ScanoutCache
  import Activation

  // --------------------------------------------------------- one delivery

  /** One pane slot of a client: its stream, its cache, its installed styles. */
  datatype Client = Client(stream: DisplayState, cache: ScanGrid, cols: nat, table: map<nat, Style>)

  /** The cache after a frame's scroll; an illegal one is ignored. */
  function CacheScrolled(cache: ScanGrid, scroll: Option<ScrollRegion>, cols: nat): (out: ScanGrid)
    ensures |out| == |cache|
  {
    if scroll.Some? && Legal(scroll.value, |cache|) then ScrollScan(cache, scroll, cols) else cache
  }

  /** A client accepts a frame of its slot's size: decode it, scroll the cache, paint
      the spans, install the styles. None is a refused frame. */
  function Deliver(c: Client, frame: seq<Command<Text>>): Option<Client> {
    match ExecAll(BeginFrame(c.stream), frame)
    case None => None
    case Some(after) =>
      if !after.hasBarrier || !MatchesSlot(c, after) then None
      else match PaintAll(CacheScrolled(c.cache, after.scroll, c.cols), after.canvas.writes)
        case None => None
        case Some(cache) => Some(Client(after, cache, c.cols, Installed(c.table, after.installs)))
  }

  /** `paneFrameMatchesRect`. */
  predicate MatchesSlot(c: Client, after: DisplayState) {
    after.canvas.cols == c.cols && after.canvas.rows == |c.cache|
  }

  /** The client's cache has whole pairs and the pane's size. */
  ghost predicate CacheOk(c: Client, rows: nat, cols: nat) {
    PairedGrid(c.cache) && Sized(c.cache, rows, cols) && c.cols == cols
  }

  /** The client shows a grid and a cursor, through styles its slot has installed. */
  ghost predicate ClientShows(c: Client, shot: Shot) {
    && GridShows(c.cache, c.stream.styles, shot.grid) && c.stream.cursor == shot.cursor
    && TableCovers(c.table, c.stream.styles)
    && DEFAULT_STYLE_ID in c.stream.styles && c.stream.styles[DEFAULT_STYLE_ID] == DEFAULT_STYLE
  }

  /** Columns that cut no pair of what a row shows cut no pair of the row. */
  lemma {:induction false} CutsNoPair(scan: ScanRow, table: map<nat, Style>, shown: seq<Cell>, from: nat, to: nat)
    requires PairedSlice(scan, 0, |scan|) && |scan| == |shown| && CutsNothing(shown, from, to)
    requires forall c :: 0 <= c < |scan| ==> Shows(scan[c], table, shown[c])
    requires forall c :: 0 <= c < |shown| ==> ValidCell(shown[c])
    ensures PairedSlice(scan, from, to)
  {
    assert scan[from].width != 0 && (to < |scan| ==> scan[to - 1].width != 2);
    forall i | from <= i < to && scan[i].width == 2 ensures i + 1 < to && scan[i + 1].width == 0 {
    }
    forall i | from <= i < to && scan[i].width == 0 ensures from < i && scan[i - 1].width == 2 {
    }
  }

  /** What is shown stays shown when styles are only added. */
  lemma {:induction false} StillShows(scan: ScanCell, table: map<nat, Style>, more: map<nat, Style>, cell: Cell)
    requires Shows(scan, table, cell) && TableCovers(more, table)
    ensures Shows(scan, more, cell)
  {
  }

  /** Painting exactly the runs turns the painted-over grid into the new one. */
  lemma {:induction false} RunsShow(mid: ScanGrid, out: ScanGrid, table: map<nat, Style>, runs: seq<Run>, grid: Grid, over: Grid, all: bool, cols: nat)
    requires RunsPainted(mid, out, table, runs) && Sized(mid, |grid|, cols) && Sized(grid, |grid|, cols) && Sized(over, |grid|, cols)
    requires forall i :: 0 <= i < |runs| ==> RunShowsGrid(runs[i], grid)
    requires if all then forall r, c :: 0 <= r < |grid| && 0 <= c < cols ==> Covered(runs, r, c)
             else GridShows(mid, table, over)
                  && forall r, c :: 0 <= r < |grid| && 0 <= c < cols && !Covered(runs, r, c) ==> grid[r][c] == over[r][c]
    ensures GridShows(out, table, grid)
  {
    hide Shows, RunsPainted, RunShowsGrid, Covered;
    assert |out| == |mid| && forall r :: 0 <= r < |mid| ==> |out[r]| == |mid[r]| by { PaintedRows(mid, out, table, runs); }
    forall r, c | 0 <= r < |out| && 0 <= c < |out[r]| ensures Shows(out[r][c], table, grid[r][c]) {
      if Covered(runs, r, c) {
        CoveredShown(mid, out, table, runs, grid, r, c);
      } else {
        UncoveredKept(mid, out, table, runs, r, c);
      }
    }
  }

  lemma {:induction false} PaintedRows(mid: ScanGrid, out: ScanGrid, table: map<nat, Style>, runs: seq<Run>)
    requires RunsPainted(mid, out, table, runs)
    ensures |out| == |mid| && forall r :: 0 <= r < |mid| ==> |out[r]| == |mid[r]|
  {
  }

  lemma {:induction false} CoveredShown(mid: ScanGrid, out: ScanGrid, table: map<nat, Style>, runs: seq<Run>, grid: Grid, r: nat, c: nat)
    requires RunsPainted(mid, out, table, runs) && r < |out| == |grid| && c < |out[r]| == |grid[r]| && Covered(runs, r, c)
    requires forall i :: 0 <= i < |runs| ==> RunShowsGrid(runs[i], grid)
    ensures Shows(out[r][c], table, grid[r][c])
  {
    hide Shows;
    var i :| 0 <= i < |runs| && RunHas(runs[i], r, c);
    assert RunShowsGrid(runs[i], grid);
    assert RunHas(runs[i], runs[i].row, c);
    assert Shows(out[r][c], table, runs[i].cells[c - runs[i].column]);
  }

  lemma {:induction false} UncoveredKept(mid: ScanGrid, out: ScanGrid, table: map<nat, Style>, runs: seq<Run>, r: nat, c: nat)
    requires RunsPainted(mid, out, table, runs) && r < |out| && c < |out[r]| && !Covered(runs, r, c)
    ensures out[r][c] == mid[r][c]
  {
    hide Shows;
    assert forall i :: 0 <= i < |runs| ==> !RunHas(runs[i], r, c);
  }

  /** The cache the runs are painted on. */
  lemma {:induction false} ScrolledCache(c: Client, base: Option<Shot>, p: Publication, more: map<nat, Style>)
    requires CacheOk(c, p.rows, p.cols) && WellFormed(p)
    requires p.kind.Keyframe? ==> p.scroll.None?
    requires p.kind.Delta? ==> base.Some? && GridOk(base.value.grid, p.rows, p.cols) && ClientShows(c, base.value) && TableCovers(more, c.stream.styles)
    ensures var mid := CacheScrolled(c.cache, p.scroll, c.cols);
            && PairedGrid(mid) && Sized(mid, p.rows, p.cols)
            && (p.kind.Delta? ==> GridShows(mid, more, PaintedOver(base, p)))
  {
    var mid := CacheScrolled(c.cache, p.scroll, c.cols);
    assert p.scroll.None? ==> mid == c.cache;
    if p.scroll.Some? {
      assert mid == ScrollScan(c.cache, p.scroll, c.cols);
      ScrollKeepsPairs(c.cache, p.scroll, c.cols);
    }
    if p.kind.Delta? {
      var over := PaintedOver(base, p);
      if p.scroll.Some? {
        ScrollShows(c.cache, c.stream.styles, base.value.grid, p.scroll, c.cols);
      }
      assert GridShows(mid, c.stream.styles, over);
      hide Shows;
      forall r, k | 0 <= r < |mid| && 0 <= k < |mid[r]| ensures Shows(mid[r][k], more, over[r][k]) {
        StillShows(mid[r][k], c.stream.styles, more, over[r][k]);
      }
    }
  }

  lemma {:induction false} OverRowValid(base: Shot, p: Publication, r: nat)
    requires WellFormed(p) && GridOk(base.grid, p.rows, p.cols) && r < p.rows
    ensures |PaintedOver(Some(base), p)[r]| == p.cols
    ensures forall c :: 0 <= c < p.cols ==> ValidCell(PaintedOver(Some(base), p)[r][c])
  {
    var over := PaintedOver(Some(base), p);
    if p.scroll.Some? && ScrollSource(p.scroll.value, r).None? {
      assert over[r] == BlankRow(DEFAULT_BLANK, p.cols);
    } else {
      var source := if p.scroll.Some? then ScrollSource(p.scroll.value, r).value else r;
      assert over[r] == base.grid[source];
    }
  }

  /** Every run of a publication can be painted on the cache it is meant for. */
  lemma {:induction false} RunPaintable(base: Option<Shot>, p: Publication, shot: Shot, mid: ScanGrid, table: map<nat, Style>, i: nat)
    requires PublicationOf(base, p, shot) && i < |p.runs|
    requires PairedGrid(mid) && Sized(mid, p.rows, p.cols)
    requires p.kind.Delta? ==> GridShows(mid, table, PaintedOver(base, p))
    ensures Paintable(mid, SemanticRun(p, p.runs[i]))
  {
    hide Shows, ValidRow, CutsNothing, OrderedRuns;
    var run := SemanticRun(p, p.runs[i]);
    assert SemanticRuns(p)[i] == run;
    assert RunShowsGrid(run, shot.grid);
    if p.kind.Delta? {
      OverRowValid(base.value, p, run.row);
      CutsNoPair(mid[run.row], table, PaintedOver(base, p)[run.row], run.column, run.column + |run.cells|);
    }
  }

  lemma {:induction false} LeftOutSame(base: Option<Shot>, p: Publication, shot: Shot)
    requires PublicationOf(base, p, shot)
    ensures Sized(shot.grid, p.rows, p.cols)
    ensures forall i :: 0 <= i < |p.runs| ==> RunShowsGrid(SemanticRuns(p)[i], shot.grid)
    ensures p.kind.Keyframe? ==> forall r, c :: 0 <= r < p.rows && 0 <= c < p.cols ==> Covered(SemanticRuns(p), r, c)
    ensures p.kind.Delta? ==>
              && Sized(PaintedOver(base, p), p.rows, p.cols)
              && forall r, c :: 0 <= r < p.rows && 0 <= c < p.cols && !Covered(SemanticRuns(p), r, c) ==>
                   shot.grid[r][c] == PaintedOver(base, p)[r][c]
  {
    hide CutsNothing, OrderedRuns, Covered;
    var runs := SemanticRuns(p);
    if p.kind.Keyframe? {
      forall r, c | 0 <= r < p.rows && 0 <= c < p.cols ensures Covered(runs, r, c) {
        WholeRowCovered(p, runs, r, c);
      }
    } else {
      var over := PaintedOver(base, p);
      forall r | 0 <= r < p.rows ensures |over[r]| == p.cols {
        OverRowValid(base.value, p, r);
      }
    }
  }

  lemma {:induction false} WholeRowCovered(p: Publication, runs: seq<Run>, r: nat, c: nat)
    requires KeyframeRuns(p, runs) && r < p.rows && c < p.cols
    ensures Covered(runs, r, c)
  {
    assert Covered(runs, r, 0);
    var i :| 0 <= i < |runs| && RunHas(runs[i], r, 0);
    assert RunHas(runs[i], r, c);
  }

  /** The pipeline's centre: a publication compiled for this client is accepted
      whole, and leaves it showing what the publication shows. */
  lemma {:induction false} DeliveryShows(c: Client, base: Option<Shot>, p: Publication, shot: Shot,
                                         frame: seq<Command<Text>>, ids: map<Style, nat>, next: nat)
    requires PublicationOf(base, p, shot) && FrameDenotes(c.stream, frame, p, ids, next)
    requires CacheOk(c, p.rows, p.cols)
    requires TableCovers(c.table, if p.barrier then DEFAULT_STYLES else c.stream.styles)
    requires p.kind.Keyframe? || (base.Some? && !p.barrier && ClientShows(c, base.value))
    requires p.cursorChanged || (base.Some? && c.stream.cursor == base.value.cursor)
    ensures Deliver(c, frame).Some?
    ensures var d := Deliver(c, frame).value; CacheOk(d, p.rows, p.cols) && ClientShows(d, shot) && InSync(d.stream, p, ids, next)
    ensures Deliver(c, frame).value.stream.revision == if p.barrier then p.revision else c.stream.revision
  {
    hide *;
    var after := FrameMeans(c.stream, frame, p, ids, next);
    PaintingShows(c, base, p, shot, after.styles, after.canvas.writes);
    CursorShown(c.stream.cursor, base, p, shot);
    Delivered(c, frame, p, shot, after, ids, next);
  }

  lemma {:induction false} CursorShown(cursor: CursorUpdate, base: Option<Shot>, p: Publication, shot: Shot)
    requires PublicationOf(base, p, shot) && (p.cursorChanged || (base.Some? && cursor == base.value.cursor))
    ensures (if p.cursorChanged then p.cursor else cursor) == shot.cursor
  {
    hide *;
    CursorOf(base, p, shot);
  }

  lemma {:induction false} CursorOf(base: Option<Shot>, p: Publication, shot: Shot)
    requires PublicationOf(base, p, shot)
    ensures if p.cursorChanged then p.cursor == shot.cursor else base.Some? && base.value.cursor == shot.cursor
    ensures p.kind.Delta? ==> base.Some? && (p.scroll.Some? ==> 0 <= p.scroll.value.top && p.scroll.value.bottom <= |base.value.grid|)
  {
    hide OrderedRuns, RunShowsGrid, KeyframeRuns, DeltaRuns;
  }

  lemma {:induction false} FrameMeans(client: DisplayState, frame: seq<Command<Text>>, p: Publication, ids: map<Style, nat>, next: nat)
    returns (after: DisplayState)
    requires FrameDenotes(client, frame, p, ids, next)
    ensures ExecAll(BeginFrame(client), frame) == Some(after)
    ensures after.hasBarrier && after.canvas.cols == p.cols && after.canvas.rows == p.rows && after.scroll == p.scroll
    ensures after.revision == if p.barrier then p.revision else client.revision
    ensures FulfilsAll(after.canvas.writes, RunsWants(SemanticRuns(p)), after.styles)
    ensures after.cursor == if p.cursorChanged then p.cursor else client.cursor
    ensures Linked(ids, next, after.styles)
    ensures InstallsCover(if p.barrier then DEFAULT_STYLES else client.styles, after.installs, after.styles)
    ensures TableCovers(after.styles, if p.barrier then DEFAULT_STYLES else client.styles)
  {
    hide ExecAll, FulfilsAll, InstallsCover, TableCovers, Linked;
    after := ExecAll(BeginFrame(client), frame).value;
  }

  /** Writing the runs of a publication shows its grid. */
  lemma {:induction false} PaintingShows(c: Client, base: Option<Shot>, p: Publication, shot: Shot, styles: map<nat, Style>, writes: seq<Write>)
    requires PublicationOf(base, p, shot) && CacheOk(c, p.rows, p.cols)
    requires FulfilsAll(writes, RunsWants(SemanticRuns(p)), styles)
    requires p.kind.Keyframe? || (base.Some? && ClientShows(c, base.value) && TableCovers(styles, c.stream.styles))
    ensures var out := PaintAll(CacheScrolled(c.cache, p.scroll, c.cols), writes);
            out.Some? && PairedGrid(out.value) && Sized(out.value, p.rows, p.cols) && GridShows(out.value, styles, shot.grid)
  {
    hide Shows, RunsWants, FulfilsAll, WellFormed, GridOk, KeyframeRuns, DeltaRuns, RunsPainted, PaintAll, OrderedRuns, Paintable;
    var runs := SemanticRuns(p);
    var mid := CacheScrolled(c.cache, p.scroll, c.cols);
    assert p.kind.Keyframe? ==> p.scroll.None? by { KeyframeUnscrolled(p, runs); }
    ScrolledCache(c, base, p, styles);
    forall i | 0 <= i < |runs| ensures Paintable(mid, runs[i]) {
      RunPaintable(base, p, shot, mid, styles, i);
    }
    PaintRuns(mid, styles, runs, writes);
    var out := PaintAll(mid, writes).value;
    PaintKeepsPairs(mid, writes);
    PaintedSize(mid, out, styles, runs, p.rows, p.cols);
    LeftOutSame(base, p, shot);
    CursorOf(base, p, shot);
    var over := if p.kind.Delta? then PaintedOver(base, p) else shot.grid;
    RunsShow(mid, out, styles, runs, shot.grid, over, p.kind.Keyframe?, p.cols);
  }

  lemma {:induction false} Delivered(c: Client, frame: seq<Command<Text>>, p: Publication, shot: Shot, after: DisplayState,
                                     ids: map<Style, nat>, next: nat)
    requires ExecAll(BeginFrame(c.stream), frame) == Some(after) && after.hasBarrier && CacheOk(c, p.rows, p.cols)
    requires after.canvas.cols == p.cols && after.canvas.rows == p.rows && after.scroll == p.scroll && after.cursor == shot.cursor
    requires after.revision == if p.barrier then p.revision else c.stream.revision
    requires PaintAll(CacheScrolled(c.cache, p.scroll, c.cols), after.canvas.writes).Some?
    requires var out := PaintAll(CacheScrolled(c.cache, p.scroll, c.cols), after.canvas.writes).value;
             PairedGrid(out) && Sized(out, p.rows, p.cols) && GridShows(out, after.styles, shot.grid)
    requires TableCovers(c.table, if p.barrier then DEFAULT_STYLES else c.stream.styles)
    requires InstallsCover(if p.barrier then DEFAULT_STYLES else c.stream.styles, after.installs, after.styles)
    requires Linked(ids, next, after.styles)
    ensures Deliver(c, frame).Some?
    ensures var d := Deliver(c, frame).value; CacheOk(d, p.rows, p.cols) && ClientShows(d, shot) && InSync(d.stream, p, ids, next)
    ensures Deliver(c, frame).value.stream.revision == if p.barrier then p.revision else c.stream.revision
  {
    hide ExecAll, PaintAll, CacheScrolled, GridShows, TableCovers, PairedGrid, Sized, Installed;
    RowsAndColumns(c.cache, p.rows, p.cols);
    LinkedDefault(ids, next, after.styles);
  }

  lemma {:induction false} KeyframeUnscrolled(p: Publication, runs: seq<Run>)
    ensures KeyframeRuns(p, runs) ==> p.scroll.None?
  {
  }

  lemma {:induction false} PaintedSize(mid: ScanGrid, out: ScanGrid, table: map<nat, Style>, runs: seq<Run>, rows: nat, cols: nat)
    requires RunsPainted(mid, out, table, runs) && Sized(mid, rows, cols)
    ensures Sized(out, rows, cols)
  {
  }

  lemma {:induction false} LinkedDefault(ids: map<Style, nat>, next: nat, styles: map<nat, Style>)
    requires Linked(ids, next, styles)
    ensures DEFAULT_STYLE_ID in styles && styles[DEFAULT_STYLE_ID] == DEFAULT_STYLE
  {
  }

  // ------------------------------------------------- the client's own classes

  predicate NoWideSpace(w: Write) { w.text == [SPACE] ==> w.width == 1 }

  ghost predicate NoWideSpaces(writes: seq<Write>) {
    forall i :: 0 <= i < |writes| ==> NoWideSpace(writes[i])
  }

  /** The writes of a publication never hold a double-width space. */
  lemma {:induction false} NarrowWants(writes: seq<Write>, runs: seq<Run>, table: map<nat, Style>)
    requires FulfilsAll(writes, RunsWants(runs), table) && forall i :: 0 <= i < |runs| ==> ValidRow(runs[i].cells)
    ensures NoWideSpaces(writes)
    decreases |runs|
  {
    if runs == [] {
      assert RunsWants(runs) == [];
    } else {
      hide ValidRow, FulfilsAll, RunsWants, RunWants, NoWideSpaces;
      var init, last := runs[..|runs| - 1], runs[|runs| - 1];
      assert runs == init + [last];
      RunsWantsAppend(init, last);
      var early := RunsWants(init);
      SplitFulfils(writes, early, RunWants(last.row, last.column, last.cells), table);
      NarrowWants(writes[..|early|], init, table);
      NarrowRun(writes[|early|..], last.row, last.column, last.cells, |last.cells|, table);
      NarrowJoin(writes[..|early|], writes[|early|..]);
    }
  }

  lemma {:induction false} NarrowJoin(a: seq<Write>, b: seq<Write>)
    requires NoWideSpaces(a) && NoWideSpaces(b)
    ensures NoWideSpaces(a + b)
  {
  }

  lemma {:induction false} NarrowRun(writes: seq<Write>, row: nat, column: nat, cells: seq<Cell>, k: nat, table: map<nat, Style>)
    requires k <= |cells| && ValidRow(cells)
    requires FulfilsAll(writes, RunWants(row, column, cells[..k]), table) || (k == |cells| && FulfilsAll(writes, RunWants(row, column, cells), table))
    ensures NoWideSpaces(writes)
    decreases k
  {
    hide ValidRow, FulfilsAll, RunWants, StyleShows;
    if k == |cells| {
      assert cells[..k] == cells;
    }
    if k == 0 {
      NoWants(writes, row, column, cells, table);
    } else {
      LastWant(writes, row, column, cells, k, table);
      PairAt(cells, k - 1);
      if cells[k - 1].glyph.Continuation? {
        NarrowRun(writes, row, column, cells, k - 1, table);
      } else {
        NarrowRun(writes[..|writes| - 1], row, column, cells, k - 1, table);
        forall i | 0 <= i < |writes| ensures NoWideSpace(writes[i]) {
          assert i < |writes| - 1 ==> writes[i] == writes[..|writes| - 1][i];
        }
      }
    }
  }

  /** So none of the spans that stand for them is a fill of double-width spaces. */
  lemma {:induction false} NarrowSpanOf(spans: seq<Span>, i: nat)
    requires WholeSpans(spans) && NoWideSpaces(SpansWrites(spans)) && i < |spans|
    ensures NarrowSpaces(spans[i])
    decreases |spans|
  {
    var init, last := spans[..|spans| - 1], spans[|spans| - 1];
    var all, early := SpansWrites(spans), SpansWrites(init);
    if i < |init| {
      forall k | 0 <= k < |early| ensures NoWideSpace(early[k]) {
        assert all[k] == early[k];
      }
      NarrowSpanOf(init, i);
    } else if last.FillSpan? && last.fillRune == SPACE {
      var cells := Cells(last.columns, last.width);
      RuneWriteAt(last.row, last.column, Repeat(SPACE, cells), last.width, last.styleId, 0);
      assert all[|early|] == SpanWrites(last)[0];
      assert NoWideSpace(all[|early|]);
    }
  }

  // ----------------------------------------------- decoded frames stay inside

  predicate WriteFits(w: Write, rows: int, cols: int) {
    0 <= w.row < rows && 0 <= w.column && (w.width == 1 || w.width == 2) && w.column + w.width <= cols
  }

  ghost predicate AllFit(writes: seq<Write>, rows: int, cols: int) {
    forall i :: 0 <= i < |writes| ==> WriteFits(writes[i], rows, cols)
  }

  /** What the decoder lets through: text of one or two columns. */
  predicate Decoded(command: Command<Text>) {
    command.WriteText? ==> command.width == 1 || command.width == 2
  }

  ghost predicate AllDecoded(commands: seq<Command<Text>>) {
    forall i :: 0 <= i < |commands| ==> Decoded(commands[i])
  }

  lemma {:induction false} RunesFit(c: Canvas, text: Text, width: nat, id: nat)
    requires AllFit(c.writes, c.rows, c.cols) && (width == 1 || width == 2) && PutRunes(c, text, width, id).Some?
    ensures var after := PutRunes(c, text, width, id).value;
            after.rows == c.rows && after.cols == c.cols && AllFit(after.writes, c.rows, c.cols)
    decreases |text|
  {
    if text != [] {
      RunesFit(c.Put([text[0]], width, id).value, text[1..], width, id);
    }
  }

  lemma {:induction false} ExecFits(s: DisplayState, command: Command<Text>)
    requires AllFit(s.canvas.writes, s.canvas.rows, s.canvas.cols) && Decoded(command) && Exec(s, command).Some?
    ensures var after := Exec(s, command).value.canvas; AllFit(after.writes, after.rows, after.cols)
  {
    hide PutRunes, Repeat;
    match command
    case WriteText(width, text) => RunesFit(s.canvas, text, width, s.styleId);
    case WriteTextUtf8(text) => RunesFit(s.canvas, text, 1, s.styleId);
    case WriteTextUtf8Default(text) => RunesFit(s.canvas, text, 1, DEFAULT_STYLE_ID);
    case Fill(columns, r, width) => RunesFit(s.canvas, Repeat(r, Cells(columns, width)), width, s.styleId);
    case _ =>
  }

  lemma {:induction false} ExecAllFits(s: DisplayState, commands: seq<Command<Text>>)
    requires AllFit(s.canvas.writes, s.canvas.rows, s.canvas.cols) && AllDecoded(commands) && ExecAll(s, commands).Some?
    ensures var after := ExecAll(s, commands).value.canvas; AllFit(after.writes, after.rows, after.cols)
    decreases |commands|
  {
    hide Exec, AllFit;
    if commands != [] {
      ExecAllFits(s, commands[..|commands| - 1]);
      ExecFits(ExecAll(s, commands[..|commands| - 1]).value, commands[|commands| - 1]);
    }
  }

  lemma {:induction false} PaintFits(grid: ScanGrid, writes: seq<Write>, rows: int, cols: int)
    requires Sized(grid, rows, cols) && AllFit(writes, rows, cols)
    ensures PaintAll(grid, writes).Some?
    decreases |writes|
  {
    if writes != [] {
      PaintFits(grid, writes[..|writes| - 1], rows, cols);
      StaysSized(grid, writes[..|writes| - 1], rows, cols);
    }
  }

  /** The cells a span is cached as lie where its writes do. */
  lemma {:induction false} CachedFits(span: Span, rows: int, cols: int)
    requires WholeSpan(span) && AllFit(SpanWrites(span), rows, cols)
    ensures AllFit(CachedWrites(span), rows, cols) && 0 <= span.row < rows && 0 <= span.column < cols
    ensures span.width == 1 || span.width == 2
  {
    hide Repeat;
    if span.FillSpan? {
      var count, at := Cells(span.columns, span.width), span.column;
      WholeCount(span.columns, span.width);
      RepeatedWrites(span.row, at, count, span.fillRune, span.width, span.styleId);
      forall k | 0 <= k < count ensures WriteFits(CachedWrites(span)[k], rows, cols) {
        FillWriteAt(span.row, at, count, FillText(span.fillRune), span.width, span.styleId, k);
        FillWriteAt(span.row, at, count, [span.fillRune], span.width, span.styleId, k);
        assert WriteFits(SpanWrites(span)[k], rows, cols);
      }
      FillWriteAt(span.row, at, count, [span.fillRune], span.width, span.styleId, 0);
      assert WriteFits(SpanWrites(span)[0], rows, cols);
    } else if span.TextSpan? {
      RuneWriteAt(span.row, span.column, span.text, span.width, span.styleId, 0);
      assert WriteFits(SpanWrites(span)[0], rows, cols);
    } else {
      assert WriteFits(SpanWrites(span)[0], rows, cols);
    }
  }

  lemma {:induction false} ApplyFits(grid: ScanGrid, rows: nat, cols: nat, spans: seq<Span>)
    requires Sized(grid, rows, cols) && WholeSpans(spans) && AllFit(SpansWrites(spans), rows, cols)
    ensures ApplyAll(grid, rows, cols, spans).Some? && Sized(ApplyAll(grid, rows, cols, spans).value, rows, cols)
    ensures forall i :: 0 <= i < |spans| ==> spans[i].width == 1 || spans[i].width == 2
    decreases |spans|
  {
    hide PaintAll, SpanWrites, CachedWrites, WholeSpan, Sized;
    if spans != [] {
      var init, last := spans[..|spans| - 1], spans[|spans| - 1];
      var all := SpansWrites(spans);
      assert all == SpansWrites(init) + SpanWrites(last);
      forall i | 0 <= i < |SpansWrites(init)| ensures WriteFits(SpansWrites(init)[i], rows, cols) {
        assert all[i] == SpansWrites(init)[i];
      }
      forall i | 0 <= i < |SpanWrites(last)| ensures WriteFits(SpanWrites(last)[i], rows, cols) {
        assert all[|SpansWrites(init)| + i] == SpanWrites(last)[i];
      }
      ApplyFits(grid, rows, cols, init);
      CachedFits(last, rows, cols);
      var mid := ApplyAll(grid, rows, cols, init).value;
      PaintFits(mid, CachedWrites(last), rows, cols);
      StaysSized(mid, CachedWrites(last), rows, cols);
    }
  }

  lemma {:induction false} ScrolledSize(cache: ScanGrid, scroll: Option<ScrollRegion>, rows: nat, cols: nat)
    requires Sized(cache, rows, cols)
    ensures Sized(CacheScrolled(cache, scroll, cols), rows, cols)
  {
  }

  /** A decoded frame of the slot's size is never refused. */
  lemma {:induction false} SlotFrameAccepted(c: Client, frame: seq<Command<Text>>)
    requires Sized(c.cache, |c.cache|, c.cols) && AllDecoded(frame) && ExecAll(BeginFrame(c.stream), frame).Some?
    ensures var after := ExecAll(BeginFrame(c.stream), frame).value;
            && AllFit(after.canvas.writes, after.canvas.rows, after.canvas.cols)
            && (after.hasBarrier && MatchesSlot(c, after) <==> Deliver(c, frame).Some?)
  {
    hide ExecAll, PaintAll, CacheScrolled, Sized;
    var after := ExecAll(BeginFrame(c.stream), frame).value;
    ExecAllFits(BeginFrame(c.stream), frame);
    hide AllFit;
    if MatchesSlot(c, after) {
      ScrolledSize(c.cache, after.scroll, |c.cache|, c.cols);
      PaintFits(CacheScrolled(c.cache, after.scroll, c.cols), after.canvas.writes, |c.cache|, c.cols);
    }
  }

  /** The frames the layout stage lets through to a slot are those its cache accepts:
      a decoded frame, announced with the grid it was decoded for, fits the slot's
      place exactly if its delivery is not refused. */
  lemma {:induction false} FittingAccepted(c: Client, frame: seq<Command<Text>>, revision: nat, place: Activation.Rect)
    requires Sized(c.cache, |c.cache|, c.cols) && AllDecoded(frame) && ExecAll(BeginFrame(c.stream), frame).Some?
    requires place.width == c.cols && place.height == |c.cache|
    ensures var after := ExecAll(BeginFrame(c.stream), frame).value;
            after.hasBarrier && after.canvas.cols != 0 ==>
              (Activation.Matches(Activation.Frame(revision, after.canvas.cols, after.canvas.rows, frame), place) <==> Deliver(c, frame).Some?)
  {
    SlotFrameAccepted(c, frame);
    hide Deliver, ExecAll;
  }

  /** One slot of the client: stream decoder, cache and installed styles. */
  class SlotView {
    var stream: DisplayFrameCompiler
    const cache: PaneScanoutCache
    var table: map<nat, Style>

    ghost predicate Valid()
      reads this, cache, cache.cells
    {
      cache.Valid()
    }

    /** What the client model sees of the slot. */
    ghost function View(): Client
      reads this, stream, cache
    {
      Client(stream.State(), cache.grid, cache.cols, table)
    }

    constructor (cache: PaneScanoutCache)
      requires cache.Valid()
      ensures Valid() && this.cache == cache && table == DEFAULT_STYLES && fresh(stream)
    {
      this.cache, table := cache, DEFAULT_STYLES;
      stream := new DisplayFrameCompiler();
    }

    /** A frame is decoded on a copy of the stream; if it has the slot's size, its
        styles, scroll and spans go to the slot, which never fails. Only a double-width
        space, which no server sends, is cached as another text than it means. */
    method EmitFrame(commands: seq<Command<Text>>) returns (ok: bool)
      requires Valid() && WholeSpans(stream.spans) && AllDecoded(commands)
      modifies this, cache, cache.cells
      ensures Valid() && WholeSpans(stream.spans)
      ensures ok <==> Deliver(old(View()), commands).Some?
      ensures ok ==>
                var d := Deliver(old(View()), commands).value;
                && View() == d.(cache := cache.grid)
                && ApplyAll(CacheScrolled(old(cache.grid), d.stream.scroll, cache.cols), cache.rows, cache.cols, stream.spans) == Some(cache.grid)
                && (NoWideSpaces(d.stream.canvas.writes) ==> View() == d)
      ensures !ok ==> cache.grid == old(cache.grid) && table == old(table)
    {
      hide PaintAll, ExecAll, SpansWrites, NoWideSpaces, WholeSpans, NarrowSpaces, Installed, ApplyAll, AllFit, CacheScrolled, AllDecoded;
      var staged := new DisplayFrameCompiler.Staged(stream);
      ok := staged.Interpret(commands);
      if !ok {
        return;
      }
      ghost var client := View();
      ghost var after := staged.State();
      SlotFrameAccepted(client, commands);
      stream := staged;
      if staged.cols != cache.cols || staged.rows != cache.rows {
        return false;
      }
      ghost var grid := CacheScrolled(cache.grid, after.scroll, cache.cols);
      ScrolledSize(cache.grid, after.scroll, cache.rows, cache.cols);
      ApplyFits(grid, cache.rows, cache.cols, staged.spans);
      AppliedAsMeant(grid, cache.rows, cache.cols, staged.spans, after.canvas.writes);
      table := InstallAll(table, staged.installs);
      if staged.scroll.Some? {
        cache.ScrollBy(staged.scroll.value);
      }
      SameRegion(cache, client.cache, staged.scroll);
      var touched;
      ok, touched := cache.ApplySpans(staged.spans);
    }

    static lemma {:induction false} AppliedAsMeant(grid: ScanGrid, rows: nat, cols: nat, spans: seq<Span>, writes: seq<Write>)
      requires Sized(grid, rows, cols) && WholeSpans(spans) && SpansWrites(spans) == writes
      ensures NoWideSpaces(writes) ==> ApplyAll(grid, rows, cols, spans) == PaintAll(grid, writes)
    {
      hide ApplyAll, PaintAll, SpansWrites, NarrowSpaces;
      if NoWideSpaces(writes) {
        forall i | 0 <= i < |spans| ensures NarrowSpaces(spans[i]) {
          NarrowSpanOf(spans, i);
        }
        ApplyIsPaint(grid, rows, cols, spans);
      }
    }

    static lemma {:induction false} SameRegion(cache: PaneScanoutCache, was: ScanGrid, scroll: Option<ScrollRegion>)
      requires cache.Valid() && |was| == cache.rows
      requires cache.grid == if scroll.Some? && Legal(scroll.value, cache.rows) then ScrollScan(was, scroll, cache.cols) else was
      ensures cache.grid == CacheScrolled(was, scroll, cache.cols)
    {
    }

    static method InstallAll(table: map<nat, Style>, installs: seq<StyleDefinition>) returns (out: map<nat, Style>)
      ensures out == Installed(table, installs)
    {
      out := table;
      var i := 0;
      while i < |installs|
        invariant 0 <= i <= |installs| && out == Installed(table, installs[..i])
      {
        assert installs[..i + 1][..i] == installs[..i];
        out := out[installs[i].id := installs[i].style];
        i := i + 1;
      }
      assert installs[..i] == installs;
    }
  }
}
