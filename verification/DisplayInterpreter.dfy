/** The client's side of a render stream: display commands become paint spans.
    `Exec` gives commands their meaning cell by cell; the class interprets them
    the way the client does, gathering wrapped text and fills into spans. */
module DisplayInterpreter {
  import opened Display

  datatype Command<+T> =
    | StartRender(revision: nat, gridCols: int, gridRows: int)
    | StyleInstall(styleId: nat, style: Style)
    | SetWritePosition(row: int, column: int)
    | SetWriteStyle(penId: nat)
    | WriteText(width: nat, text: T)
    | WriteTextUtf8(text: T)
    | WriteTextUtf8Default(text: T)
    | Fill(columns: int, fillRune: Rune, width: nat)
    | UpdateCursor(update: CursorUpdate)
    | Scroll(region: ScrollRegion)
    | WriteCluster(width: nat, text: T)

  // ------------------------------------------------------------ the canvas

  /** One cell painted on the grid; a width-2 write also owns the next column. */
  datatype Write = Write(row: int, column: int, text: Text, width: nat, styleId: nat)

  /** The write position on a grid and everything written so far. */
  datatype Canvas = Canvas(cols: int, rows: int, row: int, column: int, writes: seq<Write>)
  {
    predicate RequireCell(width: int) {
      0 < width && 0 <= row < rows && 0 <= column && column + width <= cols
    }

    function Advance(columns: int): Canvas {
      if column + columns == cols then this.(row := row + 1, column := 0)
      else this.(column := column + columns)
    }

    function Put(text: Text, width: nat, id: nat): Option<Canvas> {
      if RequireCell(width)
      then Some(this.(writes := writes + [Write(row, column, text, width, id)]).Advance(width))
      else None
    }
  }

  function PutRunes(c: Canvas, text: Text, width: nat, id: nat): Option<Canvas>
    decreases |text|
  {
    if text == [] then Some(c)
    else match c.Put([text[0]], width, id)
      case None => None
      case Some(next) => PutRunes(next, text[1..], width, id)
  }

  function Repeat(r: Rune, count: nat): (text: Text)
    ensures |text| == count
    ensures forall i :: 0 <= i < count ==> text[i] == r
  {
    seq(count, _ => r)
  }

  /** `width` is a legal cell width and divides the columns; and how many cells that is. */
  predicate WholeCells(columns: int, width: nat) {
    width == 1 || (width == 2 && columns % 2 == 0)
  }

  function Cells(columns: nat, width: nat): nat {
    if width == 2 then columns / 2 else columns
  }

  predicate ValidFill(columns: int, width: nat) {
    0 < columns && WholeCells(columns, width)
  }

  lemma {:induction false} PutRunesAppend(c: Canvas, a: Text, b: Text, width: nat, id: nat)
    ensures PutRunes(c, a + b, width, id) ==
            match PutRunes(c, a, width, id) { case None => None case Some(t) => PutRunes(t, b, width, id) }
    decreases |a|
  {
    if a == [] {
      assert a + b == b;
    } else {
      assert (a + b)[1..] == a[1..] + b;
      var next := c.Put([a[0]], width, id);
      if next.Some? {
        PutRunesAppend(next.value, a[1..], b, width, id);
      }
    }
  }

  lemma {:induction false} PutOne(c: Canvas, r: Rune, width: nat, id: nat)
    ensures PutRunes(c, [r], width, id) == c.Put([r], width, id)
  {
    assert [r][1..] == [];
  }

  // ------------------------------------------------------- command meaning

  datatype StyleDefinition = StyleDefinition(id: nat, style: Style)

  datatype DisplayState = DisplayState(
    revision: nat, hasBarrier: bool, canvas: Canvas, styleId: nat, styles: map<nat, Style>,
    cursor: CursorUpdate, cursorUpdated: bool, paintStarted: bool,
    installs: seq<StyleDefinition>, scroll: Option<ScrollRegion>)

  const DEFAULT_STYLES: map<nat, Style> := map[DEFAULT_STYLE_ID := DEFAULT_STYLE]

  function Painted(s: DisplayState, canvas: Option<Canvas>): Option<DisplayState> {
    match canvas
    case None => None
    case Some(after) => Some(s.(canvas := after, paintStarted := true))
  }

  /** The meaning of one command; none where the client refuses it. */
  function Exec(s: DisplayState, command: Command<Text>): Option<DisplayState> {
    if command.StartRender? then
      if 0 < command.gridCols <= MAX_GRID && 0 < command.gridRows <= MAX_GRID then
        Some(DisplayState(command.revision, true, Canvas(command.gridCols, command.gridRows, 0, 0, []),
                          DEFAULT_STYLE_ID, DEFAULT_STYLES, s.cursor, s.cursorUpdated, false, [], None))
      else None
    else if !s.hasBarrier then None
    else match command
      case StyleInstall(id, style) =>
        if id == DEFAULT_STYLE_ID && style != DEFAULT_STYLE then None
        else if id in s.styles && s.styles[id] != style then None
        else Some(s.(styles := s.styles[id := style], installs := s.installs + [StyleDefinition(id, style)]))
      case SetWritePosition(row, column) =>
        if 0 <= row < s.canvas.rows && 0 <= column < s.canvas.cols
        then Some(s.(canvas := s.canvas.(row := row, column := column)))
        else None
      case SetWriteStyle(id) =>
        if id in s.styles then Some(s.(styleId := id)) else None
      case WriteText(width, text) => Painted(s, PutRunes(s.canvas, text, width, s.styleId))
      case WriteTextUtf8(text) => Painted(s, PutRunes(s.canvas, text, 1, s.styleId))
      case WriteTextUtf8Default(text) => Painted(s, PutRunes(s.canvas, text, 1, DEFAULT_STYLE_ID))
      case WriteCluster(width, text) =>
        if text == [] || (width != 1 && width != 2) then None
        else Painted(s, s.canvas.Put(text, width, s.styleId))
      case Fill(columns, r, width) =>
        if !ValidFill(columns, width) then None
        else Painted(s, PutRunes(s.canvas, Repeat(r, Cells(columns, width)), width, s.styleId))
      case UpdateCursor(update) => Some(s.(cursor := update, cursorUpdated := true))
      case Scroll(region) =>
        if s.paintStarted || s.scroll.Some? || !LegalScroll(region, s.canvas.rows) then None
        else Some(s.(scroll := Some(region)))
  }

  function ExecAll(s: DisplayState, commands: seq<Command<Text>>): Option<DisplayState>
    decreases |commands|
  {
    if commands == [] then Some(s)
    else match ExecAll(s, commands[..|commands| - 1])
      case None => None
      case Some(before) => Exec(before, commands[|commands| - 1])
  }

  lemma {:induction false} ExecAllAppend(s: DisplayState, commands: seq<Command<Text>>, last: Command<Text>)
    ensures ExecAll(s, commands + [last]) ==
            match ExecAll(s, commands) { case None => None case Some(before) => Exec(before, last) }
  {
    assert (commands + [last])[..|commands|] == commands;
  }

  /** Until the next barrier an installed style stays what it is, the default style is
      the default, and nothing at all is accepted before the first barrier. */
  lemma {:induction false} StylesStay(s: DisplayState, commands: seq<Command<Text>>)
    requires ExecAll(s, commands).Some? && forall i :: 0 <= i < |commands| ==> !commands[i].StartRender?
    ensures var t := ExecAll(s, commands).value;
            && (forall id :: id in s.styles ==> id in t.styles && t.styles[id] == s.styles[id])
            && (DEFAULT_STYLE_ID in t.styles && DEFAULT_STYLE_ID !in s.styles ==> t.styles[DEFAULT_STYLE_ID] == DEFAULT_STYLE)
            && t.revision == s.revision && t.canvas.cols == s.canvas.cols && t.canvas.rows == s.canvas.rows
            && (commands != [] ==> s.hasBarrier) && t.hasBarrier == s.hasBarrier
    decreases |commands|
  {
    if commands != [] {
      StylesStay(s, commands[..|commands| - 1]);
      OneStays(ExecAll(s, commands[..|commands| - 1]).value, commands[|commands| - 1]);
      hide Exec;
    }
  }

  lemma {:induction false} OneStays(s: DisplayState, command: Command<Text>)
    requires Exec(s, command).Some? && !command.StartRender?
    ensures var t := Exec(s, command).value;
            && (forall id :: id in s.styles ==> id in t.styles && t.styles[id] == s.styles[id])
            && (DEFAULT_STYLE_ID in t.styles && DEFAULT_STYLE_ID !in s.styles ==> t.styles[DEFAULT_STYLE_ID] == DEFAULT_STYLE)
            && t.revision == s.revision && t.canvas.cols == s.canvas.cols && t.canvas.rows == s.canvas.rows
            && s.hasBarrier && t.hasBarrier
  {
    hide PutRunes, Repeat;
    match command
    case WriteText(width, text) => SameSize(s.canvas, text, width, s.styleId);
    case WriteTextUtf8(text) => SameSize(s.canvas, text, 1, s.styleId);
    case WriteTextUtf8Default(text) => SameSize(s.canvas, text, 1, DEFAULT_STYLE_ID);
    case Fill(columns, r, width) => SameSize(s.canvas, Repeat(r, Cells(columns, width)), width, s.styleId);
    case _ =>
  }

  lemma {:induction false} SameSize(c: Canvas, text: Text, width: nat, id: nat)
    requires PutRunes(c, text, width, id).Some?
    ensures PutRunes(c, text, width, id).value.cols == c.cols && PutRunes(c, text, width, id).value.rows == c.rows
    decreases |text|
  {
    if text != [] {
      SameSize(c.Put([text[0]], width, id).value, text[1..], width, id);
    }
  }

  /** What a stream keeps between frames, as `beginFrame` copies it. */
  function BeginFrame(s: DisplayState): DisplayState {
    s.(cursorUpdated := false, paintStarted := false, installs := [], scroll := None, canvas := s.canvas.(writes := []))
  }

  // ----------------------------------------------------------------- spans

  datatype Span =
    | TextSpan(row: int, column: int, styleId: nat, width: nat, text: Text)
    | ClusterSpan(row: int, column: int, styleId: nat, width: nat, text: Text)
    | FillSpan(row: int, column: int, styleId: nat, width: nat, fillRune: Rune, columns: nat)

  /** The columns `count` cells of one width take. */
  function Columns(count: nat, width: nat): nat {
    if count == 0 then 0 else Columns(count - 1, width) + width
  }

  lemma {:induction false} ColumnsOfFill(count: nat, width: nat)
    requires width == 1 || width == 2
    ensures Columns(count, width) == if width == 2 then 2 * count else count
  {
    if count > 0 {
      ColumnsOfFill(count - 1, width);
    }
  }

  function RuneWrites(row: int, column: int, text: Text, width: nat, id: nat): seq<Write>
    decreases |text|
  {
    if text == [] then []
    else RuneWrites(row, column, text[..|text| - 1], width, id)
           + [Write(row, column + Columns(|text| - 1, width), [text[|text| - 1]], width, id)]
  }

  function SpanWrites(span: Span): seq<Write> {
    match span
    case TextSpan(row, column, id, width, text) => RuneWrites(row, column, text, width, id)
    case ClusterSpan(row, column, id, width, text) => [Write(row, column, text, width, id)]
    case FillSpan(row, column, id, width, r, columns) =>
      RuneWrites(row, column, Repeat(r, Cells(columns, width)), width, id)
  }

  /** A span paints something and holds whole cells only. */
  predicate WholeSpan(span: Span) {
    match span
    case TextSpan(_, _, _, _, text) => text != []
    case ClusterSpan(_, _, _, _, text) => text != []
    case FillSpan(_, _, _, width, _, columns) => ValidFill(columns, width)
  }

  ghost predicate WholeSpans(spans: seq<Span>) {
    forall i :: 0 <= i < |spans| ==> WholeSpan(spans[i])
  }

  function SpansWrites(spans: seq<Span>): seq<Write>
    decreases |spans|
  {
    if spans == [] then [] else SpansWrites(spans[..|spans| - 1]) + SpanWrites(spans[|spans| - 1])
  }

  lemma {:induction false} SpansWritesAppend(spans: seq<Span>, span: Span)
    ensures SpansWrites(spans + [span]) == SpansWrites(spans) + SpanWrites(span)
  {
    assert (spans + [span])[..|spans|] == spans;
  }

  lemma {:induction false} RuneWritesAppend(row: int, column: int, text: Text, r: Rune, width: nat, id: nat)
    ensures RuneWrites(row, column, text + [r], width, id)
         == RuneWrites(row, column, text, width, id) + [Write(row, column + Columns(|text|, width), [r], width, id)]
  {
    assert (text + [r])[..|text|] == text;
  }

  /** Runes that fit on the rest of the row are written there side by side. */
  lemma {:induction false} PutRunesInRow(c: Canvas, text: Text, width: nat, id: nat)
    requires text != [] && 0 < width
    requires 0 <= c.row < c.rows && 0 <= c.column && c.column + Columns(|text|, width) <= c.cols
    ensures PutRunes(c, text, width, id) ==
            Some(c.(writes := c.writes + RuneWrites(c.row, c.column, text, width, id)).Advance(Columns(|text|, width)))
    decreases |text|
  {
    var init, last := text[..|text| - 1], text[|text| - 1];
    assert text == init + [last];
    RuneWritesAppend(c.row, c.column, init, last, width, id);
    PutRunesAppend(c, init, [last], width, id);
    var here := c.(writes := c.writes + RuneWrites(c.row, c.column, init, width, id),
                   column := c.column + Columns(|init|, width));
    assert PutRunes(c, init, width, id) == Some(here) by {
      if init != [] {
        PutRunesInRow(c, init, width, id);
      } else {
        assert c.writes + RuneWrites(c.row, c.column, init, width, id) == c.writes;
      }
    }
    PutOne(here, last, width, id);
    var all := RuneWrites(c.row, c.column, text, width, id);
    assert here.writes + [Write(here.row, here.column, [last], width, id)] == c.writes + all;
  }

  // -------------------------------------------------------- the interpreter

  /** `displayFrameCompiler`: the frame under construction on one output slot. */
  class DisplayFrameCompiler {
    var revision: nat
    var hasBarrier: bool
    var cols: int
    var rows: int
    var row: int
    var column: int
    var styleId: nat
    var styles: map<nat, Style>
    var cursor: CursorUpdate
    var cursorUpdated: bool
    var paintStarted: bool
    var installs: seq<StyleDefinition>
    var scroll: Option<ScrollRegion>
    var spans: seq<Span>

    function Board(): Canvas
      reads `cols, `rows, `row, `column, `spans
    {
      Canvas(cols, rows, row, column, SpansWrites(spans))
    }

    function State(): DisplayState
      reads this
    {
      DisplayState(revision, hasBarrier, Board(), styleId, styles, cursor, cursorUpdated, paintStarted, installs, scroll)
    }

    /** A new slot: no barrier yet, default styles, visible cursor. */
    constructor ()
      ensures WholeSpans(spans)
      ensures State() == DisplayState(0, false, Canvas(0, 0, 0, 0, []), DEFAULT_STYLE_ID, DEFAULT_STYLES,
                                      CursorUpdate(Cursor(0, 0), true), false, false, [], None)
    {
      revision, hasBarrier, cols, rows, row, column := 0, false, 0, 0, 0, 0;
      styleId, styles, cursor, cursorUpdated := DEFAULT_STYLE_ID, DEFAULT_STYLES, CursorUpdate(Cursor(0, 0), true), false;
      paintStarted, installs, scroll, spans := false, [], None, [];
    }

    /** The working copy of a stream for its next frame. */
    constructor Staged(c: DisplayFrameCompiler)
      ensures WholeSpans(spans)
      ensures State() == BeginFrame(c.State())
    {
      revision, hasBarrier, cols, rows, row, column := c.revision, c.hasBarrier, c.cols, c.rows, c.row, c.column;
      styleId, styles, cursor, cursorUpdated := c.styleId, c.styles, c.cursor, false;
      paintStarted, installs, scroll, spans := false, [], None, [];
    }

    /** Text wraps at the right edge; every row it touches becomes one span. */
    method AppendText(text: Text, width: nat, id: nat) returns (ok: bool)
      requires WholeSpans(spans)
      modifies `row, `column, `spans
      ensures ok ==> WholeSpans(spans)
      ensures ok <==> PutRunes(old(Board()), text, width, id).Some?
      ensures ok ==> Board() == PutRunes(old(Board()), text, width, id).value
    {
      hide PutRunes, SpansWrites, RuneWrites, Columns;
      ghost var start := Board();
      ghost var here, segment := start, [];
      NoRunes(start, row, column, width, id);
      var segmentStart, offset := 0, 0;
      var segmentRow, segmentColumn := row, column;
      while offset < |text|
        invariant 0 <= segmentStart <= offset <= |text|
        invariant segment == text[segmentStart..offset] && WholeSpans(spans)
        invariant row == segmentRow && column == segmentColumn + Columns(|segment|, width)
        invariant PutRunes(here, text[offset..], width, id) == PutRunes(start, text, width, id)
        invariant here == Canvas(cols, rows, row, column,
                                 SpansWrites(spans) + RuneWrites(segmentRow, segmentColumn, segment, width, id))
      {
        NextRune(here, text, segmentStart, offset, width, id);
        if width <= 0 || row < 0 || row >= rows || column < 0 || column + width > cols {
          return false;
        }
        ghost var r := text[offset];
        AfterRune(here, spans, segmentRow, segmentColumn, segment, r, width, id);
        here := here.Put([r], width, id).value;
        segment := segment + [r];
        offset := offset + 1;
        column := column + width;
        if column == cols {
          row, column := row + 1, 0;
          spans := spans + [TextSpan(segmentRow, segmentColumn, id, width, text[segmentStart..offset])];
          segmentStart, segment := offset, [];
          segmentRow, segmentColumn := row, column;
        }
      }
      NoRunes(here, segmentRow, segmentColumn, width, id);
      assert text[offset..] == [];
      if segmentStart < |text| {
        assert text[segmentStart..] == segment;
        SpansWritesAppend(spans, TextSpan(segmentRow, segmentColumn, id, width, segment));
        spans := spans + [TextSpan(segmentRow, segmentColumn, id, width, text[segmentStart..])];
      }
      assert here.writes == SpansWrites(spans);
      return true;
    }

    static lemma {:induction false} NoRunes(c: Canvas, row: int, column: int, width: nat, id: nat)
      ensures Columns(0, width) == 0 && RuneWrites(row, column, [], width, id) == [] && c.writes + [] == c.writes
      ensures PutRunes(c, [], width, id) == Some(c)
    {
    }

    /** The canvas after one more rune, whether or not it closes its row. */
    static lemma {:induction false} AfterRune(here: Canvas, spans: seq<Span>, row: int, column: int, segment: Text, r: Rune,
                           width: nat, id: nat)
      requires here.RequireCell(width) && here.row == row && here.column == column + Columns(|segment|, width)
      requires here.writes == SpansWrites(spans) + RuneWrites(row, column, segment, width, id)
      ensures here.column + width == column + Columns(|segment + [r]|, width)
      ensures here.column + width != here.cols ==>
                here.Put([r], width, id) ==
                Some(Canvas(here.cols, here.rows, row, here.column + width,
                            SpansWrites(spans) + RuneWrites(row, column, segment + [r], width, id)))
      ensures here.column + width == here.cols ==>
                here.Put([r], width, id) ==
                Some(Canvas(here.cols, here.rows, row + 1, 0,
                            SpansWrites(spans + [TextSpan(row, column, id, width, segment + [r])])
                            + RuneWrites(row + 1, 0, [], width, id)))
    {
      RuneWritesAppend(row, column, segment, r, width, id);
      SpansWritesAppend(spans, TextSpan(row, column, id, width, segment + [r]));
      var earlier := SpansWrites(spans);
      var before, now := RuneWrites(row, column, segment, width, id), RuneWrites(row, column, segment + [r], width, id);
      assert here.column == column + Columns(|segment|, width);
      assert RuneWrites(row + 1, 0, [], width, id) == [];
      hide RuneWrites, SpansWrites;
      OneMore(earlier, before, now, Write(row, here.column, [r], width, id));
    }

    static lemma {:induction false} OneMore<T>(earlier: seq<T>, before: seq<T>, now: seq<T>, x: T)
      requires now == before + [x]
      ensures earlier + before + [x] == earlier + now && earlier + now + [] == earlier + now
    {
    }

    static lemma {:induction false} NextRune(here: Canvas, text: Text, from: nat, offset: nat, width: nat, id: nat)
      requires from <= offset < |text|
      ensures text[from..offset + 1] == text[from..offset] + [text[offset]]
      ensures PutRunes(here, text[offset..], width, id) ==
              match here.Put([text[offset]], width, id) {
                case None => None
                case Some(next) => PutRunes(next, text[offset + 1..], width, id) }
    {
      assert text[offset..][1..] == text[offset + 1..];
    }

    /** A fill becomes one span a row and never splits a wide cell. */
    method AppendFill(columns: int, r: Rune, width: nat) returns (ok: bool)
      requires WholeSpans(spans)
      modifies `row, `column, `spans
      ensures ok ==> WholeSpans(spans)
      ensures ok <==> ValidFill(columns, width)
                      && PutRunes(old(Board()), Repeat(r, Cells(columns, width)), width, styleId).Some?
      ensures ok ==> Board() == PutRunes(old(Board()), Repeat(r, Cells(columns, width)), width, styleId).value
    {
      if columns <= 0 || !WholeCells(columns, width) {
        return false;
      }
      ok := FillRows(columns, r, width, styleId);
    }

    method FillRows(columns: nat, r: Rune, width: nat, id: nat) returns (ok: bool)
      requires WholeCells(columns, width)
      requires WholeSpans(spans)
      modifies `row, `column, `spans
      ensures ok ==> WholeSpans(spans)
      ensures ok <==> PutRunes(old(Board()), Repeat(r, Cells(columns, width)), width, id).Some?
      ensures ok ==> Board() == PutRunes(old(Board()), Repeat(r, Cells(columns, width)), width, id).value
    {
      hide PutRunes, SpansWrites, Repeat, Cells, WholeCells;
      ghost var here := Board();
      ghost var goal := PutRunes(here, Repeat(r, Cells(columns, width)), width, id);
      var remaining := columns;
      while remaining > 0
        invariant 0 <= remaining && WholeCells(remaining, width) && WholeSpans(spans)
        invariant PutRunes(here, Repeat(r, Cells(remaining, width)), width, id) == goal
        invariant here == Canvas(cols, rows, row, column, SpansWrites(spans))
      {
        NoRoom(here, r, remaining, width, id);
        if width <= 0 || row < 0 || row >= rows || column < 0 || column + width > cols {
          return false;
        }
        var chunk := if remaining < cols - column then remaining else cols - column;
        FillChunk(here, spans, r, remaining, chunk, width, id);
        if !WholeCells(chunk, width) {
          return false;
        }
        here := PutRunes(here, Repeat(r, Cells(chunk, width)), width, id).value;
        spans := spans + [FillSpan(row, column, id, width, r, chunk)];
        column := column + chunk;
        if column == cols {
          row, column := row + 1, 0;
        }
        remaining := remaining - chunk;
      }
      FillDone(here, r, width, id);
      return true;
    }

    static lemma {:induction false} NoRoom(c: Canvas, r: Rune, remaining: nat, width: nat, id: nat)
      requires 0 < remaining && WholeCells(remaining, width)
      ensures 0 < width
      ensures !c.RequireCell(width) ==> PutRunes(c, Repeat(r, Cells(remaining, width)), width, id).None?
    {
    }

    static lemma {:induction false} FillDone(c: Canvas, r: Rune, width: nat, id: nat)
      ensures PutRunes(c, Repeat(r, Cells(0, width)), width, id) == Some(c)
    {
      assert Repeat(r, 0) == [];
    }

    /** One row's share of a fill; a column too few for one more cell refuses it. */
    static lemma {:induction false} FillChunk(here: Canvas, spans: seq<Span>, r: Rune, remaining: nat, chunk: nat, width: nat, id: nat)
      requires 0 < remaining && WholeCells(remaining, width) && here.RequireCell(width)
      requires here.writes == SpansWrites(spans)
      requires chunk == if remaining < here.cols - here.column then remaining else here.cols - here.column
      ensures WholeCells(chunk, width) ==> WholeCells(remaining - chunk, width)
      ensures !WholeCells(chunk, width) ==> PutRunes(here, Repeat(r, Cells(remaining, width)), width, id).None?
      ensures WholeCells(chunk, width) ==>
                var next := PutRunes(here, Repeat(r, Cells(chunk, width)), width, id);
                next.Some? && PutRunes(next.value, Repeat(r, Cells(remaining - chunk, width)), width, id)
                           == PutRunes(here, Repeat(r, Cells(remaining, width)), width, id)
      ensures WholeCells(chunk, width) && here.column + chunk == here.cols ==>
                PutRunes(here, Repeat(r, Cells(chunk, width)), width, id)
                == Some(Canvas(here.cols, here.rows, here.row + 1, 0,
                               SpansWrites(spans + [FillSpan(here.row, here.column, id, width, r, chunk)])))
      ensures WholeCells(chunk, width) && here.column + chunk != here.cols ==>
                PutRunes(here, Repeat(r, Cells(chunk, width)), width, id)
                == Some(Canvas(here.cols, here.rows, here.row, here.column + chunk,
                               SpansWrites(spans + [FillSpan(here.row, here.column, id, width, r, chunk)])))
    {
      var cells, all := Cells(chunk, width), Cells(remaining, width);
      ColumnsOfFill(cells, width);
      PutRunesInRow(here, Repeat(r, cells), width, id);
      SpansWritesAppend(spans, FillSpan(here.row, here.column, id, width, r, chunk));
      assert Repeat(r, all) == Repeat(r, cells) + Repeat(r, all - cells);
      PutRunesAppend(here, Repeat(r, cells), Repeat(r, all - cells), width, id);
      if WholeCells(chunk, width) {
        assert all - cells == Cells(remaining - chunk, width);
      }
    }

    method AppendCluster(text: Text, width: nat) returns (ok: bool)
      requires WholeSpans(spans)
      modifies `row, `column, `spans
      ensures ok ==> WholeSpans(spans)
      ensures ok <==> text != [] && (width == 1 || width == 2) && old(Board()).Put(text, width, styleId).Some?
      ensures ok ==> Board() == old(Board()).Put(text, width, styleId).value
    {
      if text == [] || (width != 1 && width != 2) {
        return false;
      }
      if row < 0 || row >= rows || column < 0 || column + width > cols {
        return false;
      }
      hide SpansWrites;
      SpansWritesAppend(spans, ClusterSpan(row, column, styleId, width, text));
      spans := spans + [ClusterSpan(row, column, styleId, width, text)];
      column := column + width;
      if column == cols {
        row, column := row + 1, 0;
      }
      return true;
    }

    static lemma {:induction false} NoSpans()
      ensures SpansWrites([]) == []
    {
    }

    static lemma {:induction false} StartMeaning(s: DisplayState, gridRevision: nat, gridCols: int, gridRows: int)
      ensures Exec(s, Command.StartRender(gridRevision, gridCols, gridRows)) ==
              if gridCols <= 0 || gridRows <= 0 || gridCols > MAX_GRID || gridRows > MAX_GRID then None
              else Some(DisplayState(gridRevision, true, Canvas(gridCols, gridRows, 0, 0, []), DEFAULT_STYLE_ID, DEFAULT_STYLES,
                                     s.cursor, s.cursorUpdated, false, [], None))
    {
    }

    method ResetGrid(gridRevision: nat, gridCols: int, gridRows: int)
      modifies `revision, `hasBarrier, `cols, `rows, `row, `column
      ensures revision == gridRevision && hasBarrier && cols == gridCols && rows == gridRows && row == 0 && column == 0
    {
      revision, hasBarrier, cols, rows, row, column := gridRevision, true, gridCols, gridRows, 0, 0;
    }

    method ResetPen()
      modifies `styleId, `styles, `paintStarted, `installs, `scroll, `spans
      ensures styleId == DEFAULT_STYLE_ID && styles == DEFAULT_STYLES && !paintStarted && installs == [] && scroll.None? && spans == []
    {
      styleId, styles := DEFAULT_STYLE_ID, DEFAULT_STYLES;
      paintStarted, installs, scroll, spans := false, [], None, [];
    }

    method StartRender(gridRevision: nat, gridCols: int, gridRows: int) returns (ok: bool)
      modifies this
      ensures ok ==> WholeSpans(spans)
      ensures ok <==> Exec(old(State()), Command.StartRender(gridRevision, gridCols, gridRows)).Some?
      ensures ok ==> State() == Exec(old(State()), Command.StartRender(gridRevision, gridCols, gridRows)).value
    {
      hide Exec, WholeSpan, SpansWrites;
      assert SpansWrites([]) == [] by { NoSpans(); }
      StartMeaning(State(), gridRevision, gridCols, gridRows);
      if gridCols <= 0 || gridRows <= 0 || gridCols > MAX_GRID || gridRows > MAX_GRID {
        return false;
      }
      ResetGrid(gridRevision, gridCols, gridRows);
      ResetPen();
      assert State() == DisplayState(gridRevision, true, Canvas(gridCols, gridRows, 0, 0, []), DEFAULT_STYLE_ID,
                                     DEFAULT_STYLES, cursor, cursorUpdated, false, [], None);
      return true;
    }

    method InstallStyle(id: nat, style: Style) returns (ok: bool)
      requires hasBarrier
      modifies `styles, `installs
      ensures ok <==> Exec(old(State()), StyleInstall(id, style)).Some?
      ensures ok ==> State() == Exec(old(State()), StyleInstall(id, style)).value
    {
      if id == DEFAULT_STYLE_ID && style != DEFAULT_STYLE {
        return false;
      }
      if id in styles && styles[id] != style {
        return false;
      }
      styles := styles[id := style];
      installs := installs + [StyleDefinition(id, style)];
      return true;
    }

    /** Commands that paint cells. */
    method Paint(command: Command<Text>) returns (ok: bool)
      requires hasBarrier
      requires command.WriteText? || command.WriteTextUtf8? || command.WriteTextUtf8Default? || command.WriteCluster? || command.Fill?
      requires WholeSpans(spans)
      modifies `row, `column, `spans, `paintStarted
      ensures ok ==> WholeSpans(spans)
      ensures ok <==> Exec(old(State()), command).Some?
      ensures ok ==> State() == Exec(old(State()), command).value
    {
      hide PutRunes, SpansWrites;
      if command.WriteText? {
        ok := AppendText(command.text, command.width, styleId);
      } else if command.WriteTextUtf8? {
        ok := AppendText(command.text, 1, styleId);
      } else if command.WriteTextUtf8Default? {
        ok := AppendText(command.text, 1, DEFAULT_STYLE_ID);
      } else if command.WriteCluster? {
        ok := AppendCluster(command.text, command.width);
      } else {
        ok := AppendFill(command.columns, command.fillRune, command.width);
      }
      if ok {
        paintStarted := true;
      }
    }

    /** The class accepts exactly the commands `Exec` gives a meaning, and its
        spans paint exactly the cells `Exec` writes. */
    method Apply(command: Command<Text>) returns (ok: bool)
      requires WholeSpans(spans)
      modifies this
      ensures ok ==> WholeSpans(spans)
      ensures ok <==> Exec(old(State()), command).Some?
      ensures ok ==> State() == Exec(old(State()), command).value
    {
      hide PutRunes, SpansWrites;
      if command.StartRender? {
        ok := StartRender(command.revision, command.gridCols, command.gridRows);
      } else if !hasBarrier {
        ok := false;
      } else if command.StyleInstall? {
        ok := InstallStyle(command.styleId, command.style);
      } else if command.SetWritePosition? {
        ok := 0 <= command.row < rows && 0 <= command.column < cols;
        if ok {
          row, column := command.row, command.column;
        }
      } else if command.SetWriteStyle? {
        ok := command.penId in styles;
        if ok {
          styleId := command.penId;
        }
      } else if command.UpdateCursor? {
        ok := true;
        cursor, cursorUpdated := command.update, true;
      } else if command.Scroll? {
        var region := command.region;
        if paintStarted {
          return false;
        }
        if region.top < 0 || region.top >= region.bottom || region.bottom > rows || region.delta == 0
           || region.delta < -(region.bottom - region.top) || region.delta > region.bottom - region.top {
          return false;
        }
        if scroll.Some? {
          return false;
        }
        ok, scroll := true, Some(region);
      } else {
        ok := Paint(command);
      }
    }

    /** A whole network frame: every command must be accepted and the stream
        must have seen its barrier. */
    method Interpret(commands: seq<Command<Text>>) returns (ok: bool)
      requires WholeSpans(spans)
      modifies this
      ensures ok ==> WholeSpans(spans)
      ensures ok <==> ExecAll(old(State()), commands).Some? && ExecAll(old(State()), commands).value.hasBarrier
      ensures ok ==> State() == ExecAll(old(State()), commands).value
    {
      ghost var start := State();
      ok := true;
      var i := 0;
      while i < |commands|
        invariant 0 <= i <= |commands|
        invariant ExecAll(start, commands[..i]) == Some(State()) && WholeSpans(spans)
      {
        assert commands[..i + 1] == commands[..i] + [commands[i]];
        ExecAllAppend(start, commands[..i], commands[i]);
        ok := Apply(commands[i]);
        if !ok {
          RefusedForGood(start, commands, i + 1);
          return;
        }
        i := i + 1;
      }
      assert commands[..i] == commands;
      return hasBarrier;
    }
  }

  lemma {:induction false} RefusedForGood(s: DisplayState, commands: seq<Command<Text>>, count: nat)
    requires count <= |commands| && ExecAll(s, commands[..count]).None?
    ensures ExecAll(s, commands).None?
    decreases |commands|
  {
    if count < |commands| {
      var shorter := commands[..|commands| - 1];
      assert shorter[..count] == commands[..count];
      RefusedForGood(s, shorter, count);
    } else {
      assert commands[..count] == commands;
    }
  }
}
