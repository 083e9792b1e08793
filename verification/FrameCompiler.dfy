/** The server's frame compiler: a publication becomes display commands with
    implicit positions and styles, coalesced text and fills, and blanks bridged
    in a visually equivalent style. Every accepted frame denotes exactly the
    publication's cells. */
module FrameCompiler {
  import opened Display
  import opened DisplayInterpreter
  import opened Painting
  import opened Publication

  const MAX_CELLS: nat := 1048576

  datatype Failure =
    | BrokenChain
    | NoBarrier
    | BadRun
    | BadStyle
    | BadCluster
    | StyleCapacity
    | Refused(command: Command<Text>)

  predicate KnownColor(color: Color) { color.mode != Unknown }

  /** What the display encoder agrees to put on the wire. */
  predicate Encodable(command: Command<Text>) {
    match command
    case StartRender(_, cols, rows) => 0 < cols <= MAX_GRID && 0 < rows <= MAX_GRID
    case StyleInstall(_, style) => KnownColor(style.fg) && KnownColor(style.bg)
    case SetWritePosition(row, column) => 0 <= row && 0 <= column
    case WriteText(width, _) => width == 1 || width == 2
    case WriteCluster(width, text) => (width == 1 || width == 2) && text != []
    case Fill(columns, _, width) => columns <= MAX_CELLS && ValidFill(columns, width)
    case UpdateCursor(update) => 0 <= update.cursor.x && 0 <= update.cursor.y
    case Scroll(region) => LegalScroll(region, MAX_GRID)
    case _ => true
  }

  // ------------------------------------------------------ pending commands

  datatype TextOpcode = OpText | OpUtf8 | OpUtf8Default

  datatype Pending =
    | NoPending
    | PendingText(opcode: TextOpcode, width: nat, styleId: nat, source: Style, text: Text)
    | PendingFill(styleId: nat, fillRune: Rune, columns: nat)

  function PendingCommand(p: Pending): Command<Text>
    requires !p.NoPending?
  {
    match p
    case PendingText(OpText, width, _, _, text) => WriteText(width, text)
    case PendingText(OpUtf8, _, _, _, text) => WriteTextUtf8(text)
    case PendingText(OpUtf8Default, _, _, _, text) => WriteTextUtf8Default(text)
    case PendingFill(_, r, columns) => Fill(columns, r, 1)
  }

  /** The canvas once the pending command has been sent. */
  function AfterPending(c: Canvas, p: Pending): Option<Canvas> {
    match p
    case NoPending => Some(c)
    case PendingText(_, width, id, _, text) => PutRunes(c, text, width, id)
    case PendingFill(id, r, columns) => PutRunes(c, Repeat(r, columns), 1, id)
  }

  /** The pending command will be interpreted in the style it was queued in. */
  predicate PendingAgrees(s: DisplayState, p: Pending) {
    match p
    case NoPending => true
    case PendingText(opcode, width, id, source, text) =>
      && (width == 1 || (width == 2 && opcode.OpText?))
      && (if opcode.OpUtf8Default? then id == DEFAULT_STYLE_ID else id == s.styleId)
      && id in s.styles && s.styles[id] == source
    case PendingFill(id, _, columns) => id == s.styleId && id in s.styles && 0 < columns
  }

  lemma {:induction false} PendingMeaning(s: DisplayState, p: Pending)
    requires s.hasBarrier && !p.NoPending? && PendingAgrees(s, p) && AfterPending(s.canvas, p).Some?
    ensures Exec(s, PendingCommand(p)) == Some(s.(canvas := AfterPending(s.canvas, p).value, paintStarted := true))
  {
    hide PutRunes, Repeat;
  }

  // --------------------------------------------------------- style tables

  /** The server's wire styles are exactly the styles the client has installed. */
  ghost predicate Linked(ids: map<Style, nat>, next: nat, styles: map<nat, Style>) {
    && (forall style :: style in ids ==> ids[style] < next && ids[style] in styles && styles[ids[style]] == style)
    && (forall id :: id in styles ==> id < next && styles[id] in ids && ids[styles[id]] == id)
    && DEFAULT_STYLE_ID in styles && styles[DEFAULT_STYLE_ID] == DEFAULT_STYLE
  }

  lemma {:induction false} LinkedAfterInstall(ids: map<Style, nat>, next: nat, styles: map<nat, Style>, style: Style)
    requires Linked(ids, next, styles) && style !in ids
    ensures next !in styles && next != DEFAULT_STYLE_ID
    ensures Linked(ids[style := next], next + 1, styles[next := style])
  {
  }

  lemma {:induction false} LinkedNonempty(ids: map<Style, nat>, next: nat, styles: map<nat, Style>)
    requires Linked(ids, next, styles)
    ensures ids != map[]
  {
    assert styles[DEFAULT_STYLE_ID] in ids;
  }

  function Installed(table: map<nat, Style>, installs: seq<StyleDefinition>): map<nat, Style>
    decreases |installs|
  {
    if installs == [] then table
    else
      var last := installs[|installs| - 1];
      Installed(table, installs[..|installs| - 1])[last.id := last.style]
  }

  ghost predicate TableCovers(table: map<nat, Style>, styles: map<nat, Style>) {
    forall id :: id in styles ==> id in table && table[id] == styles[id]
  }

  /** A slot's style table keeps covering the stream's styles through its installs. */
  ghost predicate InstallsCover(before: map<nat, Style>, installs: seq<StyleDefinition>, styles: map<nat, Style>) {
    forall table :: TableCovers(table, before) ==> TableCovers(Installed(table, installs), styles)
  }

  lemma {:induction false} InstallsCoverAppend(before: map<nat, Style>, installs: seq<StyleDefinition>, styles: map<nat, Style>, id: nat, style: Style)
    requires InstallsCover(before, installs, styles)
    ensures InstallsCover(before, installs + [StyleDefinition(id, style)], styles[id := style])
  {
    var more := installs + [StyleDefinition(id, style)];
    assert more[..|installs|] == installs;
    forall table | TableCovers(table, before) ensures TableCovers(Installed(table, more), styles[id := style]) {
      assert TableCovers(Installed(table, installs), styles);
    }
  }

  // ------------------------------------------------------ size heuristics

  function UvarintSize(value: nat): nat {
    if value < 128 then 1 else 1 + UvarintSize(value / 128)
  }

  function OpcodeFor(width: nat, id: nat, styleValid: bool, selected: nat): TextOpcode {
    if width != 1 then OpText
    else if id == DEFAULT_STYLE_ID && (!styleValid || selected != id) then OpUtf8Default
    else OpUtf8
  }

  predicate FillIsSmaller(pending: Pending, styleValid: bool, selected: nat, r: Rune, count: nat, id: nat) {
    var selection := if styleValid && selected == id then 0 else 1 + UvarintSize(id);
    if pending.PendingFill? && pending.styleId == id && pending.fillRune == r then true
    else
      var opcode := OpcodeFor(1, id, styleValid, selected);
      var payload := RuneLen(r) * count;
      var textSize :=
        if pending.PendingText? && pending.opcode == opcode && pending.styleId == id then
          var queued := TextBytes(pending.text);
          payload + UvarintSize(queued + payload) - UvarintSize(queued)
        else
          1 + UvarintSize(payload) + payload + (if opcode.OpUtf8Default? then 0 else selection);
      2 + UvarintSize(count) + UvarintSize(r) + selection < textSize
  }

  // --------------------------------------------------- compiler invariant

  /** `frame` brings a client from `start` to `shown`; once the pending command
      is flushed too, the client has written exactly `wants`. */
  ghost predicate Good(start: DisplayState, frame: seq<Command<Text>>, shown: DisplayState, pending: Pending,
                       wants: seq<Want>)
  {
    && ExecAll(start, frame) == Some(shown)
    && shown.hasBarrier
    && PendingAgrees(shown, pending)
    && AfterPending(shown.canvas, pending).Some?
    && FulfilsAll(AfterPending(shown.canvas, pending).value.writes, wants, shown.styles)
  }

  /** Sending the pending command changes nothing but when it is sent. */
  lemma {:induction false} FlushPending(start: DisplayState, frame: seq<Command<Text>>, shown: DisplayState, pending: Pending, wants: seq<Want>)
    requires Good(start, frame, shown, pending, wants) && !pending.NoPending?
    ensures Good(start, frame + [PendingCommand(pending)],
                 shown.(canvas := AfterPending(shown.canvas, pending).value, paintStarted := true), NoPending, wants)
  {
    hide FulfilsAll, PutRunes;
    ExecAllAppend(start, frame, PendingCommand(pending));
    PendingMeaning(shown, pending);
  }

  /** A command that paints nothing, sent while nothing is pending. */
  lemma {:induction false} SendPlain(start: DisplayState, frame: seq<Command<Text>>, shown: DisplayState, wants: seq<Want>,
                  command: Command<Text>, after: DisplayState)
    requires Good(start, frame, shown, NoPending, wants)
    requires Exec(shown, command) == Some(after)
    requires after.hasBarrier && after.canvas.writes == shown.canvas.writes
    requires forall id :: id in shown.styles ==> id in after.styles && after.styles[id] == shown.styles[id]
    ensures Good(start, frame + [command], after, NoPending, wants)
  {
    hide Exec;
    ExecAllAppend(start, frame, command);
  }

  /** One more cell queued at the write position. */
  lemma {:induction false} QueueCell(start: DisplayState, frame: seq<Command<Text>>, shown: DisplayState, pending: Pending, wants: seq<Want>,
                  r: Rune, cell: Cell)
    requires Good(start, frame, shown, pending, wants) && pending.PendingText?
    requires CellText(cell) == [r] && cell.width == pending.width && StyleShows(shown.styles, pending.styleId, cell)
    requires AfterPending(shown.canvas, pending).value.RequireCell(cell.width)
    ensures var here := AfterPending(shown.canvas, pending).value;
            var longer := pending.(text := pending.text + [r]);
            && 0 <= here.row && 0 <= here.column
            && Good(start, frame, shown, longer, wants + [Want(here.row, here.column, cell)])
            && AfterPending(shown.canvas, longer) == here.Put([r], cell.width, pending.styleId)
  {
    hide ExecAll;
    PutRunesAppend(shown.canvas, pending.text, [r], pending.width, pending.styleId);
    PutOne(AfterPending(shown.canvas, pending).value, r, pending.width, pending.styleId);
  }

  /** A row of equal cells queued as a fill, or added to the pending one. */
  lemma {:induction false} QueueCells(start: DisplayState, frame: seq<Command<Text>>, shown: DisplayState, pending: Pending, wants: seq<Want>,
                   r: Rune, cells: seq<Cell>, id: nat)
    requires Good(start, frame, shown, pending, wants) && cells != []
    requires id == shown.styleId && id in shown.styles
    requires pending.NoPending? || (pending.PendingFill? && pending.styleId == id && pending.fillRune == r)
    requires forall i :: 0 <= i < |cells| ==>
               CellText(cells[i]) == [r] && cells[i].width == 1 && StyleShows(shown.styles, id, cells[i])
    requires var here := AfterPending(shown.canvas, pending).value;
             0 <= here.row < here.rows && 0 <= here.column && here.column + |cells| <= here.cols
    ensures var here := AfterPending(shown.canvas, pending).value;
            var longer := PendingFill(id, r, (if pending.PendingFill? then pending.columns else 0) + |cells|);
            && Good(start, frame, shown, longer, wants + RunWants(here.row, here.column, cells))
            && var after := AfterPending(shown.canvas, longer).value;
               after == here.(writes := after.writes).Advance(|cells|)
  {
    hide ExecAll, StyleShows;
    var here := AfterPending(shown.canvas, pending).value;
    var some := Repeat(r, |cells|);
    ColumnsOfFill(|cells|, 1);
    PutRunesInRow(here, some, 1, id);
    if pending.PendingFill? {
      assert Repeat(r, pending.columns + |cells|) == Repeat(r, pending.columns) + some;
      PutRunesAppend(shown.canvas, Repeat(r, pending.columns), some, 1, id);
    } else {
      assert 0 + |cells| == |cells|;
    }
    FilledWants(here.row, here.column, r, cells, id, shown.styles);
    JoinFulfils(here.writes, wants, RuneWrites(here.row, here.column, some, 1, id),
                RunWants(here.row, here.column, cells), shown.styles);
  }

  lemma {:induction false} JoinFulfils(a: seq<Write>, wa: seq<Want>, b: seq<Write>, wb: seq<Want>, table: map<nat, Style>)
    requires FulfilsAll(a, wa, table) && FulfilsAll(b, wb, table)
    ensures FulfilsAll(a + b, wa + wb, table)
  {
  }

  lemma {:induction false} FilledWants(row: nat, column: nat, r: Rune, cells: seq<Cell>, id: nat, table: map<nat, Style>)
    requires forall i :: 0 <= i < |cells| ==>
               CellText(cells[i]) == [r] && cells[i].width == 1 && StyleShows(table, id, cells[i])
    ensures FulfilsAll(RuneWrites(row, column, Repeat(r, |cells|), 1, id), RunWants(row, column, cells), table)
    decreases |cells|
  {
    if cells != [] {
      var init, last := cells[..|cells| - 1], cells[|cells| - 1];
      FilledWants(row, column, r, init, id, table);
      assert Repeat(r, |cells|) == Repeat(r, |init|) + [r];
      RuneWritesAppend(row, column, Repeat(r, |init|), r, 1, id);
      ColumnsOfFill(|init|, 1);
      assert CellText(last) == [r];
    }
  }

  /** The compiler's own fields, as one value. */
  datatype Core = Core(
    frame: seq<Command<Text>>, styleIds: map<Style, nat>, nextStyleId: nat,
    positionValid: bool, row: int, column: int, styleValid: bool, styleId: nat, pending: Pending)

  /** How far compilation has come, seen from the client: `start` is the stream
      before the frame, `origin` after its barrier and scroll, `shown` after the
      commands sent so far; `base` are the styles installed at `origin`. */
  datatype Progress = Progress(start: DisplayState, base: map<nat, Style>, origin: DisplayState, shown: DisplayState, wants: seq<Want>)

  /** The same frame, further on. */
  ghost predicate SameFrame(a: Progress, b: Progress) {
    a.start == b.start && a.base == b.base && a.origin == b.origin
  }

  ghost predicate KeepsRest(a: DisplayState, b: DisplayState) {
    && a.revision == b.revision && a.hasBarrier == b.hasBarrier && a.canvas.cols == b.canvas.cols && a.canvas.rows == b.canvas.rows
    && a.cursor == b.cursor && a.cursorUpdated == b.cursorUpdated && a.scroll == b.scroll
  }

  /** Server and client agree on the style table, the write position and the
      selected style, however much of the frame has been coalesced. */
  ghost predicate Sound(w: Progress, core: Core) {
    && Good(w.start, core.frame, w.shown, core.pending, w.wants)
    && Linked(core.styleIds, core.nextStyleId, w.shown.styles)
    && InstallsCover(w.base, w.shown.installs, w.shown.styles) && TableCovers(w.shown.styles, w.base)
    && KeepsRest(w.origin, w.shown)
    && (core.styleValid ==> w.shown.styleId == core.styleId && core.styleId in w.shown.styles)
    && (if core.positionValid
        then var here := AfterPending(w.shown.canvas, core.pending).value; here.row == core.row && here.column == core.column
        else core.pending.NoPending?)
  }

  lemma {:induction false} AfterPendingKeepsSize(c: Canvas, p: Pending)
    requires AfterPending(c, p).Some?
    ensures AfterPending(c, p).value.cols == c.cols && AfterPending(c, p).value.rows == c.rows
  {
    match p
    case NoPending =>
    case PendingText(_, width, id, _, text) => PutRunesKeepsSize(c, text, width, id);
    case PendingFill(id, r, columns) => PutRunesKeepsSize(c, Repeat(r, columns), 1, id);
  }

  lemma {:induction false} PutRunesKeepsSize(c: Canvas, text: Text, width: nat, id: nat)
    requires PutRunes(c, text, width, id).Some?
    ensures PutRunes(c, text, width, id).value.cols == c.cols && PutRunes(c, text, width, id).value.rows == c.rows
    decreases |text|
  {
    if text != [] {
      PutRunesKeepsSize(c.Put([text[0]], width, id).value, text[1..], width, id);
    }
  }

  lemma {:induction false} FinishSound(w: Progress, core: Core) returns (after: Progress)
    requires Sound(w, core) && !core.pending.NoPending?
    ensures after == w.(shown := w.shown.(canvas := AfterPending(w.shown.canvas, core.pending).value, paintStarted := true))
    ensures Sound(after, core.(frame := core.frame + [PendingCommand(core.pending)], pending := NoPending))
  {
    hide Linked, InstallsCover, ExecAll, FulfilsAll, PutRunes, Repeat;
    after := w.(shown := w.shown.(canvas := AfterPending(w.shown.canvas, core.pending).value, paintStarted := true));
    FlushPending(w.start, core.frame, w.shown, core.pending, w.wants);
    AfterPendingKeepsSize(w.shown.canvas, core.pending);
  }

  lemma {:induction false} MoveSound(w: Progress, core: Core, row: int, column: int) returns (after: Progress)
    requires Sound(w, core) && core.pending.NoPending?
    requires 0 <= row < w.shown.canvas.rows && 0 <= column < w.shown.canvas.cols
    ensures after == w.(shown := w.shown.(canvas := w.shown.canvas.(row := row, column := column)))
    ensures Sound(after, core.(frame := core.frame + [SetWritePosition(row, column)],
                               positionValid := true, row := row, column := column))
  {
    hide Linked, InstallsCover, ExecAll, FulfilsAll, PutRunes;
    after := w.(shown := w.shown.(canvas := w.shown.canvas.(row := row, column := column)));
    SendPlain(w.start, core.frame, w.shown, w.wants, SetWritePosition(row, column), after.shown);
  }

  lemma {:induction false} SelectSound(w: Progress, core: Core, id: nat) returns (after: Progress)
    requires Sound(w, core) && core.pending.NoPending? && id in w.shown.styles
    ensures after == w.(shown := w.shown.(styleId := id))
    ensures Sound(after, core.(frame := core.frame + [SetWriteStyle(id)], styleValid := true, styleId := id))
  {
    hide Linked, InstallsCover, ExecAll, FulfilsAll, PutRunes;
    after := w.(shown := w.shown.(styleId := id));
    SendPlain(w.start, core.frame, w.shown, w.wants, SetWriteStyle(id), after.shown);
  }

  lemma {:induction false} InstallSound(w: Progress, core: Core, style: Style) returns (after: Progress)
    requires Sound(w, core) && core.pending.NoPending? && style !in core.styleIds
    ensures after == w.(shown := w.shown.(styles := w.shown.styles[core.nextStyleId := style],
                                          installs := w.shown.installs + [StyleDefinition(core.nextStyleId, style)]))
    ensures forall id :: id in w.shown.styles ==> id in after.shown.styles && after.shown.styles[id] == w.shown.styles[id]
    ensures Sound(after, core.(frame := core.frame + [StyleInstall(core.nextStyleId, style)],
                               styleIds := core.styleIds[style := core.nextStyleId], nextStyleId := core.nextStyleId + 1))
  {
    hide InstallsCover, ExecAll, FulfilsAll, PutRunes;
    after := w.(shown := w.shown.(styles := w.shown.styles[core.nextStyleId := style],
                                  installs := w.shown.installs + [StyleDefinition(core.nextStyleId, style)]));
    LinkedAfterInstall(core.styleIds, core.nextStyleId, w.shown.styles, style);
    InstallsCoverAppend(w.base, w.shown.installs, w.shown.styles, core.nextStyleId, style);
    SendPlain(w.start, core.frame, w.shown, w.wants, StyleInstall(core.nextStyleId, style), after.shown);
  }

  /** `advance`: a write that reaches the right edge moves to the next row. */
  function Advanced(row: int, column: int, columns: int, cols: int): (int, int) {
    if column + columns == cols then (row + 1, 0) else (row, column + columns)
  }

  lemma {:induction false} QueueSound(w: Progress, core: Core, r: Rune, cell: Cell) returns (after: Progress)
    requires Sound(w, core) && core.positionValid && core.pending.PendingText?
    requires 0 <= core.row < w.shown.canvas.rows && 0 <= core.column && core.column + cell.width <= w.shown.canvas.cols
    requires CellText(cell) == [r] && cell.width == core.pending.width && StyleShows(w.shown.styles, core.pending.styleId, cell)
    ensures after == w.(wants := w.wants + [Want(core.row, core.column, cell)])
    ensures Sound(after, core.(pending := core.pending.(text := core.pending.text + [r]),
                               row := Advanced(core.row, core.column, cell.width, w.shown.canvas.cols).0,
                               column := Advanced(core.row, core.column, cell.width, w.shown.canvas.cols).1))
  {
    hide Linked, InstallsCover, ExecAll, FulfilsAll, PutRunes, StyleShows;
    AfterPendingKeepsSize(w.shown.canvas, core.pending);
    QueueCell(w.start, core.frame, w.shown, core.pending, w.wants, r, cell);
    after := w.(wants := w.wants + [Want(core.row, core.column, cell)]);
  }

  lemma {:induction false} FillSound(w: Progress, core: Core, r: Rune, cells: seq<Cell>, id: nat) returns (after: Progress)
    requires Sound(w, core) && core.positionValid && cells != []
    requires id == w.shown.styleId && id in w.shown.styles
    requires core.pending.NoPending? || (core.pending.PendingFill? && core.pending.styleId == id && core.pending.fillRune == r)
    requires 0 <= core.row < w.shown.canvas.rows && 0 <= core.column && core.column + |cells| <= w.shown.canvas.cols
    requires forall i :: 0 <= i < |cells| ==>
               CellText(cells[i]) == [r] && cells[i].width == 1 && StyleShows(w.shown.styles, id, cells[i])
    ensures after == w.(wants := w.wants + RunWants(core.row, core.column, cells))
    ensures Sound(after, core.(pending := PendingFill(id, r, (if core.pending.PendingFill? then core.pending.columns else 0) + |cells|),
                               row := Advanced(core.row, core.column, |cells|, w.shown.canvas.cols).0,
                               column := Advanced(core.row, core.column, |cells|, w.shown.canvas.cols).1))
  {
    hide Linked, InstallsCover, ExecAll, FulfilsAll, PutRunes, StyleShows, RunWants, Repeat;
    AfterPendingKeepsSize(w.shown.canvas, core.pending);
    QueueCells(w.start, core.frame, w.shown, core.pending, w.wants, r, cells, id);
    after := w.(wants := w.wants + RunWants(core.row, core.column, cells));
  }

  lemma {:induction false} ClusterSound(w: Progress, core: Core, text: Text, cell: Cell) returns (after: Progress)
    requires Sound(w, core) && core.positionValid && core.pending.NoPending?
    requires cell.glyph == Cluster(text) && text != [] && (cell.width == 1 || cell.width == 2)
    requires 0 <= core.row < w.shown.canvas.rows && 0 <= core.column && core.column + cell.width <= w.shown.canvas.cols
    requires StyleShows(w.shown.styles, w.shown.styleId, cell)
    ensures after == w.(shown := after.shown, wants := w.wants + [Want(core.row, core.column, cell)])
    ensures after.shown == w.shown.(canvas := w.shown.canvas.Put(text, cell.width, w.shown.styleId).value, paintStarted := true)
    ensures Sound(after, core.(frame := core.frame + [WriteCluster(cell.width, text)],
                               row := Advanced(core.row, core.column, cell.width, w.shown.canvas.cols).0,
                               column := Advanced(core.row, core.column, cell.width, w.shown.canvas.cols).1))
  {
    hide Linked, InstallsCover, ExecAll, PutRunes, StyleShows;
    ExecAllAppend(w.start, core.frame, WriteCluster(cell.width, text));
    after := w.(shown := w.shown.(canvas := w.shown.canvas.Put(text, cell.width, w.shown.styleId).value, paintStarted := true),
                wants := w.wants + [Want(core.row, core.column, cell)]);
  }

  lemma {:induction false} ClusterStep(w: Progress, core: Core, text: Text, cell: Cell) returns (after: Progress)
    requires Sound(w, core) && core.positionValid && core.pending.NoPending?
    requires cell.glyph == Cluster(text) && text != [] && (cell.width == 1 || cell.width == 2)
    requires 0 <= core.row < w.shown.canvas.rows && 0 <= core.column && core.column + cell.width <= w.shown.canvas.cols
    requires StyleShows(w.shown.styles, w.shown.styleId, cell)
    ensures SameFrame(w, after) && after.shown.styles == w.shown.styles
    ensures after.shown.canvas.cols == w.shown.canvas.cols && after.shown.canvas.rows == w.shown.canvas.rows
    ensures after.wants == w.wants + [Want(core.row, core.column, cell)]
    ensures Sound(after, core.(frame := core.frame + [WriteCluster(cell.width, text)],
                               row := Advanced(core.row, core.column, cell.width, w.shown.canvas.cols).0,
                               column := Advanced(core.row, core.column, cell.width, w.shown.canvas.cols).1))
  {
    after := ClusterSound(w, core, text, cell);
    hide Sound, StyleShows;
  }

  lemma {:induction false} StartTextSound(w: Progress, core: Core, opcode: TextOpcode, width: nat, id: nat, style: Style)
    requires Sound(w, core) && core.positionValid && core.pending.NoPending?
    requires PendingAgrees(w.shown, PendingText(opcode, width, id, style, []))
    ensures Sound(w, core.(pending := PendingText(opcode, width, id, style, [])))
  {
    hide Linked, InstallsCover, ExecAll, FulfilsAll;
  }

  lemma {:induction false} NextWant(row: nat, column: nat, cells: seq<Cell>, k: nat)
    requires k < |cells|
    ensures RunWants(row, column, cells[..k + 1]) ==
            RunWants(row, column, cells[..k])
              + if cells[k].glyph.Continuation? then [] else [Want(row, column + k, cells[k])]
  {
    assert cells[..k + 1][..k] == cells[..k];
  }

  lemma {:induction false} SplitWants(row: nat, column: nat, a: seq<Cell>, b: seq<Cell>)
    ensures RunWants(row, column, a + b) == RunWants(row, column, a) + RunWants(row, column + |a|, b)
    decreases |b|
  {
    if b == [] {
      assert a + b == a;
    } else {
      var init, last := b[..|b| - 1], b[|b| - 1];
      assert a + b == (a + init) + [last] && (a + b)[..|a + b| - 1] == a + init;
      SplitWants(row, column, a, init);
      assert b == init + [last];
    }
  }

  // --------------------------------------------------------- the compiler

  predicate ClusterOutside(p: Publication, cell: SemanticCell) {
    cell.glyph.SCluster? && cell.glyph.start + cell.glyph.length > |p.clusters|
  }

  ghost predicate UsesStyle(p: Publication, style: Style) {
    exists i :: 0 <= i < |p.cells| && p.cells[i].style < |p.styles| && p.styles[p.cells[i].style] == style
  }

  ghost predicate UsesCluster(p: Publication, width: nat, text: Text) {
    exists i :: 0 <= i < |p.cells| && p.cells[i].glyph.SCluster? && !ClusterOutside(p, p.cells[i])
                && p.cells[i].width == width
                && text == p.clusters[p.cells[i].glyph.start..p.cells[i].glyph.start + p.cells[i].glyph.length]
  }

  /** The commands a publication can give rise to after its barrier and scroll. */
  ghost predicate Sends(p: Publication, command: Command<Text>) {
    match command
    case StyleInstall(_, style) => UsesStyle(p, style)
    case SetWritePosition(row, column) => 0 <= row && 0 <= column
    case SetWriteStyle(_) => true
    case WriteText(width, _) => width == 1 || width == 2
    case WriteTextUtf8(_) => true
    case WriteTextUtf8Default(_) => true
    case WriteCluster(width, text) => (width == 1 || width == 2) && UsesCluster(p, width, text)
    case Fill(columns, _, width) => width == 1 && 0 < columns <= p.cols * p.rows
    case UpdateCursor(update) => p.cursorChanged && update == p.cursor
    case _ => false
  }

  ghost predicate RefusedOf(p: Publication, failure: Failure) {
    failure.Refused? && !Encodable(failure.command) && Sends(p, failure.command)
  }

  /** Compilation of a publication that continues its stream fails only for a
      malformed table, a full style table, or a command the encoder refuses. */
  ghost predicate FailureExplained(p: Publication, start: nat, failure: Failure) {
    || RefusedOf(p, failure)
    || (failure.StyleCapacity? && start + |p.styles| > MAX_STYLES)
    || (failure.BadRun? && exists i :: 0 <= i < |p.runs| && !RunInRange(p, p.runs[i]))
    || (failure.BadStyle? && exists i :: 0 <= i < |p.cells| && p.cells[i].style >= |p.styles|)
    || (failure.BadCluster? && exists i :: 0 <= i < |p.cells| && ClusterOutside(p, p.cells[i]))
  }

  predicate CellEncodable(p: Publication, cell: SemanticCell) {
    && cell.style < |p.styles| && KnownColor(p.styles[cell.style].fg) && KnownColor(p.styles[cell.style].bg)
    && (cell.glyph.SCluster? ==> !ClusterOutside(p, cell) && cell.glyph.length > 0)
  }

  /** What a publication needs to be compiled on a stream that has so many styles:
      complete tables, known colours, clusters with text, a cursor not before the
      first cell, and room for its styles. */
  ghost predicate Compilable(p: Publication, start: nat) {
    && (forall i :: 0 <= i < |p.runs| ==> RunInRange(p, p.runs[i]))
    && (forall i :: 0 <= i < |p.cells| ==> CellEncodable(p, p.cells[i]))
    && (p.cursorChanged ==> 0 <= p.cursor.cursor.x && 0 <= p.cursor.cursor.y)
    && start + |p.styles| <= MAX_STYLES
  }

  /** Of everything such a publication sends, the encoder refuses nothing. */
  lemma {:induction false} CompilableSends(p: Publication, start: nat, failure: Failure)
    requires WellFormed(p) && FailureExplained(p, start, failure)
    ensures !Compilable(p, start) && failure != BrokenChain && failure != NoBarrier
  {
    if failure.Refused? {
      FillsFit(p.cols, p.rows);
      hide WellFormed;
    }
  }

  lemma {:induction false} FillsFit(cols: nat, rows: nat)
    requires cols <= MAX_GRID && rows <= MAX_GRID
    ensures cols * rows <= MAX_CELLS
  {
    assert (MAX_GRID - cols) * rows >= 0;
    assert cols * rows <= MAX_GRID * rows == 1024 * rows;
  }

  /** Runes put one after another from inside the grid are no more than its cells. */
  lemma {:induction false} PutRunesFit(c: Canvas, text: Text, id: nat)
    requires PutRunes(c, text, 1, id).Some? && text != []
    ensures 0 <= c.row && 0 <= c.column && c.row * c.cols + c.column + |text| <= c.cols * c.rows
    decreases |text|
  {
    var next := c.Put([text[0]], 1, id).value;
    assert (c.row + 1) * c.cols <= c.rows * c.cols;
    if |text| > 1 {
      PutRunesFit(next, text[1..], id);
    }
  }

  lemma {:induction false} PendingSends(p: Publication, s: DisplayState, pending: Pending)
    requires !pending.NoPending? && PendingAgrees(s, pending) && AfterPending(s.canvas, pending).Some?
    requires s.canvas.cols == p.cols && s.canvas.rows == p.rows
    ensures Sends(p, PendingCommand(pending))
  {
    if pending.PendingFill? {
      PutRunesFit(s.canvas, Repeat(pending.fillRune, pending.columns), pending.styleId);
      assert s.canvas.row * s.canvas.cols >= 0;
    }
  }

  lemma {:induction false} ClusterRefused(p: Publication, width: nat, text: Text)
    requires (width == 1 || width == 2) && UsesCluster(p, width, text)
    ensures Encodable(WriteCluster(width, text)) <==> text != []
    ensures text == [] ==> RefusedOf(p, Refused(WriteCluster(width, text)))
  {
    hide UsesCluster;
  }

  // ---------------------------------------------------------- table growth

  function StyleSet(styles: seq<Style>): set<Style> {
    set s | s in styles
  }

  /** The wire styles have grown by styles of this publication only, an id each. */
  ghost predicate TableGrown(initial: set<Style>, start: nat, styles: seq<Style>, ids: map<Style, nat>, next: nat) {
    initial <= ids.Keys && ids.Keys - initial <= StyleSet(styles) && next == start + |ids.Keys - initial|
  }

  lemma {:induction false} FewStyles(styles: seq<Style>)
    ensures |StyleSet(styles)| <= |styles|
    decreases |styles|
  {
    if styles != [] {
      var init := styles[..|styles| - 1];
      FewStyles(init);
      assert styles == init + [styles[|styles| - 1]];
      assert StyleSet(styles) == StyleSet(init) + {styles[|styles| - 1]};
    }
  }

  lemma {:induction false} Contained(a: set<Style>, b: set<Style>)
    requires a <= b
    ensures |a| <= |b|
  {
    assert b == a + (b - a);
  }

  lemma {:induction false} TableStart(styles: seq<Style>, ids: map<Style, nat>, next: nat)
    ensures TableGrown(ids.Keys, next, styles, ids, next)
  {
    assert ids.Keys - ids.Keys == {};
  }

  /** One more style of the publication: there was one to come. */
  lemma {:induction false} TableGrows(initial: set<Style>, start: nat, styles: seq<Style>, ids: map<Style, nat>, next: nat, style: Style)
    requires TableGrown(initial, start, styles, ids, next) && style in styles && style !in ids
    ensures next < start + |styles|
    ensures TableGrown(initial, start, styles, ids[style := next], next + 1)
  {
    var grown := (ids.Keys - initial) + {style};
    assert ids[style := next].Keys - initial == grown;
    Contained(grown, StyleSet(styles));
    FewStyles(styles);
  }

  /** The finished frame, from the progress its runs started with. */
  ghost predicate FrameDone(w: Progress, p: Publication, frame: seq<Command<Text>>, ids: map<Style, nat>, next: nat) {
    match ExecAll(w.start, frame)
    case None => false
    case Some(after) =>
      && after.hasBarrier && after.canvas.cols == p.cols && after.canvas.rows == p.rows
      && after.revision == w.origin.revision && after.scroll == w.origin.scroll
      && FulfilsAll(after.canvas.writes, RunsWants(SemanticRuns(p)), after.styles)
      && after.cursor == (if p.cursorChanged then p.cursor else w.origin.cursor)
      && after.cursorUpdated == (p.cursorChanged || w.origin.cursorUpdated)
      && Linked(ids, next, after.styles)
      && InstallsCover(w.base, after.installs, after.styles) && TableCovers(after.styles, w.base)
  }

  class FrameCompiler {
    const publication: Publication
    var frame: seq<Command<Text>>
    var styleIds: map<Style, nat>
    var nextStyleId: nat
    var positionValid: bool
    var row: int
    var column: int
    var styleValid: bool
    var styleId: nat
    var pending: Pending
    ghost var progress: Progress
    ghost const initial: set<Style>
    ghost const start: nat

    function Fields(): Core
      reads this
    {
      Core(frame, styleIds, nextStyleId, positionValid, row, column, styleValid, styleId, pending)
    }

    ghost predicate Valid()
      reads this
    {
      && Sound(progress, Fields())
      && progress.shown.canvas.cols == publication.cols && progress.shown.canvas.rows == publication.rows
      && TableGrown(initial, start, publication.styles, styleIds, nextStyleId)
    }

    ghost function Styles(): map<nat, Style>
      reads this
    {
      progress.shown.styles
    }

    /** A frame whose barrier and scroll have been sent. */
    constructor (publication: Publication, sent: seq<Command<Text>>, ids: map<Style, nat>, next: nat, ghost w: Progress)
      requires Sound(w, Core(sent, ids, next, false, 0, 0, false, 0, NoPending))
      requires w.shown.canvas.cols == publication.cols && w.shown.canvas.rows == publication.rows
      ensures Valid() && this.publication == publication && progress == w && pending.NoPending? && start == next
    {
      this.publication, initial, start := publication, ids.Keys, next;
      TableStart(publication.styles, ids, next);
      frame, styleIds, nextStyleId, progress := sent, ids, next, w;
      positionValid, row, column, styleValid, styleId, pending := false, 0, 0, false, 0, NoPending;
    }

    method FinishPending() returns (failure: Option<Failure>)
      requires Valid()
      modifies `frame, `pending, `progress
      ensures failure.None? ==>
                && Valid() && pending.NoPending?
                && SameFrame(old(progress), progress) && progress.wants == old(progress.wants) && Styles() == old(Styles())
      ensures failure.Some? ==> RefusedOf(publication, failure.value)
    {
      hide Sound, TableGrown, Encodable, PendingCommand;
      if pending.NoPending? {
        return None;
      }
      var command := PendingCommand(pending);
      PendingSent(progress, Fields());
      if !Encodable(command) {
        return Some(Refused(command));
      }
      ghost var after := FinishSound(progress, Fields());
      PendingSized(progress, Fields());
      frame, pending, progress := frame + [command], NoPending, after;
      return None;
    }

    lemma {:induction false} PendingSent(w: Progress, core: Core)
      requires Sound(w, core) && !core.pending.NoPending?
      requires w.shown.canvas.cols == publication.cols && w.shown.canvas.rows == publication.rows
      ensures Sends(publication, PendingCommand(core.pending))
    {
      PendingSends(publication, w.shown, core.pending);
    }

    static lemma {:induction false} PendingSized(w: Progress, core: Core)
      requires Sound(w, core)
      ensures AfterPending(w.shown.canvas, core.pending).Some?
      ensures AfterPending(w.shown.canvas, core.pending).value.cols == w.shown.canvas.cols
      ensures AfterPending(w.shown.canvas, core.pending).value.rows == w.shown.canvas.rows
    {
      AfterPendingKeepsSize(w.shown.canvas, core.pending);
    }

    method Advance(columns: nat)
      modifies `row, `column
      ensures (row, column) == Advanced(old(row), old(column), columns, publication.cols)
    {
      column := column + columns;
      if column == publication.cols {
        row, column := row + 1, 0;
      }
    }

    method MoveTo(toRow: nat, toColumn: nat) returns (failure: Option<Failure>)
      requires Valid() && toRow < publication.rows && toColumn < publication.cols
      modifies `frame, `pending, `progress, `positionValid, `row, `column
      ensures failure.None? ==>
                && Valid() && positionValid && row == toRow && column == toColumn
                && SameFrame(old(progress), progress) && progress.wants == old(progress.wants) && Styles() == old(Styles())
      ensures failure.Some? ==> RefusedOf(publication, failure.value)
    {
      hide Sound, TableGrown, Encodable;
      if positionValid && row == toRow && column == toColumn {
        return None;
      }
      failure := FinishPending();
      if failure.Some? {
        return;
      }
      if !Encodable(SetWritePosition(toRow, toColumn)) {
        return Some(Refused(SetWritePosition(toRow, toColumn)));
      }
      ghost var after := MoveSound(progress, Fields(), toRow, toColumn);
      frame, progress := frame + [SetWritePosition(toRow, toColumn)], after;
      positionValid, row, column := true, toRow, toColumn;
      return None;
    }

    method SelectStyle(id: nat) returns (failure: Option<Failure>)
      requires Valid() && id in Styles()
      modifies `frame, `pending, `progress, `styleValid, `styleId
      ensures failure.None? ==>
                && Valid() && progress.shown.styleId == id
                && SameFrame(old(progress), progress) && progress.wants == old(progress.wants) && Styles() == old(Styles())
                && (old(pending).NoPending? ==> pending.NoPending?)
      ensures failure.Some? ==> RefusedOf(publication, failure.value)
    {
      hide Good, Linked, InstallsCover, TableGrown, Encodable, AfterPending;
      if styleValid && styleId == id {
        return None;
      }
      failure := FinishPending();
      if failure.Some? {
        return;
      }
      if !Encodable(SetWriteStyle(id)) {
        return Some(Refused(SetWriteStyle(id)));
      }
      ghost var after := SelectSound(progress, Fields(), id);
      frame, progress := frame + [SetWriteStyle(id)], after;
      styleValid, styleId := true, id;
      return None;
    }

    static lemma {:induction false} StyleKnown(w: Progress, core: Core, style: Style)
      requires Sound(w, core)
      ensures style in core.styleIds ==>
                core.styleIds[style] in w.shown.styles && w.shown.styles[core.styleIds[style]] == style
    {
    }

    method EnsureStyle(style: Style) returns (failure: Option<Failure>, id: nat)
      requires Valid() && UsesStyle(publication, style)
      modifies `frame, `pending, `progress, `styleIds, `nextStyleId
      ensures failure.None? ==>
                && Valid() && id in Styles() && Styles()[id] == style
                && SameFrame(old(progress), progress) && progress.wants == old(progress.wants)
                && (forall k :: k in old(Styles()) ==> k in Styles() && Styles()[k] == old(Styles())[k])
      ensures failure.Some? ==>
                || (failure.value.StyleCapacity? && start + |publication.styles| > MAX_STYLES)
                || (RefusedOf(publication, failure.value))
    {
      hide Sound, TableGrown, Encodable;
      id := 0;
      StyleKnown(progress, Fields(), style);
      if style in styleIds {
        return None, styleIds[style];
      }
      failure := FinishPending();
      if failure.Some? {
        return;
      }
      TableGrows(initial, start, publication.styles, styleIds, nextStyleId, style);
      if nextStyleId >= MAX_STYLES {
        return Some(StyleCapacity), 0;
      }
      id := nextStyleId;
      if !Encodable(StyleInstall(id, style)) {
        return Some(Refused(StyleInstall(id, style))), 0;
      }
      ghost var after := InstallSound(progress, Fields(), style);
      frame, progress := frame + [StyleInstall(id, style)], after;
      styleIds, nextStyleId := styleIds[style := id], nextStyleId + 1;
      return None, id;
    }

    /** The write position names column `toColumn` of row `toRow`; past the right
        edge that is the start of the next row. */
    predicate At(toRow: int, toColumn: int)
      reads this
    {
      && positionValid
      && (if toColumn == publication.cols then row == toRow + 1 && column == 0 else row == toRow && column == toColumn)
    }

    /** Ends whatever is pending and starts a text in the given style. */
    method StartText(opcode: TextOpcode, width: nat, style: Style, id: nat) returns (failure: Option<Failure>)
      requires Valid() && positionValid && (width == 1 || (width == 2 && opcode.OpText?))
      requires id in Styles() && Styles()[id] == style && (opcode.OpUtf8Default? ==> id == DEFAULT_STYLE_ID)
      modifies `frame, `pending, `progress, `styleValid, `styleId
      ensures failure.None? ==>
                && Valid() && SameFrame(old(progress), progress) && progress.wants == old(progress.wants)
                && Styles() == old(Styles()) && pending == PendingText(opcode, width, id, style, [])
      ensures failure.Some? ==> RefusedOf(publication, failure.value)
    {
      hide Sound, TableGrown, Encodable;
      failure := FinishPending();
      if failure.Some? {
        return;
      }
      if !opcode.OpUtf8Default? {
        failure := SelectStyle(id);
        if failure.Some? {
          return;
        }
      }
      StartTextSound(progress, Fields(), opcode, width, id, style);
      pending := PendingText(opcode, width, id, style, []);
      return None;
    }

    /** Adds one cell to the pending text, starting a new one where opcode, width
        or style differ. */
    method QueueRune(r: Rune, width: nat, style: Style, id: nat, ghost cell: Cell) returns (failure: Option<Failure>)
      requires Valid() && positionValid
      requires 0 <= row < publication.rows && 0 <= column && column + width <= publication.cols
      requires (width == 1 || width == 2) && cell.width == width && CellText(cell) == [r]
      requires id in Styles() && Styles()[id] == style && StyleShows(Styles(), id, cell)
      modifies this
      ensures failure.None? ==>
                && Valid() && At(old(row), old(column) + width)
                && SameFrame(old(progress), progress) && Styles() == old(Styles())
                && progress.wants == old(progress.wants) + [Want(old(row), old(column), cell)]
                && pending.PendingText? && pending.styleId == id && pending.source == style
      ensures failure.Some? ==> RefusedOf(publication, failure.value)
    {
      hide Sound, TableGrown, Encodable, StyleShows, CellText;
      var opcode := OpcodeFor(width, id, styleValid, styleId);
      if !(pending.PendingText? && pending.opcode == opcode && pending.width == width && pending.styleId == id) {
        failure := StartText(opcode, width, style, id);
        if failure.Some? {
          return;
        }
      }
      PendingSource(progress, Fields());
      ghost var after := QueueSound(progress, Fields(), r, cell);
      pending, progress := pending.(text := pending.text + [r]), after;
      Advance(width);
      return None;
    }

    static lemma {:induction false} PendingSource(w: Progress, core: Core)
      requires Sound(w, core) && core.pending.PendingText?
      ensures core.pending.styleId in w.shown.styles && w.shown.styles[core.pending.styleId] == core.pending.source
    {
    }

    method QueueFill(r: Rune, count: nat, id: nat, ghost cells: seq<Cell>) returns (failure: Option<Failure>)
      requires Valid() && positionValid && count == |cells| && 0 < count
      requires 0 <= row < publication.rows && 0 <= column && column + count <= publication.cols
      requires id in Styles()
      requires forall i :: 0 <= i < |cells| ==>
                 CellText(cells[i]) == [r] && cells[i].width == 1 && StyleShows(Styles(), id, cells[i])
      modifies this
      ensures failure.None? ==>
                && Valid() && At(old(row), old(column) + count)
                && SameFrame(old(progress), progress) && Styles() == old(Styles())
                && progress.wants == old(progress.wants) + RunWants(old(row), old(column), cells)
                && pending.PendingFill?
      ensures failure.Some? ==> RefusedOf(publication, failure.value)
    {
      hide Good, Linked, InstallsCover, TableGrown, Encodable, AfterPending, StyleShows, CellText, RunWants;
      if pending.PendingFill? && pending.styleId == id && pending.fillRune == r {
        FillStyle(progress, Fields());
        ghost var after := FillSound(progress, Fields(), r, cells, id);
        pending := PendingFill(id, r, pending.columns + count);
        progress := after;
      } else {
        failure := FinishPending();
        if failure.Some? {
          return;
        }
        failure := SelectStyle(id);
        if failure.Some? {
          return;
        }
        ghost var after := FillSound(progress, Fields(), r, cells, id);
        pending := PendingFill(id, r, 0 + count);
        progress := after;
      }
      Advance(count);
      return None;
    }

    static lemma {:induction false} FillStyle(w: Progress, core: Core)
      requires Sound(w, core) && core.pending.PendingFill?
      ensures core.pending.styleId == w.shown.styleId && core.pending.styleId in w.shown.styles
    {
    }

    method WriteClusterCell(text: Text, width: nat, id: nat, ghost cell: Cell) returns (failure: Option<Failure>)
      requires Valid() && positionValid && id in Styles()
      requires 0 <= row < publication.rows && 0 <= column && column + width <= publication.cols
      requires (width == 1 || width == 2) && cell.glyph == Cluster(text) && cell.width == width && StyleShows(Styles(), id, cell)
      requires UsesCluster(publication, width, text)
      modifies this
      ensures failure.None? ==>
                && Valid() && At(old(row), old(column) + width)
                && SameFrame(old(progress), progress) && Styles() == old(Styles())
                && progress.wants == old(progress.wants) + [Want(old(row), old(column), cell)]
      ensures failure.Some? ==> RefusedOf(publication, failure.value)
    {
      hide Sound, TableGrown, UsesCluster, RefusedOf, StyleShows;
      failure := FinishPending();
      if failure.Some? {
        return;
      }
      failure := SelectStyle(id);
      if failure.Some? {
        return;
      }
      ClusterRefused(publication, width, text);
      hide Encodable;
      if !Encodable(WriteCluster(width, text)) {
        return Some(Refused(WriteCluster(width, text)));
      }
      SendCluster(text, width, id, cell);
      return None;
    }

    /** The cluster command itself, with nothing pending before it. */
    method SendCluster(text: Text, width: nat, id: nat, ghost cell: Cell)
      requires Valid() && positionValid && pending.NoPending? && id == progress.shown.styleId && text != []
      requires 0 <= row < publication.rows && 0 <= column && column + width <= publication.cols
      requires (width == 1 || width == 2) && cell.glyph == Cluster(text) && cell.width == width && StyleShows(Styles(), id, cell)
      modifies `frame, `progress, `row, `column
      ensures Valid() && At(old(row), old(column) + width)
      ensures SameFrame(old(progress), progress) && Styles() == old(Styles())
      ensures progress.wants == old(progress.wants) + [Want(old(row), old(column), cell)]
    {
      hide Sound, TableGrown, StyleShows;
      ghost var after := ClusterStep(progress, Fields(), text, cell);
      frame, progress := frame + [WriteCluster(width, text)], after;
      Advance(width);
    }

    predicate BridgeCell(cell: SemanticCell, source: Style) {
      && cell.glyph.SBlank? && cell.width == 1 && cell.style < |publication.styles|
      && BlankStylesEquivalent(publication.styles[cell.style], source)
    }

    /** Blanks that look the same in the pending style, up to a rune of that style. */
    predicate IsBridge(cells: seq<SemanticCell>, start: nat, end: nat)
      reads this
    {
      && pending.PendingText? && pending.width == 1 && start < end < |cells|
      && (forall i :: start <= i < end ==> BridgeCell(cells[i], pending.source))
      && cells[end].glyph.SScalar? && cells[end].width == 1
      && cells[end].style < |publication.styles| && publication.styles[cells[end].style] == pending.source
    }

    /** Blanks between two stretches of the pending style can be written without
        leaving it: finds them if there are any. */
    method BlankBridgeEnd(cells: seq<SemanticCell>, start: nat) returns (end: nat, bridge: bool)
      requires start <= |cells|
      ensures start <= end <= |cells|
      ensures bridge ==> IsBridge(cells, start, end)
      ensures !bridge ==> forall e :: !IsBridge(cells, start, e)
    {
      if !pending.PendingText? || pending.width != 1 {
        return start, false;
      }
      end := start;
      while end < |cells| && BridgeCell(cells[end], pending.source)
        invariant start <= end <= |cells|
        invariant forall i :: start <= i < end ==> BridgeCell(cells[i], pending.source)
      {
        end := end + 1;
      }
      if end == start || end >= |cells| {
        return start, false;
      }
      var next := cells[end];
      bridge := next.style < |publication.styles| && publication.styles[next.style] == pending.source
                && next.glyph.SScalar? && next.width == 1;
    }

    /** What is known while the cells of one run are being compiled: everything
        before `offset` has been written, and the pen stands at `offset`. */
    ghost predicate InRun(before: Progress, run: PublishedRun, sem: seq<Cell>, offset: nat)
      reads this
    {
      && Valid() && offset <= |sem|
      && SameFrame(before, progress)
      && progress.wants == before.wants + RunWants(run.row, run.column, sem[..offset])
      && (forall id :: id in before.shown.styles ==> id in Styles() && Styles()[id] == before.shown.styles[id])
    }

    method WriteBridge(run: PublishedRun, cells: seq<SemanticCell>, ghost sem: seq<Cell>, start: nat, end: nat,
                       style: Style, id: nat, ghost before: Progress)
      returns (failure: Option<Failure>)
      requires start < end < |cells| == |sem| && sem == ResolveAll(cells, publication.styles, publication.clusters)
      requires InRun(before, run, sem, start) && At(run.row, run.column + start)
      requires run.row < publication.rows && run.column + |sem| <= publication.cols
      requires forall i :: start <= i < end ==> BridgeCell(cells[i], style)
      requires id in Styles() && Styles()[id] == style
      modifies this
      ensures failure.None? ==>
                && InRun(before, run, sem, end) && At(run.row, run.column + end) && Styles() == old(Styles())
                && pending.PendingText? && pending.source == style
      ensures failure.Some? ==> RefusedOf(publication, failure.value)
    {
      hide Sound, TableGrown, Encodable, RunWants, BlankStylesEquivalent;
      var offset := start;
      while offset < end
        invariant start <= offset <= end
        invariant InRun(before, run, sem, offset) && At(run.row, run.column + offset)
        invariant Styles() == old(Styles()) && (offset > start ==> pending.PendingText? && pending.source == style)
      {
        assert BridgeCell(cells[offset], style);
        BridgeShows(Styles(), id, cells[offset], style);
        NextWant(run.row, run.column, sem, offset);
        failure := QueueRune(SPACE, 1, style, id, sem[offset]);
        if failure.Some? {
          return;
        }
        offset := offset + 1;
      }
      return None;
    }

    lemma {:induction false} BridgeShows(table: map<nat, Style>, id: nat, cell: SemanticCell, style: Style)
      requires BridgeCell(cell, style) && id in table && table[id] == style
      ensures var sem := Resolve(cell, publication.styles, publication.clusters);
              sem.width == 1 && CellText(sem) == [SPACE] && StyleShows(table, id, sem) && !sem.glyph.Continuation?
    {
      EquivalentLooks(publication.styles[cell.style], style);
    }

    /** Between letters of the default style a reversed blank is bridged, and so drawn
        on the default background instead of the default foreground. */
    lemma {:induction false} ReversedBlankBridged(cells: seq<SemanticCell>, letter: Rune)
      requires publication.styles == [DEFAULT_STYLE, DEFAULT_STYLE.(reverse := true)]
      requires pending.PendingText? && pending.width == 1 && pending.source == DEFAULT_STYLE
      requires cells == [SemanticCell(SBlank, 1, 1), SemanticCell(SScalar(letter), 0, 1)]
      ensures IsBridge(cells, 0, 1) && SpaceLook(publication.styles[1]) != SpaceLook(pending.source)
    {
      assert cells[0] == SemanticCell(SBlank, 1, 1);
    }

    lemma {:induction false} CellShows(table: map<nat, Style>, id: nat, cell: SemanticCell)
      requires cell.style < |publication.styles| && id in table && table[id] == publication.styles[cell.style]
      ensures StyleShows(table, id, Resolve(cell, publication.styles, publication.clusters))
    {
    }

    static function CellRune(cell: SemanticCell): Rune
      requires cell.glyph.SBlank? || cell.glyph.SScalar?
    {
      if cell.glyph.SBlank? then SPACE else cell.glyph.r
    }

    /** Equal neighbours worth a fill: any number extends a matching pending fill,
        otherwise at least three are needed. */
    method CountEqual(cells: seq<SemanticCell>, offset: nat, pendingFill: bool) returns (count: nat)
      requires offset < |cells|
      ensures 1 <= count && offset + count <= |cells|
      ensures forall i :: offset <= i < offset + count ==> cells[i] == cells[offset]
    {
      count := 1;
      if !pendingFill {
        if offset + 2 >= |cells| || cells[offset + 1] != cells[offset] || cells[offset + 2] != cells[offset] {
          return;
        }
        count := 3;
      }
      while offset + count < |cells| && cells[offset + count] == cells[offset]
        invariant 1 <= count && offset + count <= |cells|
        invariant forall i :: offset <= i < offset + count ==> cells[i] == cells[offset]
      {
        count := count + 1;
      }
    }

    method FillCells(run: PublishedRun, cells: seq<SemanticCell>, ghost sem: seq<Cell>, offset: nat, count: nat,
                     style: Style, id: nat, ghost before: Progress)
      returns (failure: Option<Failure>)
      requires offset < offset + count <= |cells| == |sem| && sem == ResolveAll(cells, publication.styles, publication.clusters)
      requires InRun(before, run, sem, offset) && At(run.row, run.column + offset)
      requires run.row < publication.rows && run.column + |sem| <= publication.cols
      requires forall i :: offset <= i < offset + count ==> cells[i] == cells[offset]
      requires cells[offset].width == 1 && (cells[offset].glyph.SBlank? || cells[offset].glyph.SScalar?)
      requires cells[offset].style < |publication.styles| && publication.styles[cells[offset].style] == style
      requires id in Styles() && Styles()[id] == style
      modifies this
      ensures failure.None? ==>
                && InRun(before, run, sem, offset + count) && At(run.row, run.column + offset + count)
                && Styles() == old(Styles()) && pending.PendingFill?
      ensures failure.Some? ==> RefusedOf(publication, failure.value)
    {
      hide Sound, TableGrown, Encodable, RunWants, StyleShows, ResolveAll;
      ghost var filled := sem[offset..offset + count];
      CellShows(Styles(), id, cells[offset]);
      EqualCells(cells, sem, offset, count, filled);
      assert sem[..offset + count] == sem[..offset] + filled;
      SplitWants(run.row, run.column, sem[..offset], filled);
      failure := QueueFill(CellRune(cells[offset]), count, id, filled);
    }

    lemma {:induction false} EqualCells(cells: seq<SemanticCell>, sem: seq<Cell>, offset: nat, count: nat, filled: seq<Cell>)
      requires offset + count <= |cells| == |sem| && 0 < count && filled == sem[offset..offset + count]
      requires sem == ResolveAll(cells, publication.styles, publication.clusters)
      requires forall i :: offset <= i < offset + count ==> cells[i] == cells[offset]
      requires cells[offset].glyph.SBlank? || cells[offset].glyph.SScalar?
      ensures var cell := Resolve(cells[offset], publication.styles, publication.clusters);
              && CellText(cell) == [CellRune(cells[offset])] && cell.width == cells[offset].width
              && forall i :: 0 <= i < |filled| ==> filled[i] == cell
    {
    }

    method WriteRune(run: PublishedRun, cells: seq<SemanticCell>, ghost sem: seq<Cell>, offset: nat,
                     style: Style, id: nat, ghost before: Progress)
      returns (failure: Option<Failure>)
      requires offset < |cells| == |sem| && sem == ResolveAll(cells, publication.styles, publication.clusters) && ValidRow(sem)
      requires InRun(before, run, sem, offset) && At(run.row, run.column + offset)
      requires run.row < publication.rows && run.column + |sem| <= publication.cols
      requires cells[offset].glyph.SBlank? || cells[offset].glyph.SScalar?
      requires cells[offset].style < |publication.styles| && publication.styles[cells[offset].style] == style
      requires id in Styles() && Styles()[id] == style
      modifies this
      ensures offset + cells[offset].width <= |cells| && 1 <= cells[offset].width
      ensures failure.None? ==>
                && InRun(before, run, sem, offset + cells[offset].width)
                && At(run.row, run.column + offset + cells[offset].width)
                && Styles() == old(Styles()) && pending.PendingText? && pending.source == style
      ensures failure.Some? ==> RefusedOf(publication, failure.value)
    {
      hide Sound, TableGrown, Encodable, RunWants, StyleShows, ValidRow, PairedWidths;
      var width := cells[offset].width;
      assert sem[offset] == Resolve(cells[offset], publication.styles, publication.clusters);
      PairAt(sem, offset);
      CellShows(Styles(), id, cells[offset]);
      NextWant(run.row, run.column, sem, offset);
      if width == 2 {
        NextWant(run.row, run.column, sem, offset + 1);
      }
      failure := QueueRune(CellRune(cells[offset]), width, style, id, sem[offset]);
    }

    /** Cells of one width, in one style or bridged into it. */
    method CompileText(run: PublishedRun, cells: seq<SemanticCell>, ghost sem: seq<Cell>, start: nat,
                       style: Style, id: nat, ghost before: Progress)
      returns (failure: Option<Failure>, offset: nat)
      requires start < |cells| == |sem| && sem == ResolveAll(cells, publication.styles, publication.clusters) && ValidRow(sem)
      requires InRun(before, run, sem, start) && At(run.row, run.column + start)
      requires run.row < publication.rows && run.column + |sem| <= publication.cols
      requires cells[start].glyph.SBlank? || cells[start].glyph.SScalar?
      requires cells[start].style < |publication.styles| && publication.styles[cells[start].style] == style
      requires id in Styles() && Styles()[id] == style
      modifies this
      ensures failure.None? ==> start < offset <= |cells| && InRun(before, run, sem, offset)
      ensures failure.Some? ==> RefusedOf(publication, failure.value)
    {
      hide Sound, TableGrown, Encodable, RunWants, StyleShows, ValidRow, ResolveAll, FillIsSmaller, BlankStylesEquivalent;
      offset := start;
      while offset < |cells|
        invariant start <= offset <= |cells|
        invariant InRun(before, run, sem, offset) && At(run.row, run.column + offset)
        invariant id in Styles() && Styles()[id] == style
        invariant offset > start && pending.PendingText? ==> pending.source == style
        decreases |cells| - offset
      {
        var current := cells[offset];
        if current.glyph.SCluster? || current.glyph.SContinuation? || current.width != cells[start].width {
          return None, offset;
        }
        if current.style != cells[start].style {
          var end, bridge := BlankBridgeEnd(cells, offset);
          if !bridge {
            return None, offset;
          }
          failure := WriteBridge(run, cells, sem, offset, end, style, id, before);
          if failure.Some? {
            return;
          }
          offset := end;
          continue;
        }
        var r := CellRune(current);
        if cells[start].width == 1 {
          var pendingFill := pending.PendingFill? && pending.styleId == id && pending.fillRune == r;
          var count := CountEqual(cells, offset, pendingFill);
          if (pendingFill || count > 1) && FillIsSmaller(pending, styleValid, styleId, r, count, id) {
            failure := FillCells(run, cells, sem, offset, count, style, id, before);
            if failure.Some? {
              return;
            }
            offset := offset + count;
            continue;
          }
        }
        failure := WriteRune(run, cells, sem, offset, style, id, before);
        if failure.Some? {
          return;
        }
        offset := offset + current.width;
      }
      return None, offset;
    }

    lemma {:induction false} StyleUsed(cell: SemanticCell)
      requires cell in publication.cells && cell.style < |publication.styles|
      ensures UsesStyle(publication, publication.styles[cell.style])
    {
    }

    lemma {:induction false} ClusterUsed(cell: SemanticCell)
      requires cell in publication.cells && cell.glyph.SCluster? && !ClusterOutside(publication, cell)
      ensures UsesCluster(publication, cell.width, publication.clusters[cell.glyph.start..cell.glyph.start + cell.glyph.length])
    {
    }

    method CompileCluster(run: PublishedRun, cells: seq<SemanticCell>, ghost sem: seq<Cell>, offset: nat,
                          id: nat, ghost before: Progress)
      returns (failure: Option<Failure>)
      requires offset < |cells| == |sem| && sem == ResolveAll(cells, publication.styles, publication.clusters) && ValidRow(sem)
      requires InRun(before, run, sem, offset) && At(run.row, run.column + offset)
      requires run.row < publication.rows && run.column + |sem| <= publication.cols
      requires cells[offset].glyph.SCluster? && !ClusterOutside(publication, cells[offset])
      requires UsesCluster(publication, cells[offset].width,
                           publication.clusters[cells[offset].glyph.start..cells[offset].glyph.start + cells[offset].glyph.length])
      requires cells[offset].style < |publication.styles|
      requires id in Styles() && Styles()[id] == publication.styles[cells[offset].style]
      modifies this
      ensures offset + cells[offset].width <= |cells| && 1 <= cells[offset].width
      ensures failure.None? ==> InRun(before, run, sem, offset + cells[offset].width)
      ensures failure.Some? ==> RefusedOf(publication, failure.value)
    {
      hide Sound, TableGrown, Encodable, RunWants, StyleShows, ValidRow, PairedWidths, UsesCluster, RefusedOf;
      var cell := cells[offset];
      var text := publication.clusters[cell.glyph.start..cell.glyph.start + cell.glyph.length];
      assert sem[offset] == Resolve(cell, publication.styles, publication.clusters);
      PairAt(sem, offset);
      CellShows(Styles(), id, cell);
      NextWant(run.row, run.column, sem, offset);
      if cell.width == 2 {
        NextWant(run.row, run.column, sem, offset + 1);
      }
      failure := WriteClusterCell(text, cell.width, id, sem[offset]);
    }

    method CompileClusterCell(run: PublishedRun, cells: seq<SemanticCell>, ghost sem: seq<Cell>, offset: nat,
                              id: nat, ghost before: Progress)
      returns (failure: Option<Failure>, next: nat)
      requires offset < |cells| == |sem| && sem == ResolveAll(cells, publication.styles, publication.clusters) && ValidRow(sem)
      requires InRun(before, run, sem, offset) && At(run.row, run.column + offset)
      requires run.row < publication.rows && run.column + |sem| <= publication.cols
      requires cells[offset] in publication.cells && cells[offset].glyph.SCluster? && cells[offset].style < |publication.styles|
      requires id in Styles() && Styles()[id] == publication.styles[cells[offset].style]
      modifies this
      ensures failure.None? ==> offset < next <= |cells| && InRun(before, run, sem, next)
      ensures failure.Some? ==> FailureExplained(publication, start, failure.value)
    {
      hide Sound, TableGrown, Encodable, RunWants, StyleShows, ResolveAll, ValidRow, RefusedOf, UsesCluster, InRun;
      if ClusterOutside(publication, cells[offset]) {
        return Some(BadCluster), offset;
      }
      ClusterUsed(cells[offset]);
      failure := CompileCluster(run, cells, sem, offset, id, before);
      next := offset + cells[offset].width;
    }

    /** The cell at `offset`, together with the cells its text or bridge takes along. */
    method CompileCell(run: PublishedRun, cells: seq<SemanticCell>, ghost sem: seq<Cell>, offset: nat, ghost before: Progress)
      returns (failure: Option<Failure>, next: nat)
      requires offset < |cells| == |sem| && sem == ResolveAll(cells, publication.styles, publication.clusters) && ValidRow(sem)
      requires InRun(before, run, sem, offset)
      requires run.row < publication.rows && run.column + |sem| <= publication.cols
      requires cells[offset] in publication.cells
      modifies this
      ensures failure.None? ==> offset < next <= |cells| && InRun(before, run, sem, next)
      ensures failure.Some? ==> FailureExplained(publication, start, failure.value)
    {
      hide Sound, TableGrown, Encodable, RunWants, StyleShows, ResolveAll, ValidRow, BlankStylesEquivalent, RefusedOf, UsesStyle;
      var cell := cells[offset];
      next := offset + 1;
      if cell.glyph.SContinuation? {
        NextWant(run.row, run.column, sem, offset);
        Continued(cells, sem, offset);
        return None, offset + 1;
      }
      failure := MoveTo(run.row, run.column + offset);
      if failure.Some? {
        return;
      }
      if cell.style >= |publication.styles| {
        return Some(BadStyle), offset;
      }
      var end, bridge := BlankBridgeEnd(cells, offset);
      if bridge {
        PendingSource(progress, Fields());
        failure := WriteBridge(run, cells, sem, offset, end, pending.source, pending.styleId, before);
        return failure, end;
      }
      var id;
      StyleUsed(cell);
      failure, id := EnsureStyle(publication.styles[cell.style]);
      if failure.Some? {
        return;
      }
      if cell.glyph.SCluster? {
        failure, next := CompileClusterCell(run, cells, sem, offset, id, before);
        return;
      }
      failure, next := CompileText(run, cells, sem, offset, publication.styles[cell.style], id, before);
    }

    method CompileRun(index: nat) returns (failure: Option<Failure>)
      requires Valid() && WellFormed(publication) && index < |publication.runs|
      modifies this
      ensures failure.None? ==>
                var run := publication.runs[index];
                && Valid()
                && SameFrame(old(progress), progress)
                && progress.wants == old(progress.wants) + RunWants(run.row, run.column, RunCells(publication, run))
      ensures failure.Some? ==> FailureExplained(publication, start, failure.value)
    {
      hide Sound, TableGrown, Encodable, RunWants, StyleShows, ResolveAll, ValidRow, BlankStylesEquivalent;
      var run := publication.runs[index];
      if !RunInRange(publication, run) {
        return Some(BadRun);
      }
      var cells := publication.cells[run.cellStart..run.cellStart + run.columns];
      ghost var before := progress;
      ghost var sem := RunCells(publication, run);
      assert sem == ResolveAll(cells, publication.styles, publication.clusters);
      var offset := 0;
      RunStarted(run.row, run.column, sem, before.wants);
      while offset < |cells|
        invariant 0 <= offset <= |cells| == |sem|
        invariant InRun(before, run, sem, offset)
        decreases |cells| - offset
      {
        failure, offset := CompileCell(run, cells, sem, offset, before);
        if failure.Some? {
          return;
        }
      }
      assert sem[..offset] == sem;
      return None;
    }

    /** All runs, the last pending command, and the cursor. */
    method CompileAll() returns (failure: Option<Failure>)
      requires Valid() && WellFormed(publication) && progress.wants == []
      modifies this
      ensures failure.None? ==> FrameDone(old(progress), publication, frame, styleIds, nextStyleId)
      ensures failure.Some? ==> FailureExplained(publication, start, failure.value)
    {
      hide Sound, TableGrown, Encodable, RunWants, RunsWants, WellFormed;
      ghost var runs := SemanticRuns(publication);
      NoRuns(runs);
      var index := 0;
      while index < |publication.runs|
        invariant 0 <= index <= |publication.runs| == |runs|
        invariant Valid() && SameFrame(old(progress), progress)
        invariant progress.wants == RunsWants(runs[..index])
      {
        failure := CompileRun(index);
        if failure.Some? {
          return;
        }
        NextRun(runs, index);
        index := index + 1;
      }
      assert runs[..index] == runs;
      failure := FinishPending();
      if failure.Some? {
        return;
      }
      failure := WriteCursor();
    }

    /** The cursor, when it changed, is the frame's last command. */
    method WriteCursor() returns (failure: Option<Failure>)
      requires Valid() && pending.NoPending? && progress.wants == RunsWants(SemanticRuns(publication))
      modifies this
      ensures failure.None? ==> FrameDone(old(progress), publication, frame, styleIds, nextStyleId)
      ensures failure.Some? ==> FailureExplained(publication, start, failure.value)
    {
      hide Sound, TableGrown, Encodable, RunsWants;
      Finished(progress, Fields());
      if publication.cursorChanged {
        var command := UpdateCursor(publication.cursor);
        if !Encodable(command) {
          return Some(Refused(command));
        }
        ExecAllAppend(progress.start, frame, command);
        frame := frame + [command];
        progress := progress.(shown := progress.shown.(cursor := publication.cursor, cursorUpdated := true));
      }
      assert ExecAll(progress.start, frame) == Some(progress.shown);
      return None;
    }

    static lemma {:induction false} NoRuns(runs: seq<Run>)
      ensures RunsWants(runs[..0]) == []
    {
    }

    static lemma {:induction false} NextRun(runs: seq<Run>, index: nat)
      requires index < |runs|
      ensures RunsWants(runs[..index + 1]) ==
              RunsWants(runs[..index]) + RunWants(runs[index].row, runs[index].column, runs[index].cells)
    {
      assert runs[..index + 1] == runs[..index] + [runs[index]];
      RunsWantsAppend(runs[..index], runs[index]);
    }

    static lemma {:induction false} Finished(w: Progress, core: Core)
      requires Sound(w, core) && core.pending.NoPending?
      ensures ExecAll(w.start, core.frame) == Some(w.shown)
      ensures FulfilsAll(w.shown.canvas.writes, w.wants, w.shown.styles)
      ensures Linked(core.styleIds, core.nextStyleId, w.shown.styles)
      ensures InstallsCover(w.base, w.shown.installs, w.shown.styles) && TableCovers(w.shown.styles, w.base)
      ensures KeepsRest(w.origin, w.shown) && w.shown.hasBarrier
    {
    }

    static lemma {:induction false} RunStarted(row: nat, column: nat, sem: seq<Cell>, wants: seq<Want>)
      ensures wants + RunWants(row, column, sem[..0]) == wants
    {
    }

    lemma {:induction false} Continued(cells: seq<SemanticCell>, sem: seq<Cell>, offset: nat)
      requires offset < |cells| && sem == ResolveAll(cells, publication.styles, publication.clusters)
      requires cells[offset].glyph.SContinuation?
      ensures sem[offset].glyph.Continuation?
    {
    }
  }

  // -------------------------------------------------------- the confirmer

  /** What a compiled frame means to the client that reads it next: it is
      accepted whole, it writes exactly the cells of the publication's runs, and
      it leaves client and server with the same style table. */
  ghost predicate FrameDenotes(client: DisplayState, frame: seq<Command<Text>>, p: Publication,
                               ids: map<Style, nat>, next: nat)
  {
    match ExecAll(BeginFrame(client), frame)
    case None => false
    case Some(after) =>
      && after.hasBarrier && after.canvas.cols == p.cols && after.canvas.rows == p.rows
      && after.revision == (if p.barrier then p.revision else client.revision)
      && after.scroll == p.scroll
      && FulfilsAll(after.canvas.writes, RunsWants(SemanticRuns(p)), after.styles)
      && after.cursor == (if p.cursorChanged then p.cursor else client.cursor)
      && after.cursorUpdated == p.cursorChanged
      && Linked(ids, next, after.styles)
      && InstallsCover(if p.barrier then DEFAULT_STYLES else client.styles, after.installs, after.styles)
      && TableCovers(after.styles, if p.barrier then DEFAULT_STYLES else client.styles)
  }

  /** The client is where the confirmer's wire state says it is. */
  ghost predicate InSync(client: DisplayState, p: Publication, ids: map<Style, nat>, next: nat) {
    && client.hasBarrier && client.canvas.cols == p.cols && client.canvas.rows == p.rows
    && Linked(ids, next, client.styles)
  }

  function BarrierCommands(p: Publication): seq<Command<Text>> {
    [StartRender(p.revision, p.cols, p.rows), StyleInstall(DEFAULT_STYLE_ID, DEFAULT_STYLE)]
  }

  function OpeningCommands(p: Publication): seq<Command<Text>> {
    (if p.barrier then BarrierCommands(p) else []) + (if p.scroll.Some? then [Scroll(p.scroll.value)] else [])
  }

  lemma {:induction false} BarrierMeaning(s: DisplayState, p: Publication)
    requires WellFormed(p)
    ensures ExecAll(s, BarrierCommands(p)) ==
            Some(DisplayState(p.revision, true, Canvas(p.cols, p.rows, 0, 0, []), DEFAULT_STYLE_ID, DEFAULT_STYLES,
                              s.cursor, s.cursorUpdated, false, [StyleDefinition(DEFAULT_STYLE_ID, DEFAULT_STYLE)], None))
  {
    var first: seq<Command<Text>> := [StartRender(p.revision, p.cols, p.rows)];
    assert BarrierCommands(p) == first + [StyleInstall(DEFAULT_STYLE_ID, DEFAULT_STYLE)];
    assert first == [] + first;
    ExecAllAppend(s, [], first[0]);
    assert ExecAll(s, []) == Some(s);
    assert ExecAll(s, first) == Exec(s, first[0]);
    ExecAllAppend(s, first, StyleInstall(DEFAULT_STYLE_ID, DEFAULT_STYLE));
    var installed := StyleDefinition(DEFAULT_STYLE_ID, DEFAULT_STYLE);
    assert [] + [installed] == [installed];
    assert DEFAULT_STYLES[DEFAULT_STYLE_ID := DEFAULT_STYLE] == DEFAULT_STYLES;
  }

  lemma {:induction false} OpeningSound(client: DisplayState, p: Publication, ids: map<Style, nat>, next: nat) returns (w: Progress)
    requires WellFormed(p)
    requires if p.barrier then ids == map[DEFAULT_STYLE := DEFAULT_STYLE_ID] && next == 1 else InSync(client, p, ids, next)
    ensures Sound(w, Core(OpeningCommands(p), ids, next, false, 0, 0, false, 0, NoPending))
    ensures w.start == BeginFrame(client) && w.wants == []
    ensures w.base == if p.barrier then DEFAULT_STYLES else client.styles
    ensures w.origin == w.shown && w.shown.scroll == p.scroll
    ensures w.shown.canvas.cols == p.cols && w.shown.canvas.rows == p.rows
    ensures w.shown.revision == if p.barrier then p.revision else client.revision
    ensures w.shown.cursor == client.cursor && !w.shown.cursorUpdated
  {
    var start := BeginFrame(client);
    var begun := start;
    if p.barrier {
      BarrierMeaning(start, p);
      begun := ExecAll(start, BarrierCommands(p)).value;
      assert begun.installs == [] + [StyleDefinition(DEFAULT_STYLE_ID, DEFAULT_STYLE)];
      InstallsCoverAppend(DEFAULT_STYLES, [], DEFAULT_STYLES, DEFAULT_STYLE_ID, DEFAULT_STYLE);
      assert DEFAULT_STYLES[DEFAULT_STYLE_ID := DEFAULT_STYLE] == DEFAULT_STYLES;
    }
    var scrolled := begun.(scroll := p.scroll);
    if p.scroll.Some? {
      ExecAllAppend(start, if p.barrier then BarrierCommands(p) else [], Scroll(p.scroll.value));
    } else {
      assert OpeningCommands(p) == if p.barrier then BarrierCommands(p) else [];
    }
    w := Progress(start, if p.barrier then DEFAULT_STYLES else client.styles, scrolled, scrolled, []);
  }

  lemma {:induction false} DoneDenotes(client: DisplayState, w: Progress, p: Publication, frame: seq<Command<Text>>,
                                       ids: map<Style, nat>, next: nat)
    requires FrameDone(w, p, frame, ids, next) && w.start == BeginFrame(client)
    requires w.base == (if p.barrier then DEFAULT_STYLES else client.styles) && w.origin.scroll == p.scroll
    requires w.origin.revision == (if p.barrier then p.revision else client.revision)
    requires w.origin.cursor == client.cursor && !w.origin.cursorUpdated
    ensures FrameDenotes(client, frame, p, ids, next) && ids != map[]
  {
    hide ExecAll, FulfilsAll, InstallsCover;
    LinkedNonempty(ids, next, ExecAll(w.start, frame).value.styles);
  }

  datatype CompileResult = Compiled(frame: seq<Command<Text>>) | Failed(failure: Failure)

  /** `paneConfirmer`: the wire state of one output stream. */
  class PaneConfirmer {
    var frame: seq<Command<Text>>
    var styleIds: map<Style, nat>
    var nextStyleId: nat
    var epoch: nat
    var version: nat
    var hasBase: bool

    function Chain(): Base
      reads this
    {
      Base(hasBase, epoch, version)
    }

    constructor ()
      ensures styleIds == map[] && nextStyleId == 0 && Chain() == Base(false, 0, 0)
    {
      frame, styleIds, nextStyleId, epoch, version, hasBase := [], map[], 0, 0, 0, false;
    }

    /** Compiles exactly the publications that continue this stream. */
    method Compile(p: Publication, ghost client: DisplayState) returns (result: CompileResult)
      requires WellFormed(p)
      requires !p.barrier && styleIds != map[] ==> InSync(client, p, styleIds, nextStyleId)
      modifies this
      ensures result == Failed(BrokenChain) <==> !FollowsBase(old(Chain()), p)
      ensures result == Failed(NoBarrier) ==> !p.barrier && old(styleIds) == map[]
      ensures result.Compiled? ==>
                && Chain() == Base(true, p.epoch, p.targetVersion) && styleIds != map[]
                && FrameDenotes(client, result.frame, p, styleIds, nextStyleId)
      ensures result.Failed? && result.failure != BrokenChain && result.failure != NoBarrier ==>
                FailureExplained(p, if p.barrier then 1 else old(nextStyleId), result.failure)
      ensures FollowsBase(old(Chain()), p) && (p.barrier || old(styleIds) != map[]) ==>
                (Compilable(p, if p.barrier then 1 else old(nextStyleId)) ==> result.Compiled?)
    {
      hide Sound, WellFormed, BarrierCommands, InSync, FrameDone, FrameDenotes, FailureExplained, Compilable;
      if !FollowsBase(Chain(), p) {
        return Failed(BrokenChain);
      }
      frame := [];
      if p.barrier {
        styleIds, nextStyleId := map[DEFAULT_STYLE := DEFAULT_STYLE_ID], 1;
        frame := BarrierCommands(p);
      } else if styleIds == map[] {
        return Failed(NoBarrier);
      }
      if p.scroll.Some? {
        frame := frame + [Scroll(p.scroll.value)];
      }
      assert frame == OpeningCommands(p);
      ghost var w := OpeningSound(client, p, styleIds, nextStyleId);
      var compiler := new FrameCompiler(p, frame, styleIds, nextStyleId, w);
      var failure := compiler.CompileAll();
      styleIds, nextStyleId := compiler.styleIds, compiler.nextStyleId;
      if failure.Some? {
        CompilableSends(p, compiler.start, failure.value);
        return Failed(failure.value);
      }
      DoneDenotes(client, w, p, compiler.frame, styleIds, nextStyleId);
      frame := compiler.frame;
      epoch, version, hasBase := p.epoch, p.targetVersion, true;
      return Compiled(frame);
    }
  }
}
