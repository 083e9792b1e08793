/** Speculative echo: typing is painted over the authoritative cache before the
    server confirms it. All cells here are one column wide. */
module Prediction {
  import opened Display
  import opened DisplayInterpreter
  import opened Painting
  import opened ScanoutCache

  // ----------------------------------------------------- painting over a cache

  /** Single-width cells, none holding a literal space. */
  predicate PlainCell(cell: ScanCell) { cell.width == 1 && cell.text != [SPACE] }

  predicate Plain(grid: ScanGrid) {
    forall r, c :: 0 <= r < |grid| && 0 <= c < |grid[r]| ==> PlainCell(grid[r][c])
  }

  function CellOf(w: Write): ScanCell { ScanCell(NormalizedText(w.text, 1), w.styleId, 1) }

  predicate InGrid(grid: ScanGrid, row: int, column: int) {
    0 <= row < |grid| && 0 <= column < |grid[row]|
  }

  /** What a single-width write leaves on a screen. */
  function Put(grid: ScanGrid, w: Write): (out: ScanGrid)
    ensures |out| == |grid| && forall r :: 0 <= r < |grid| ==> |out[r]| == |grid[r]|
  {
    if InGrid(grid, w.row, w.column) then grid[w.row := grid[w.row][w.column := CellOf(w)]] else grid
  }

  function PutAll(grid: ScanGrid, writes: seq<Write>): (out: ScanGrid)
    ensures |out| == |grid| && forall r :: 0 <= r < |grid| ==> |out[r]| == |grid[r]|
    decreases |writes|
  {
    if writes == [] then grid else Put(PutAll(grid, writes[..|writes| - 1]), writes[|writes| - 1])
  }

  lemma {:induction false} PutAllAppend(grid: ScanGrid, a: seq<Write>, b: seq<Write>)
    ensures PutAll(grid, a + b) == PutAll(PutAll(grid, a), b)
    decreases |b|
  {
    if b == [] {
      assert a + b == a;
    } else {
      assert (a + b)[..|a + b| - 1] == a + b[..|b| - 1];
      PutAllAppend(grid, a, b[..|b| - 1]);
    }
  }

  /** A written cell is the same whatever was there; an unwritten one stays. */
  lemma {:induction false} PutAt(a: ScanGrid, b: ScanGrid, writes: seq<Write>, r: int, c: int)
    requires |a| == |b| && (forall i :: 0 <= i < |a| ==> |a[i]| == |b[i]|) && InGrid(a, r, c)
    ensures (r, c) in WrittenKeys(writes) ==> PutAll(a, writes)[r][c] == PutAll(b, writes)[r][c]
    ensures (r, c) !in WrittenKeys(writes) ==> PutAll(a, writes)[r][c] == a[r][c]
    decreases |writes|
  {
    if writes != [] {
      PutAt(a, b, writes[..|writes| - 1], r, c);
    }
  }

  lemma {:induction false} PutPlain(grid: ScanGrid, writes: seq<Write>)
    requires Plain(grid)
    ensures Plain(PutAll(grid, writes))
    decreases |writes|
  {
    if writes != [] {
      PutPlain(grid, writes[..|writes| - 1]);
    }
  }

  /** On single-width grids the cache stores exactly that. */
  lemma {:induction false} PaintIsPut(grid: ScanGrid, writes: seq<Write>)
    requires Narrow(grid) && NarrowWrites(writes) && PaintAll(grid, writes).Some?
    ensures PaintAll(grid, writes).value == PutAll(grid, writes) && Narrow(PutAll(grid, writes))
    decreases |writes|
  {
    if writes != [] {
      var w := writes[|writes| - 1];
      PaintIsPut(grid, writes[..|writes| - 1]);
      var before := PutAll(grid, writes[..|writes| - 1]);
      NarrowWrite(before[w.row], w.column, w.text, w.styleId);
      NarrowPaint(before, w);
    }
  }

  lemma {:induction false} SameGrid(a: ScanGrid, b: ScanGrid)
    requires |a| == |b| && forall r :: 0 <= r < |a| ==> |a[r]| == |b[r]|
    requires forall r, c :: InGrid(a, r, c) ==> a[r][c] == b[r][c]
    ensures a == b
  {
    forall r | 0 <= r < |a| ensures a[r] == b[r] {
      forall c | 0 <= c < |a[r]| ensures a[r][c] == b[r][c] {
        assert InGrid(a, r, c);
      }
    }
  }

  // ---------------------------------------------------------------- operations

  datatype OperationKind = Insert | Backspace

  datatype Operation = Operation(sequence: nat, kind: OperationKind, rune: Rune, position: Cursor, cursorAfter: Cursor, styleId: nat)

  function DisplayChar(op: Operation): Rune {
    if op.kind.Backspace? then SPACE else op.rune
  }

  function OpWrite(op: Operation): Write {
    Write(op.position.y, op.position.x, [DisplayChar(op)], 1, op.styleId)
  }

  function OpWrites(ops: seq<Operation>): (writes: seq<Write>)
    ensures |writes| == |ops|
    ensures forall i :: 0 <= i < |ops| ==> writes[i] == OpWrite(ops[i])
  {
    seq(|ops|, i requires 0 <= i < |ops| => OpWrite(ops[i]))
  }

  /** A grid with operations painted over it, oldest first. */
  function Overlay(grid: ScanGrid, ops: seq<Operation>): (out: ScanGrid)
    ensures |out| == |grid| && forall r :: 0 <= r < |grid| ==> |out[r]| == |grid[r]|
  {
    PutAll(grid, OpWrites(ops))
  }

  function Spots(ops: seq<Operation>): set<(int, int)> {
    WrittenKeys(OpWrites(ops))
  }

  lemma {:induction false} OpWritesAppend(ops: seq<Operation>, op: Operation)
    ensures OpWrites(ops + [op]) == OpWrites(ops) + [OpWrite(op)]
    ensures Spots(ops + [op]) == Spots(ops) + {(op.position.y, op.position.x)}
  {
    var writes := OpWrites(ops) + [OpWrite(op)];
    assert OpWrites(ops + [op]) == writes;
    assert writes[..|ops|] == OpWrites(ops);
  }

  lemma {:induction false} SpotOf(ops: seq<Operation>, p: (int, int))
    ensures p in Spots(ops) <==> exists i :: 0 <= i < |ops| && (ops[i].position.y, ops[i].position.x) == p
    decreases |ops|
  {
    if ops != [] {
      var init, last := ops[..|ops| - 1], ops[|ops| - 1];
      assert ops == init + [last];
      SpotOf(init, p);
      OpWritesAppend(init, last);
      if p in Spots(init) {
        var i :| 0 <= i < |init| && (init[i].position.y, init[i].position.x) == p;
        assert ops[i] == init[i];
      }
      if p == (last.position.y, last.position.x) {
        assert ops[|init|] == last;
      }
    }
  }

  predicate OpsInside(ops: seq<Operation>, grid: ScanGrid) {
    forall i :: 0 <= i < |ops| ==> InGrid(grid, ops[i].position.y, ops[i].position.x)
  }

  function LastCursor(ops: seq<Operation>): Option<Cursor> {
    if ops == [] then None else Some(ops[|ops| - 1].cursorAfter)
  }

  // ------------------------------------------------------- repairs and overlays

  /** Writes that put a grid's own cells back. */
  ghost predicate Restores(writes: seq<Write>, grid: ScanGrid) {
    forall i :: 0 <= i < |writes| ==>
      InGrid(grid, writes[i].row, writes[i].column) && CellOf(writes[i]) == grid[writes[i].row][writes[i].column]
  }

  lemma {:induction false} RestoredAt(screen: ScanGrid, grid: ScanGrid, writes: seq<Write>, r: int, c: int)
    requires Restores(writes, grid) && |screen| == |grid| && (forall i :: 0 <= i < |grid| ==> |screen[i]| == |grid[i]|) && InGrid(grid, r, c)
    ensures PutAll(screen, writes)[r][c] == if (r, c) in WrittenKeys(writes) then grid[r][c] else screen[r][c]
    decreases |writes|
  {
    if writes != [] {
      var init, last := writes[..|writes| - 1], writes[|writes| - 1];
      assert forall i :: 0 <= i < |init| ==> init[i] == writes[i];
      RestoredAt(screen, grid, init, r, c);
    }
  }

  /** After local input: repairs where predictions went away, then the remaining
      ones, leave the cache under exactly the remaining ones. */
  lemma {:induction false} RepaintOverlay(grid: ScanGrid, before: seq<Operation>, repairs: seq<Write>, after: seq<Operation>)
    requires Restores(repairs, grid)
    requires forall r, c :: InGrid(grid, r, c) && (r, c) in Spots(before) ==> (r, c) in WrittenKeys(repairs) || (r, c) in Spots(after)
    ensures PutAll(PutAll(Overlay(grid, before), repairs), OpWrites(after)) == Overlay(grid, after)
  {
    var screen := Overlay(grid, before);
    var repaired := PutAll(screen, repairs);
    var out := PutAll(repaired, OpWrites(after));
    forall r, c | InGrid(out, r, c) ensures out[r][c] == Overlay(grid, after)[r][c] {
      PutAt(repaired, grid, OpWrites(after), r, c);
      PutAt(grid, repaired, OpWrites(after), r, c);
      RestoredAt(screen, grid, repairs, r, c);
      PutAt(grid, grid, OpWrites(before), r, c);
    }
    SameGrid(out, Overlay(grid, after));
  }

  /** After an authoritative frame: the frame's writes, then a decoration. Every
      prediction shown before is overwritten by the frame, repaired, or still shown. */
  lemma {:induction false} FrameOverlay(was: ScanGrid, writes: seq<Write>, before: seq<Operation>, repairs: seq<Write>, after: seq<Operation>)
    requires Restores(repairs, PutAll(was, writes))
    requires forall r, c :: InGrid(was, r, c) && (r, c) in Spots(before) ==>
               (r, c) in WrittenKeys(writes) || (r, c) in WrittenKeys(repairs) || (r, c) in Spots(after)
    ensures PutAll(PutAll(PutAll(Overlay(was, before), writes), repairs), OpWrites(after)) == Overlay(PutAll(was, writes), after)
  {
    var screen, grid := Overlay(was, before), PutAll(was, writes);
    var written := PutAll(screen, writes);
    var repaired := PutAll(written, repairs);
    var out := PutAll(repaired, OpWrites(after));
    forall r, c | InGrid(out, r, c) ensures out[r][c] == Overlay(grid, after)[r][c] {
      PutAt(repaired, grid, OpWrites(after), r, c);
      PutAt(grid, repaired, OpWrites(after), r, c);
      RestoredAt(written, grid, repairs, r, c);
      PutAt(screen, was, writes, r, c);
      PutAt(was, screen, writes, r, c);
      PutAt(was, was, OpWrites(before), r, c);
    }
    SameGrid(out, Overlay(grid, after));
  }

  // -------------------------------------------------------------------- spans

  ghost predicate NarrowSpans(spans: seq<Span>) {
    WholeSpans(spans) && forall i :: 0 <= i < |spans| ==> spans[i].width == 1
  }

  /** `predictionSpans`: neighbours of one style share a span. */
  method PredictionSpans(ops: seq<Operation>) returns (spans: seq<Span>)
    ensures SpansWrites(spans) == OpWrites(ops) && NarrowSpans(spans)
  {
    hide OpWrites, SpansWrites, RuneWrites;
    spans := [];
    NoSpan();
    assert ops[..0] == [];
    var i := 0;
    while i < |ops|
      invariant 0 <= i <= |ops| && NarrowSpans(spans) && SpansWrites(spans) == OpWrites(ops[..i])
    {
      var op := ops[i];
      assert ops[..i + 1] == ops[..i] + [op];
      OpWritesAppend(ops[..i], op);
      if |spans| > 0 {
        var last := spans[|spans| - 1];
        if last.TextSpan? && last.row == op.position.y && last.column + |last.text| == op.position.x && last.styleId == op.styleId {
          GrowSpan(spans, op);
          spans := spans[..|spans| - 1] + [last.(text := last.text + [DisplayChar(op)])];
          i := i + 1;
          continue;
        }
      }
      NewSpan(spans, op);
      spans := spans + [TextSpan(op.position.y, op.position.x, op.styleId, 1, [DisplayChar(op)])];
      i := i + 1;
    }
    assert ops[..i] == ops;
  }

  lemma {:induction false} NoSpan()
    ensures SpansWrites([]) == [] && OpWrites([]) == []
  {
  }

  lemma {:induction false} OneRune(row: int, column: int, r: Rune, id: nat)
    ensures RuneWrites(row, column, [r], 1, id) == [Write(row, column, [r], 1, id)]
  {
    assert [r][..0] == [];
    assert RuneWrites(row, column, [], 1, id) == [];
  }

  lemma {:induction false} NewSpan(spans: seq<Span>, op: Operation)
    requires NarrowSpans(spans)
    ensures var more := spans + [TextSpan(op.position.y, op.position.x, op.styleId, 1, [DisplayChar(op)])];
            SpansWrites(more) == SpansWrites(spans) + [OpWrite(op)] && NarrowSpans(more)
  {
    hide SpansWrites;
    var span := TextSpan(op.position.y, op.position.x, op.styleId, 1, [DisplayChar(op)]);
    SpansWritesAppend(spans, span);
    OneRune(op.position.y, op.position.x, DisplayChar(op), op.styleId);
  }

  lemma {:induction false} GrowSpan(spans: seq<Span>, op: Operation)
    requires NarrowSpans(spans) && spans != [] && spans[|spans| - 1].TextSpan?
    requires var last := spans[|spans| - 1];
             last.row == op.position.y && last.column + |last.text| == op.position.x && last.styleId == op.styleId
    ensures var last := spans[|spans| - 1];
            var more := spans[..|spans| - 1] + [last.(text := last.text + [DisplayChar(op)])];
            SpansWrites(more) == SpansWrites(spans) + [OpWrite(op)] && NarrowSpans(more)
  {
    hide SpansWrites, RuneWrites;
    var init, last := spans[..|spans| - 1], spans[|spans| - 1];
    var grown := last.(text := last.text + [DisplayChar(op)]);
    assert spans == init + [last];
    SpansWritesAppend(init, last);
    SpansWritesAppend(init, grown);
    RuneWritesAppend(last.row, last.column, last.text, DisplayChar(op), 1, last.styleId);
    ColumnsOfFill(|last.text|, 1);
  }

  /** `repairSpans`: the authoritative cells at the operations' positions, each once. */
  method RepairSpans(ops: seq<Operation>, view: PaneScanoutCache) returns (spans: seq<Span>)
    requires view.Valid() && Plain(view.grid)
    ensures NarrowSpans(spans) && Restores(SpansWrites(spans), view.grid)
    ensures forall r, c :: InGrid(view.grid, r, c) && (r, c) in Spots(ops) ==> (r, c) in WrittenKeys(SpansWrites(spans))
  {
    hide SpansWrites, WrittenKeys, OpWrites, Restores;
    var seen: set<(int, int)> := {};
    spans := [];
    NothingRestored(view.grid);
    var i := 0;
    while i < |ops|
      invariant 0 <= i <= |ops| && NarrowSpans(spans) && Restores(SpansWrites(spans), view.grid)
      invariant WrittenKeys(SpansWrites(spans)) == seen
      invariant forall k :: 0 <= k < i && InGrid(view.grid, ops[k].position.y, ops[k].position.x) ==> (ops[k].position.y, ops[k].position.x) in seen
    {
      var row, column := ops[i].position.y, ops[i].position.x;
      if !((row, column) in seen || row < 0 || row >= view.rows || column < 0 || column >= view.cols) {
        seen := seen + {(row, column)};
        var cell := view.CellAt(row, column);
        assert PlainCell(view.grid[row][column]);
        var span := if cell.text == [] then TextSpan(row, column, cell.styleId, cell.width, [SPACE])
                    else ClusterSpan(row, column, cell.styleId, cell.width, cell.text);
        RestoreOne(spans, span, view.grid);
        spans := spans + [span];
      }
      i := i + 1;
    }
    forall r, c | InGrid(view.grid, r, c) && (r, c) in Spots(ops) ensures (r, c) in seen {
      SpotOf(ops, (r, c));
    }
  }

  lemma {:induction false} NothingRestored(grid: ScanGrid)
    ensures Restores(SpansWrites([]), grid) && WrittenKeys(SpansWrites([])) == {}
  {
  }

  lemma {:induction false} RestoreOne(spans: seq<Span>, span: Span, grid: ScanGrid)
    requires NarrowSpans(spans) && Restores(SpansWrites(spans), grid)
    requires InGrid(grid, span.row, span.column) && PlainCell(grid[span.row][span.column])
    requires var cell := grid[span.row][span.column];
             span == if cell.text == [] then TextSpan(span.row, span.column, cell.styleId, 1, [SPACE])
                     else ClusterSpan(span.row, span.column, cell.styleId, 1, cell.text)
    ensures NarrowSpans(spans + [span]) && Restores(SpansWrites(spans + [span]), grid)
    ensures WrittenKeys(SpansWrites(spans + [span])) == WrittenKeys(SpansWrites(spans)) + {(span.row, span.column)}
  {
    hide SpansWrites, WrittenKeys;
    SpansWritesAppend(spans, span);
    if span.TextSpan? {
      OneRune(span.row, span.column, SPACE, span.styleId);
    }
    var w := SpanWrites(span)[0];
    assert SpanWrites(span) == [w] && CellOf(w) == grid[span.row][span.column];
    LastKey(SpansWrites(spans), w);
  }

  /** `repairRemovedPredictions`. */
  method RepairRemoved(before: seq<Operation>, after: seq<Operation>, view: PaneScanoutCache) returns (spans: seq<Span>)
    requires view.Valid() && Plain(view.grid)
    ensures NarrowSpans(spans) && Restores(SpansWrites(spans), view.grid)
    ensures forall r, c :: InGrid(view.grid, r, c) && (r, c) in Spots(before) ==>
              (r, c) in WrittenKeys(SpansWrites(spans)) || (r, c) in Spots(after)
  {
    hide SpansWrites, WrittenKeys, OpWrites, Restores;
    var remaining: map<(int, int), Rune> := map[];
    var i := 0;
    while i < |after|
      invariant 0 <= i <= |after|
      invariant forall p :: p in remaining ==> exists k :: 0 <= k < i && (after[k].position.y, after[k].position.x) == p
    {
      remaining := remaining[(after[i].position.y, after[i].position.x) := DisplayChar(after[i])];
      i := i + 1;
    }
    var removed: seq<Operation> := [];
    i := 0;
    while i < |before|
      invariant 0 <= i <= |before|
      invariant forall k :: 0 <= k < i && (before[k].position.y, before[k].position.x) !in remaining ==> before[k] in removed
    {
      var p := (before[i].position.y, before[i].position.x);
      if p !in remaining || remaining[p] != DisplayChar(before[i]) {
        removed := removed + [before[i]];
      }
      i := i + 1;
    }
    spans := RepairSpans(removed, view);
    forall r, c | InGrid(view.grid, r, c) && (r, c) in Spots(before)
      ensures (r, c) in WrittenKeys(SpansWrites(spans)) || (r, c) in Spots(after)
    {
      SpotOf(before, (r, c));
      SpotOf(after, (r, c));
      SpotOf(removed, (r, c));
      if (r, c) !in remaining {
        var k :| 0 <= k < |before| && (before[k].position.y, before[k].position.x) == (r, c);
        assert before[k] in removed;
        var j :| 0 <= j < |removed| && removed[j] == before[k];
      }
    }
  }

  // ------------------------------------------------------------ confirmation

  predicate CellMatches(cell: ScanCell, r: Rune) {
    cell.width == 1 && if r == SPACE then cell.text == [] else cell.text == [r]
  }

  /** The character the last operation at a position shows. */
  function LastRune(ops: seq<Operation>, p: (int, int)): Option<Rune> {
    if ops == [] then None
    else
      var last := ops[|ops| - 1];
      if (last.position.y, last.position.x) == p then Some(DisplayChar(last)) else LastRune(ops[..|ops| - 1], p)
  }

  lemma {:induction false} LastRuneSpot(ops: seq<Operation>, p: (int, int))
    ensures LastRune(ops, p).Some? <==> p in Spots(ops)
    decreases |ops|
  {
    if ops != [] {
      assert ops == ops[..|ops| - 1] + [ops[|ops| - 1]];
      OpWritesAppend(ops[..|ops| - 1], ops[|ops| - 1]);
      LastRuneSpot(ops[..|ops| - 1], p);
    }
  }

  /** The frame confirms the first `k` operations: it put the cursor where they
      lead and wrote, at each of their positions, what they show. */
  ghost predicate Confirms(ops: seq<Operation>, k: nat, touched: Evidence, cursor: Cursor) {
    && 0 < k <= |ops| && ops[k - 1].cursorAfter == cursor
    && forall p :: LastRune(ops[..k], p).Some? ==> p in touched && CellMatches(touched[p].after, LastRune(ops[..k], p).value)
  }

  /** It also earns trust: somewhere it changed the screen to what was predicted. */
  ghost predicate EarnsTrust(ops: seq<Operation>, k: nat, touched: Evidence)
    requires k <= |ops|
  {
    exists p :: LastRune(ops[..k], p).Some? && LastRune(ops[..k], p).value != SPACE
                && p in touched && !CellMatches(touched[p].before, LastRune(ops[..k], p).value)
  }

  /** One candidate prefix against the evidence. */
  method CheckEffects(effects: map<(int, int), Rune>, touched: Evidence) returns (matches: bool, credit: bool)
    ensures matches <==> forall p :: p in effects ==> p in touched && CellMatches(touched[p].after, effects[p])
    ensures matches ==> (credit <==> exists p :: p in effects && effects[p] != SPACE && p in touched && !CellMatches(touched[p].before, effects[p]))
  {
    matches, credit := true, false;
    var todo := effects.Keys;
    while todo != {}
      invariant todo <= effects.Keys
      invariant forall p :: p in effects && p !in todo ==> p in touched && CellMatches(touched[p].after, effects[p])
      invariant credit <==> exists p :: p in effects && p !in todo && effects[p] != SPACE && p in touched && !CellMatches(touched[p].before, effects[p])
      decreases |todo|
    {
      var p :| p in todo;
      todo := todo - {p};
      if p !in touched || !CellMatches(touched[p].after, effects[p]) {
        return false, false;
      }
      if effects[p] != SPACE && !CellMatches(touched[p].before, effects[p]) {
        credit := true;
      }
    }
  }

  ghost predicate EffectsOf(effects: map<(int, int), Rune>, ops: seq<Operation>) {
    forall p :: (p in effects <==> LastRune(ops, p).Some?) && (p in effects ==> effects[p] == LastRune(ops, p).value)
  }

  lemma {:induction false} NextRune(ops: seq<Operation>, index: nat)
    requires index < |ops|
    ensures forall effects: map<(int, int), Rune> :: EffectsOf(effects, ops[..index]) ==>
              EffectsOf(effects[(ops[index].position.y, ops[index].position.x) := DisplayChar(ops[index])], ops[..index + 1])
  {
    assert ops[..index + 1][..index] == ops[..index];
  }

  lemma {:induction false} EffectsConfirm(ops: seq<Operation>, k: nat, effects: map<(int, int), Rune>, touched: Evidence, cursor: Cursor,
                                          matches: bool, credit: bool)
    requires 0 < k <= |ops| && EffectsOf(effects, ops[..k]) && ops[k - 1].cursorAfter == cursor
    requires matches <==> forall p :: p in effects ==> p in touched && CellMatches(touched[p].after, effects[p])
    requires matches ==> (credit <==> exists p :: p in effects && effects[p] != SPACE && p in touched && !CellMatches(touched[p].before, effects[p]))
    ensures matches <==> Confirms(ops, k, touched, cursor)
    ensures matches ==> (credit <==> EarnsTrust(ops, k, touched))
  {
    hide LastRune, CellMatches;
  }

  lemma {:induction false} NoEffects(ops: seq<Operation>)
    ensures EffectsOf(map[], ops[..0])
  {
  }

  /** `matchingPredictionPrefix`: the longest confirmed prefix. */
  method MatchingPrefix(ops: seq<Operation>, touched: Evidence, cursor: Cursor) returns (best: nat, trust: bool)
    ensures best <= |ops| && (best > 0 ==> Confirms(ops, best, touched, cursor) && (trust <==> EarnsTrust(ops, best, touched)))
    ensures forall k :: best < k <= |ops| ==> !Confirms(ops, k, touched, cursor)
  {
    hide LastRune, CellMatches, EarnsTrust;
    var effects: map<(int, int), Rune> := map[];
    assert EffectsOf(effects, ops[..0]) by { NoEffects(ops); }
    best, trust := 0, false;
    var index := 0;
    while index < |ops|
      invariant 0 <= index <= |ops| && best <= index
      invariant EffectsOf(effects, ops[..index])
      invariant best > 0 ==> Confirms(ops, best, touched, cursor) && (trust <==> EarnsTrust(ops, best, touched))
      invariant forall k :: best < k <= index ==> !Confirms(ops, k, touched, cursor)
    {
      var op := ops[index];
      NextRune(ops, index);
      effects := effects[(op.position.y, op.position.x) := DisplayChar(op)];
      index := index + 1;
      if op.cursorAfter == cursor {
        var matches, credit := CheckEffects(effects, touched);
        EffectsConfirm(ops, index, effects, touched, cursor, matches, credit);
        if matches {
          best, trust := index, credit;
        }
      }
    }
  }

  // ------------------------------------------------------------ the predictor

  datatype Target = Target(paneId: nat, slot: nat, layoutRevision: nat)

  const NO_TARGET := Target(0, 0, 0)

  datatype Context = Context(target: Target, cursor: Cursor, cursorVisible: bool, width: int, height: int)

  datatype Scope = Scope(id: nat, target: Target, trusted: bool, closed: bool, pending: seq<Operation>)

  /** A decoded frame, as far as the predictor looks at it. */
  datatype Incoming = Incoming(cursor: Cursor, cursorVisible: bool, spans: seq<Span>)

  /** What the cache reports of a frame. */
  datatype FrameEvidence = FrameEvidence(touched: Evidence, cursorUpdated: bool, scrolled: bool)

  datatype PredictionResult = PredictionResult(spans: seq<Span>, cursorOverride: Option<Cursor>, repaintPane: bool, confirmed: nat)

  ghost predicate Rising(ops: seq<Operation>, last: nat) {
    && (forall i, j :: 0 <= i < j < |ops| ==> ops[i].sequence < ops[j].sequence)
    && (forall i :: 0 <= i < |ops| ==> ops[i].sequence <= last)
  }

  predicate BlankCell(cell: ScanCell) { cell.width == 1 && cell.text == [] }

  function CellUnder(grid: ScanGrid, ops: seq<Operation>, at: Cursor): (cell: ScanCell)
    requires InGrid(grid, at.y, at.x)
  {
    Overlay(grid, ops)[at.y][at.x]
  }

  function LeftOf(at: Cursor): Cursor { Cursor(at.x - 1, at.y) }

  function RightOf(at: Cursor): Cursor { Cursor(at.x + 1, at.y) }

  /** A printable byte is predicted on a blank cell that is not the pane's last column. */
  predicate CanInsert(grid: ScanGrid, ops: seq<Operation>, at: Cursor, context: Context) {
    && 0 <= at.y < context.height && 0 <= at.x < context.width - 1
    && InGrid(grid, at.y, at.x) && BlankCell(CellUnder(grid, ops, at))
  }

  /** It takes the style of its left neighbour, if it has one. */
  function TypedStyle(grid: ScanGrid, ops: seq<Operation>, at: Cursor): nat
    requires InGrid(grid, at.y, at.x)
  {
    if at.x > 0 && CellUnder(grid, ops, LeftOf(at)).width == 1 then CellUnder(grid, ops, LeftOf(at)).styleId
    else CellUnder(grid, ops, at).styleId
  }

  /** A backspace is predicted at the end of text: blank here, a character before. */
  predicate CanErase(grid: ScanGrid, ops: seq<Operation>, at: Cursor, context: Context) {
    && 0 <= at.y < context.height && 0 < at.x < context.width
    && InGrid(grid, at.y, at.x) && BlankCell(CellUnder(grid, ops, at))
    && CellUnder(grid, ops, LeftOf(at)).width == 1 && !BlankCell(CellUnder(grid, ops, LeftOf(at)))
  }

  function Inserted(sequence: nat, b: Rune, grid: ScanGrid, ops: seq<Operation>, at: Cursor): Operation
    requires InGrid(grid, at.y, at.x)
  {
    Operation(sequence, Insert, b, at, RightOf(at), TypedStyle(grid, ops, at))
  }

  function Erased(sequence: nat, grid: ScanGrid, ops: seq<Operation>, at: Cursor): Operation
    requires InGrid(grid, at.y, at.x) && at.x > 0
  {
    Operation(sequence, Backspace, SPACE, LeftOf(at), LeftOf(at), CellUnder(grid, ops, LeftOf(at)).styleId)
  }

  ghost predicate SameCharacters(a: ScanGrid, b: ScanGrid) {
    && |a| == |b| && (forall r :: 0 <= r < |a| ==> |a[r]| == |b[r]|)
    && forall r, c :: InGrid(a, r, c) ==> a[r][c].text == b[r][c].text && a[r][c].width == b[r][c].width
  }

  /** Where text may grow by one more cell, a typed character can be erased again,
      and then every cell reads as before. */
  lemma {:induction false} TypeThenErase(grid: ScanGrid, ops: seq<Operation>, at: Cursor, context: Context, b: Rune, n: nat)
    requires CanInsert(grid, ops, at, context) && b != SPACE
    requires InGrid(grid, at.y, at.x + 1) && BlankCell(CellUnder(grid, ops, RightOf(at)))
    ensures var typed := ops + [Inserted(n + 1, b, grid, ops, at)];
            && CanErase(grid, typed, RightOf(at), context)
            && SameCharacters(Overlay(grid, ops), Overlay(grid, typed + [Erased(n + 2, grid, typed, RightOf(at))]))
  {
    var insertion := Inserted(n + 1, b, grid, ops, at);
    var typed := ops + [insertion];
    OverlayNext(grid, ops, insertion);
    OverlayNext(grid, typed, Erased(n + 2, grid, typed, RightOf(at)));
    hide Overlay;
  }

  lemma {:induction false} OverlayNext(grid: ScanGrid, ops: seq<Operation>, op: Operation)
    ensures forall r, c :: InGrid(grid, r, c) ==>
              Overlay(grid, ops + [op])[r][c] == if op.position == Cursor(c, r) then CellOf(OpWrite(op)) else Overlay(grid, ops)[r][c]
  {
    OpWritesAppend(ops, op);
    assert (OpWrites(ops) + [OpWrite(op)])[..|ops|] == OpWrites(ops);
    hide OpWrites;
  }

  /** Everything the predictor goes by: the operations of its scope, if it lives, is
      trusted or closed, and where the next byte would go. */
  datatype Speculation = Speculation(
    pending: seq<Operation>, live: bool, trusted: bool, closed: bool, target: Target,
    cursor: Cursor, hasCursor: bool, awaiting: bool, sequence: nat)

  function Dropped(s: Speculation): Speculation {
    s.(pending := [], live := false, trusted := false, closed := false, target := NO_TARGET, hasCursor := false, awaiting := false)
  }

  /** Input that cannot be predicted: a trusted scope is closed, an untrusted one
      dropped, and typing is not predicted again before the cursor is known. */
  function Bounded(s: Speculation): Speculation {
    var kept := if s.live && s.trusted then s.(closed := true)
                else if s.live && s.closed then s
                else s.(pending := [], live := false, trusted := false, closed := false, target := NO_TARGET);
    kept.(hasCursor := false, awaiting := true)
  }

  function Extended(s: Speculation, op: Operation): Speculation {
    s.(pending := s.pending + [op], live := true, cursor := op.cursorAfter, sequence := op.sequence)
  }

  /** One byte of input. */
  function ByteStep(s: Speculation, b: nat, grid: ScanGrid, context: Context): Speculation {
    var listens := !s.awaiting && s.hasCursor && context.cursorVisible;
    if 0x20 <= b <= 0x7e then
      if !listens then s
      else if CanInsert(grid, s.pending, s.cursor, context) then Extended(s, Inserted(s.sequence + 1, b, grid, s.pending, s.cursor))
      else Bounded(s)
    else if b == 0x7f && listens && CanErase(grid, s.pending, s.cursor, context) then
      Extended(s, Erased(s.sequence + 1, grid, s.pending, s.cursor))
    else Bounded(s)
  }

  /** Input for another target drops what there is; the first input for a target
      starts at its cursor. */
  function Aimed(s: Speculation, context: Context): Speculation {
    var mine := if s.target != context.target && (s.target != NO_TARGET || s.live) then Dropped(s) else s;
    if mine.target != NO_TARGET || mine.live then mine
    else mine.(target := context.target, cursor := context.cursor, hasCursor := context.cursorVisible, awaiting := false)
  }

  function AllTyped(s: Speculation, data: seq<nat>, grid: ScanGrid, context: Context): Speculation {
    if data == [] then s else ByteStep(AllTyped(s, data[..|data| - 1], grid, context), data[|data| - 1], grid, context)
  }

  ghost predicate WordTyped(start: Cursor, data: seq<nat>, ops: seq<Operation>) {
    && |ops| == |data| && (forall i :: 0 <= i < |data| ==> 0x20 <= data[i] <= 0x7e)
    && forall i :: 0 <= i < |data| ==>
         && ops[i].kind.Insert? && ops[i].rune == data[i] && ops[i].position == Cursor(start.x + i, start.y)
         && ops[i].cursorAfter == Cursor(start.x + i + 1, start.y)
  }

  /** There is room for a word where the next byte goes, and bytes are predicted. */
  ghost predicate WordFits(s: Speculation, data: seq<nat>, grid: ScanGrid, context: Context) {
    && s.pending == [] && !s.awaiting && s.hasCursor && context.cursorVisible
    && (forall i :: 0 <= i < |data| ==> 0x20 <= data[i] <= 0x7e)
    && 0 <= s.cursor.y < context.height && 0 <= s.cursor.x && s.cursor.x + |data| < context.width
    && forall c :: s.cursor.x <= c < s.cursor.x + |data| ==> InGrid(grid, s.cursor.y, c) && BlankCell(grid[s.cursor.y][c])
  }

  /** All of the word is predicted, side by side and in one style. */
  ghost predicate WordPending(s: Speculation, data: seq<nat>, grid: ScanGrid, t: Speculation) {
    && WordTyped(s.cursor, data, t.pending)
    && (forall i :: 0 <= i < |data| ==> InGrid(grid, s.cursor.y, s.cursor.x) && t.pending[i].styleId == NearbyStyle(grid, s.cursor))
    && t.cursor == Cursor(s.cursor.x + |data|, s.cursor.y) && t.hasCursor && !t.awaiting
    && (data != [] ==> LastCursor(t.pending) == Some(t.cursor))
    && t.trusted == s.trusted && t.closed == s.closed
  }

  /** Printable bytes typed where the row is blank are all predicted. */
  lemma {:induction false} TypedWord(s: Speculation, data: seq<nat>, grid: ScanGrid, context: Context)
    requires WordFits(s, data, grid, context)
    ensures WordPending(s, data, grid, AllTyped(s, data, grid, context))
    decreases |data|
  {
    hide WordFits, WordPending, ByteStep;
    if data == [] {
      NothingTyped(s, grid, context);
    } else {
      ShorterFits(s, data, grid, context);
      TypedWord(s, data[..|data| - 1], grid, context);
      LongerWord(s, data, grid, context, AllTyped(s, data[..|data| - 1], grid, context));
    }
  }

  lemma {:induction false} NothingTyped(s: Speculation, grid: ScanGrid, context: Context)
    requires WordFits(s, [], grid, context)
    ensures WordPending(s, [], grid, s)
  {
  }

  lemma {:induction false} ShorterFits(s: Speculation, data: seq<nat>, grid: ScanGrid, context: Context)
    requires WordFits(s, data, grid, context) && data != []
    ensures WordFits(s, data[..|data| - 1], grid, context)
  {
    hide BlankCell;
  }

  lemma {:induction false} LongerWord(s: Speculation, data: seq<nat>, grid: ScanGrid, context: Context, t: Speculation)
    requires data != [] && WordFits(s, data, grid, context) && WordPending(s, data[..|data| - 1], grid, t)
    ensures WordPending(s, data, grid, ByteStep(t, data[|data| - 1], grid, context))
  {
    var n := |data| - 1;
    hide Overlay, TypedStyle, Erased, CanErase, Bounded;
    assert InGrid(grid, s.cursor.y, s.cursor.x + n) && InGrid(grid, s.cursor.y, s.cursor.x);
    Untouched(grid, t.pending, s.cursor.y, s.cursor.x + n);
    assert CanInsert(grid, t.pending, t.cursor, context);
    WordStyle(s.cursor, data, grid, t.pending);
    hide NearbyStyle, CanInsert, CellUnder, BlankCell;
  }

  /** The style a word is typed in: that of the cell before it, or of the first cell
      where nothing of one column stands before it. */
  function NearbyStyle(grid: ScanGrid, at: Cursor): nat
    requires InGrid(grid, at.y, at.x)
  {
    if 0 < at.x && grid[at.y][at.x - 1].width == 1 then grid[at.y][at.x - 1].styleId else grid[at.y][at.x].styleId
  }

  /** The next character of a word takes the style of the word so far. */
  lemma {:induction false} WordStyle(start: Cursor, data: seq<nat>, grid: ScanGrid, ops: seq<Operation>)
    requires data != [] && |ops| == |data| - 1 && InGrid(grid, start.y, start.x) && InGrid(grid, start.y, start.x + |ops|)
    requires forall i :: 0 <= i < |ops| ==> ops[i].position == Cursor(start.x + i, start.y) && ops[i].styleId == NearbyStyle(grid, start)
    ensures TypedStyle(grid, ops, Cursor(start.x + |ops|, start.y)) == NearbyStyle(grid, start)
  {
    var x := start.x + |ops|;
    Untouched(grid, ops, start.y, x);
    if x > 0 {
      assert InGrid(grid, start.y, x - 1);
      if ops == [] {
        Untouched(grid, ops, start.y, x - 1);
      } else {
        var init := ops[..|ops| - 1];
        assert ops == init + [ops[|ops| - 1]];
        OverlayNext(grid, init, ops[|ops| - 1]);
      }
    }
    hide Overlay;
  }

  /** What a word shows at a cell of its row. */
  lemma {:induction false} WordRunes(start: Cursor, data: seq<nat>, ops: seq<Operation>, p: (int, int))
    requires |ops| == |data| && forall i :: 0 <= i < |ops| ==>
               ops[i].kind.Insert? && ops[i].rune == data[i] && ops[i].position == Cursor(start.x + i, start.y)
    ensures LastRune(ops, p) == if p.0 == start.y && start.x <= p.1 < start.x + |data| then Some(data[p.1 - start.x]) else None
    decreases |ops|
  {
    if ops != [] {
      WordRunes(start, data[..|data| - 1], ops[..|ops| - 1], p);
    }
  }

  /** A word typed on blanks and echoed in part: the part is confirmed, the rest stays
      pending, and from then on it is shown, since a character that was not there
      before has come as predicted. */
  lemma {:induction false} EchoedWord(s: Speculation, data: seq<nat>, grid: ScanGrid, context: Context, k: nat,
                                      evidence: FrameEvidence, incoming: Incoming, confirmed: nat, t: Speculation)
    requires WordFits(s, data, grid, context) && !s.closed
    requires 0 < k <= |data| && !evidence.scrolled && incoming.cursorVisible && incoming.cursor == Cursor(s.cursor.x + k, s.cursor.y)
    requires forall c :: s.cursor.x <= c < s.cursor.x + k ==>
               (s.cursor.y, c) in evidence.touched && CellMatches(evidence.touched[(s.cursor.y, c)].after, data[c - s.cursor.x])
    requires FrameOutcome(AllTyped(s, data, grid, context), evidence, incoming, confirmed, t)
    ensures confirmed == k && t.pending == AllTyped(s, data, grid, context).pending[k..]
    ensures t.trusted <==> s.trusted || exists c :: s.cursor.x <= c < s.cursor.x + k && data[c - s.cursor.x] != SPACE
                                                     && !CellMatches(evidence.touched[(s.cursor.y, c)].before, data[c - s.cursor.x])
  {
    hide AllTyped, BlankCell, CellMatches, LastRune, Confirms, EarnsTrust;
    TypedWord(s, data, grid, context);
    var ops := AllTyped(s, data, grid, context).pending;
    WordConfirmed(s.cursor, data, ops, k, k, evidence.touched);
    WordConfirmed(s.cursor, data, ops, k, confirmed, evidence.touched);
    EarnedBy(s.cursor, data, ops, k, evidence.touched);
  }

  /** Part of a word echoed with the cursor after it is what the frame confirms. */
  lemma {:induction false} WordConfirmed(start: Cursor, data: seq<nat>, ops: seq<Operation>, k: nat, j: nat, touched: Evidence)
    requires WordTyped(start, data, ops) && 0 < k <= |data|
    requires forall c :: start.x <= c < start.x + k ==>
               (start.y, c) in touched && CellMatches(touched[(start.y, c)].after, data[c - start.x])
    ensures Confirms(ops, j, touched, Cursor(start.x + k, start.y)) <==> j == k
  {
    hide LastRune, CellMatches;
    forall p ensures LastRune(ops[..k], p) == if p.0 == start.y && start.x <= p.1 < start.x + k then Some(data[p.1 - start.x]) else None {
      WordRunes(start, data[..k], ops[..k], p);
    }
  }

  lemma {:induction false} EarnedBy(start: Cursor, data: seq<nat>, ops: seq<Operation>, k: nat, touched: Evidence)
    requires WordTyped(start, data, ops) && k <= |data|
    requires forall c :: start.x <= c < start.x + k ==> (start.y, c) in touched
    ensures EarnsTrust(ops, k, touched) <==>
              exists c :: start.x <= c < start.x + k && data[c - start.x] != SPACE && !CellMatches(touched[(start.y, c)].before, data[c - start.x])
  {
    hide LastRune, CellMatches;
    forall p ensures LastRune(ops[..k], p) == if p.0 == start.y && start.x <= p.1 < start.x + k then Some(data[p.1 - start.x]) else None {
      WordRunes(start, data[..k], ops[..k], p);
    }
    if c :| start.x <= c < start.x + k && data[c - start.x] != SPACE && !CellMatches(touched[(start.y, c)].before, data[c - start.x]) {
      assert LastRune(ops[..k], (start.y, c)).Some?;
    }
  }

  /** After a boundary nothing more is predicted, whatever is typed. */
  lemma {:induction false} NothingAfterBoundary(s: Speculation, data: seq<nat>, grid: ScanGrid, context: Context)
    ensures var ended := Bounded(s);
            && AllTyped(ended, data, grid, context) == ended && ended.awaiting && !ended.hasCursor
            && (s.trusted && s.live ==> ended.pending == s.pending)
            && (!s.trusted && !s.closed ==> ended.pending == [] && !ended.live)
    decreases |data|
  {
    if data != [] {
      NothingAfterBoundary(s, data[..|data| - 1], grid, context);
      hide CanInsert, CanErase, Inserted, Erased, Extended;
    }
  }

  /** And trust does not outlive it: once the last of what was pending is confirmed or
      dropped, typing starts at the cursor shown and has to be echoed again. */
  lemma {:induction false} TrustEnds(s: Speculation, evidence: FrameEvidence, incoming: Incoming, confirmed: nat, t: Speculation, context: Context)
    requires s.live && s.trusted && s.pending != [] && FrameOutcome(Bounded(s), evidence, incoming, confirmed, t)
    ensures t.pending == [] ==>
              var next := Aimed(t, context);
              && !t.trusted && !t.live && !next.trusted && !next.closed && !next.awaiting
              && next.target == context.target && next.cursor == context.cursor && next.hasCursor == context.cursorVisible
    ensures t.pending != [] ==> t.trusted && t.closed && t.awaiting && t.pending == s.pending[confirmed..]
  {
    hide Confirms, EarnsTrust;
  }

  predicate InPane(op: Operation, grid: ScanGrid, context: Context) {
    && 0 <= op.position.y < context.height && 0 <= op.position.x < context.width - 1
    && InGrid(grid, op.position.y, op.position.x)
  }

  /** Typing is predicted inside the pane only, and never in its last column. */
  lemma {:induction false} TypedInPane(s: Speculation, data: seq<nat>, grid: ScanGrid, context: Context)
    ensures forall op :: op in AllTyped(s, data, grid, context).pending ==> op in s.pending || InPane(op, grid, context)
    decreases |data|
  {
    if data != [] {
      TypedInPane(s, data[..|data| - 1], grid, context);
      ByteInPane(AllTyped(s, data[..|data| - 1], grid, context), data[|data| - 1], grid, context);
      hide ByteStep, InPane;
    }
  }

  lemma {:induction false} ByteInPane(s: Speculation, b: nat, grid: ScanGrid, context: Context)
    ensures forall op :: op in ByteStep(s, b, grid, context).pending ==> op in s.pending || InPane(op, grid, context)
  {
    hide Overlay, TypedStyle, CellUnder;
  }

  lemma {:induction false} Untouched(grid: ScanGrid, ops: seq<Operation>, r: int, c: int)
    requires InGrid(grid, r, c) && forall i :: 0 <= i < |ops| ==> ops[i].position != Cursor(c, r)
    ensures Overlay(grid, ops)[r][c] == grid[r][c]
    decreases |ops|
  {
    if ops == [] {
      assert OpWrites(ops) == [];
    } else {
      var init := ops[..|ops| - 1];
      Untouched(grid, init, r, c);
      OverlayNext(grid, init, ops[|ops| - 1]);
      assert ops == init + [ops[|ops| - 1]];
      hide Overlay;
    }
  }

  /** What an authoritative frame for the target does: the longest confirmed prefix
      goes, a contradiction drops everything, and otherwise all stays; with nothing
      pending only the cursor counts. */
  ghost predicate FrameOutcome(s: Speculation, evidence: FrameEvidence, incoming: Incoming, confirmed: nat, t: Speculation) {
    if evidence.scrolled || !incoming.cursorVisible then confirmed == 0 && t == Dropped(s)
    else if s.pending == [] then
      && confirmed == 0
      && t == if s.awaiting || (evidence.cursorUpdated && s.hasCursor && incoming.cursor != s.cursor) then Dropped(s)
              else if evidence.cursorUpdated then s.(cursor := incoming.cursor, hasCursor := true) else s
    else
      && confirmed <= |s.pending|
      && (forall k :: confirmed < k <= |s.pending| ==> !Confirms(s.pending, k, evidence.touched, incoming.cursor))
      && if confirmed > 0 then
           && Confirms(s.pending, confirmed, evidence.touched, incoming.cursor)
           && t == AfterConfirmed(s, confirmed, EarnsTrust(s.pending, confirmed, evidence.touched), incoming.cursor)
         else
           t == if (s.pending[0].position.y, s.pending[0].position.x) in evidence.touched || evidence.cursorUpdated then Dropped(s) else s
  }

  lemma {:induction false} FrameDrops(s: Speculation, evidence: FrameEvidence, incoming: Incoming)
    requires evidence.scrolled || !incoming.cursorVisible
    ensures FrameOutcome(s, evidence, incoming, 0, Dropped(s))
  {
  }

  lemma {:induction false} FrameWithoutPending(s: Speculation, evidence: FrameEvidence, incoming: Incoming)
    requires !evidence.scrolled && incoming.cursorVisible && s.pending == []
    ensures s.awaiting || (evidence.cursorUpdated && s.hasCursor && incoming.cursor != s.cursor) ==>
              FrameOutcome(s, evidence, incoming, 0, Dropped(s))
    ensures !(s.awaiting || (evidence.cursorUpdated && s.hasCursor && incoming.cursor != s.cursor)) ==>
              FrameOutcome(s, evidence, incoming, 0, if evidence.cursorUpdated then s.(cursor := incoming.cursor, hasCursor := true) else s)
  {
  }

  lemma {:induction false} FrameConfirms(s: Speculation, evidence: FrameEvidence, incoming: Incoming, matched: nat, trust: bool)
    requires !evidence.scrolled && incoming.cursorVisible && s.pending != [] && matched <= |s.pending|
    requires matched > 0 ==> Confirms(s.pending, matched, evidence.touched, incoming.cursor)
                             && (trust <==> EarnsTrust(s.pending, matched, evidence.touched))
    requires forall k :: matched < k <= |s.pending| ==> !Confirms(s.pending, k, evidence.touched, incoming.cursor)
    ensures matched > 0 ==> FrameOutcome(s, evidence, incoming, matched, AfterConfirmed(s, matched, trust, incoming.cursor))
    ensures matched == 0 && ((s.pending[0].position.y, s.pending[0].position.x) in evidence.touched || evidence.cursorUpdated) ==>
              FrameOutcome(s, evidence, incoming, 0, Dropped(s))
    ensures matched == 0 && !((s.pending[0].position.y, s.pending[0].position.x) in evidence.touched || evidence.cursorUpdated) ==>
              FrameOutcome(s, evidence, incoming, 0, s)
  {
    hide Confirms, EarnsTrust;
  }

  function AfterConfirmed(s: Speculation, confirmed: nat, earned: bool, cursor: Cursor): Speculation
    requires confirmed <= |s.pending|
  {
    var left := s.(pending := s.pending[confirmed..], trusted := s.trusted || earned);
    if left.pending != [] then left
    else if s.closed then left.(live := false, trusted := false, closed := false, target := NO_TARGET, cursor := cursor, hasCursor := true)
    else left.(cursor := cursor, hasCursor := true)
  }

  class InputPredictor {
    var nextScopeId: nat
    var nextSequence: nat
    var target: Target
    var scopes: seq<Scope>
    var currentCursor: Cursor
    var hasCursor: bool
    var awaitingCursor: bool

    /** The operations of the one scope there can be. */
    function Pending(): seq<Operation>
      reads `scopes
    {
      if scopes == [] then [] else scopes[0].pending
    }

    function Spec(): Speculation
      reads this
    {
      if scopes == [] then Speculation([], false, false, false, target, currentCursor, hasCursor, awaitingCursor, nextSequence)
      else Speculation(scopes[0].pending, true, scopes[0].trusted, scopes[0].closed, target, currentCursor, hasCursor, awaitingCursor, nextSequence)
    }

    /** Only a trusted scope is shown. */
    function Visible(): seq<Operation>
      reads `scopes
    {
      if scopes != [] && scopes[0].trusted then scopes[0].pending else []
    }

    /** The predictions shown in one pane. */
    function VisibleFor(t: Target): seq<Operation>
      reads this
    {
      if target == t then Visible() else []
    }

    predicate Active()
      reads this
    {
      target != NO_TARGET || |scopes| > 0
    }

    predicate HasOpenScope()
      reads this
    {
      |scopes| > 0 && !scopes[|scopes| - 1].closed
    }

    /** At most one scope lives; a closed one is trusted and waits for the cursor;
        sequence numbers rise. */
    ghost predicate Valid()
      reads this
    {
      && |scopes| <= 1
      && (|scopes| == 1 && scopes[0].closed ==> awaitingCursor && scopes[0].trusted)
      && Rising(Pending(), nextSequence)
    }

    /** The live scope predicts inside the pane it targets. */
    ghost predicate Inside(t: Target, grid: ScanGrid)
      reads this
    {
      target == t ==> OpsInside(Pending(), grid)
    }

    constructor ()
      ensures Valid() && !Active() && Visible() == []
    {
      nextScopeId, nextSequence, target, scopes := 0, 0, NO_TARGET, [];
      currentCursor, hasCursor, awaitingCursor := Cursor(0, 0), false, false;
    }

    method Clear()
      requires Valid()
      modifies this
      ensures Valid() && !Active() && Visible() == [] && Pending() == []
      ensures Spec() == Dropped(old(Spec()))
    {
      target, scopes, hasCursor, awaitingCursor := NO_TARGET, [], false, false;
    }

    static lemma {:induction false} NoneRising(last: nat)
      ensures Rising([], last)
    {
    }

    /** Input that cannot be predicted ends the scope; an untrusted one is dropped. */
    method Boundary()
      requires Valid()
      modifies this
      ensures Valid() && Spec() == Bounded(old(Spec())) && awaitingCursor
      ensures Visible() == old(Visible())
      ensures Pending() == Visible()
      ensures if scopes == [] then target == NO_TARGET else target == old(target)
      ensures old(scopes) == [] ==> scopes == []
    {
      hide Rising;
      NoneRising(nextSequence);
      if HasOpenScope() {
        if !scopes[|scopes| - 1].trusted {
          scopes := scopes[..|scopes| - 1];
        } else {
          scopes := scopes[|scopes| - 1 := scopes[|scopes| - 1].(closed := true)];
        }
      }
      hasCursor, awaitingCursor := false, true;
      if |scopes| == 0 {
        target := NO_TARGET;
      }
    }

    /** The cell under the cursor with every pending operation applied. */
    method ComposedCell(cursor: Cursor, view: PaneScanoutCache) returns (cell: ScanCell, ok: bool)
      requires Valid() && view.Valid()
      ensures ok <==> InGrid(view.grid, cursor.y, cursor.x)
      ensures ok ==> cell == Overlay(view.grid, Pending())[cursor.y][cursor.x]
    {
      cell, ok := BLANK_SCAN, false;
      if cursor.y < 0 || cursor.y >= view.rows || cursor.x < 0 || cursor.x >= view.cols {
        return;
      }
      hide Overlay;
      ok := true;
      cell := view.CellAt(cursor.y, cursor.x);
      NothingOver(view.grid);
      if |scopes| > 0 {
        var ops := scopes[0].pending;
        var i := 0;
        assert ops[..0] == [];
        while i < |ops|
          invariant 0 <= i <= |ops|
          invariant cell == Overlay(view.grid, ops[..i])[cursor.y][cursor.x]
        {
          assert ops[..i + 1] == ops[..i] + [ops[i]];
          OverlayStep(view.grid, ops[..i], ops[i], cursor.y, cursor.x);
          if ops[i].position == cursor {
            cell := ScanCell(if DisplayChar(ops[i]) == SPACE then [] else [DisplayChar(ops[i])], ops[i].styleId, 1);
          }
          i := i + 1;
        }
        assert ops[..i] == ops;
      }
    }

    static lemma {:induction false} NothingOver(grid: ScanGrid)
      ensures Overlay(grid, []) == grid
    {
    }

    static lemma {:induction false} OverlayStep(grid: ScanGrid, ops: seq<Operation>, op: Operation, r: int, c: int)
      requires InGrid(grid, r, c)
      ensures Overlay(grid, ops + [op])[r][c] == if op.position == Cursor(c, r) then CellOf(OpWrite(op)) else Overlay(grid, ops)[r][c]
    {
      hide OpWrites;
      OpWritesAppend(ops, op);
      assert (OpWrites(ops) + [OpWrite(op)])[..|ops|] == OpWrites(ops);
    }

    static lemma {:induction false} RisingOne(ops: seq<Operation>, last: nat, op: Operation)
      requires Rising(ops, last) && op.sequence == last + 1
      ensures Rising(ops + [op], op.sequence) && Rising([op], op.sequence)
    {
    }

    /** Appends one operation to the open scope, opening one if none is. */
    method Append(op: Operation, t: Target)
      requires Valid() && !awaitingCursor && op.sequence == nextSequence + 1
      modifies this
      ensures Valid() && !awaitingCursor && hasCursor == old(hasCursor) && target == old(target)
      ensures Spec() == Extended(old(Spec()), op)
    {
      hide Rising;
      RisingOne(Pending(), nextSequence, op);
      if !HasOpenScope() {
        nextScopeId := nextScopeId + 1;
        scopes := scopes + [Scope(nextScopeId, t, false, false, [])];
      }
      nextSequence := op.sequence;
      scopes := scopes[|scopes| - 1 := scopes[|scopes| - 1].(pending := scopes[|scopes| - 1].pending + [op])];
      currentCursor := op.cursorAfter;
    }

    static lemma {:induction false} InsideOne(ops: seq<Operation>, grid: ScanGrid)
      requires OpsInside(ops, grid)
      ensures forall op: Operation :: InGrid(grid, op.position.y, op.position.x) ==> OpsInside(ops + [op], grid)
    {
    }

    method AcceptPrintable(b: Rune, context: Context, view: PaneScanoutCache) returns (ok: bool)
      requires Valid() && !awaitingCursor && view.Valid() && OpsInside(Pending(), view.grid)
      modifies this
      ensures Valid() && !awaitingCursor && target == old(target) && OpsInside(Pending(), view.grid)
      ensures ok <==> CanInsert(view.grid, old(Pending()), old(currentCursor), context)
      ensures !ok ==> scopes == old(scopes) && Spec() == old(Spec())
      ensures ok ==> Spec() == Extended(old(Spec()), Inserted(old(nextSequence) + 1, b, view.grid, old(Pending()), old(currentCursor)))
    {
      hide Overlay, Rising, OpsInside;
      ok := false;
      InsideOne(Pending(), view.grid);
      if currentCursor.y < 0 || currentCursor.y >= context.height || currentCursor.x < 0 || currentCursor.x >= context.width - 1 {
        return;
      }
      if currentCursor.y >= view.rows || currentCursor.x >= view.cols {
        return;
      }
      var cell, inside := ComposedCell(currentCursor, view);
      if !inside || !BlankCell(cell) {
        return;
      }
      var styleId := cell.styleId;
      if currentCursor.x > 0 {
        var left, leftInside := ComposedCell(Cursor(currentCursor.x - 1, currentCursor.y), view);
        if leftInside && left.width == 1 {
          styleId := left.styleId;
        }
      }
      var op := Operation(nextSequence + 1, Insert, b, currentCursor, Cursor(currentCursor.x + 1, currentCursor.y), styleId);
      Append(op, context.target);
      ok := true;
    }

    method AcceptBackspace(context: Context, view: PaneScanoutCache) returns (ok: bool)
      requires Valid() && !awaitingCursor && view.Valid() && OpsInside(Pending(), view.grid)
      modifies this
      ensures Valid() && !awaitingCursor && target == old(target) && OpsInside(Pending(), view.grid)
      ensures ok <==> CanErase(view.grid, old(Pending()), old(currentCursor), context)
      ensures !ok ==> scopes == old(scopes) && Spec() == old(Spec())
      ensures ok ==> Spec() == Extended(old(Spec()), Erased(old(nextSequence) + 1, view.grid, old(Pending()), old(currentCursor)))
    {
      hide Overlay, Rising, OpsInside;
      ok := false;
      InsideOne(Pending(), view.grid);
      if currentCursor.y < 0 || currentCursor.y >= context.height || currentCursor.x <= 0 || currentCursor.x >= context.width {
        return;
      }
      if currentCursor.y >= view.rows || currentCursor.x >= view.cols {
        return;
      }
      var current, currentInside := ComposedCell(currentCursor, view);
      if !currentInside || !BlankCell(current) {
        return;
      }
      var position := Cursor(currentCursor.x - 1, currentCursor.y);
      var deleted, inside := ComposedCell(position, view);
      if !inside || deleted.width != 1 || BlankCell(deleted) {
        return;
      }
      Append(Operation(nextSequence + 1, Backspace, SPACE, position, position, deleted.styleId), context.target);
      ok := true;
    }

    static lemma {:induction false} ByteCases(s: Speculation, b: nat, grid: ScanGrid, context: Context)
      ensures !(0x20 <= b <= 0x7f) ==> ByteStep(s, b, grid, context) == Bounded(s)
      ensures s.awaiting || !s.hasCursor || !context.cursorVisible ==>
                ByteStep(s, b, grid, context) == if 0x20 <= b <= 0x7e then s else Bounded(s)
      ensures !s.awaiting && s.hasCursor && context.cursorVisible && b == 0x7f ==>
                ByteStep(s, b, grid, context) ==
                if CanErase(grid, s.pending, s.cursor, context) then Extended(s, Erased(s.sequence + 1, grid, s.pending, s.cursor)) else Bounded(s)
      ensures !s.awaiting && s.hasCursor && context.cursorVisible && 0x20 <= b <= 0x7e ==>
                ByteStep(s, b, grid, context) ==
                if CanInsert(grid, s.pending, s.cursor, context) then Extended(s, Inserted(s.sequence + 1, b, grid, s.pending, s.cursor)) else Bounded(s)
    {
      hide Overlay, CellUnder, TypedStyle;
    }

    /** One byte of decoded input. */
    method AcceptByte(b: nat, context: Context, view: PaneScanoutCache)
      requires Valid() && view.Valid() && OpsInside(Pending(), view.grid) && b < 256
      requires target == context.target || (scopes == [] && awaitingCursor)
      modifies this
      ensures Valid() && OpsInside(Pending(), view.grid)
      ensures target == context.target || (scopes == [] && awaitingCursor)
      ensures Spec() == ByteStep(old(Spec()), b, view.grid, context)
    {
      assert OpsInside([], view.grid);
      hide Rising, OpsInside, CanInsert, CanErase, Inserted, Erased, Extended, Bounded, ByteStep;
      ByteCases(Spec(), b, view.grid, context);
      if b == 0x7f {
        if awaitingCursor || !hasCursor || !context.cursorVisible {
          Boundary();
        } else {
          var ok := AcceptBackspace(context, view);
          if !ok {
            Boundary();
          }
        }
        return;
      }
      if b < 0x20 || b > 0x7e {
        Boundary();
        return;
      }
      if awaitingCursor || !hasCursor || !context.cursorVisible {
        return;
      }
      var ok := AcceptPrintable(b, context, view);
      if !ok {
        Boundary();
      }
    }

    /** Local input: afterwards the pane shows the cache under exactly the visible
        predictions, whatever was predicted there before. The cache is only read. */
    method ApplyLocalInput(data: seq<nat>, context: Context, view: PaneScanoutCache)
      returns (spans: seq<Span>, cursorOverride: Option<Cursor>, changed: bool)
      requires Valid() && view.Valid() && Plain(view.grid) && Inside(context.target, view.grid)
      requires forall i :: 0 <= i < |data| ==> data[i] < 256
      modifies this
      ensures Valid() && Inside(context.target, view.grid) && NarrowSpans(spans)
      ensures target == context.target || scopes == []
      ensures Spec() == AllTyped(Aimed(old(Spec()), context), data, view.grid, context)
      ensures PutAll(Overlay(view.grid, old(VisibleFor(context.target))), SpansWrites(spans)) == Overlay(view.grid, VisibleFor(context.target))
      ensures cursorOverride == LastCursor(VisibleFor(context.target))
      ensures !changed ==> spans == [] && VisibleFor(context.target) == [] && old(VisibleFor(context.target)) == []
    {
      hide SpansWrites, Overlay, PutAll, Restores, WrittenKeys, Rising, ByteStep;
      ghost var shown := VisibleFor(context.target);
      var before := Visible();
      if Active() && target != context.target {
        Clear();
      }
      if !Active() {
        target := context.target;
        currentCursor, hasCursor, awaitingCursor := context.cursor, context.cursorVisible, false;
      }
      ghost var aimed := Spec();
      var i := 0;
      while i < |data|
        invariant 0 <= i <= |data| && Valid() && OpsInside(Pending(), view.grid)
        invariant Spec() == AllTyped(aimed, data[..i], view.grid, context)
        invariant target == context.target || (scopes == [] && awaitingCursor)
      {
        AcceptByte(data[i], context, view);
        assert data[..i + 1][..i] == data[..i];
        i := i + 1;
      }
      assert data[..i] == data;
      var after := Visible();
      var repairs := RepairRemoved(before, after, view);
      var overlay := PredictionSpans(after);
      spans := repairs + overlay;
      JoinSpans(repairs, overlay);
      PutAllAppend(Overlay(view.grid, shown), SpansWrites(repairs), SpansWrites(overlay));
      NoSpots();
      assert shown == before || shown == [];
      RepaintOverlay(view.grid, shown, SpansWrites(repairs), after);
      cursorOverride := LastCursor(after);
      NoSpan();
      changed := |spans| > 0 || |before| != |after|;
    }

    static lemma {:induction false} NoSpots()
      ensures Spots([]) == {}
    {
    }

    static lemma {:induction false} JoinSpans(a: seq<Span>, b: seq<Span>)
      requires NarrowSpans(a) && NarrowSpans(b)
      ensures SpansWrites(a + b) == SpansWrites(a) + SpansWrites(b) && NarrowSpans(a + b)
    {
      JoinWrites(a, b);
      hide SpansWrites;
    }

    static lemma {:induction false} JoinWrites(a: seq<Span>, b: seq<Span>)
      ensures SpansWrites(a + b) == SpansWrites(a) + SpansWrites(b)
      decreases |b|
    {
      hide *;
      NoSpan();
      if b == [] {
        assert a + b == a && SpansWrites(a) + [] == SpansWrites(a);
      } else {
        var init, last := b[..|b| - 1], b[|b| - 1];
        assert b == init + [last];
        assert a + b == (a + init) + [last];
        JoinWrites(a, init);
        SpansWritesAppend(a + init, last);
        SpansWritesAppend(init, last);
      }
    }

    /** `reset`: the pane shows the bare cache again. */
    method Reset(view: PaneScanoutCache) returns (spans: seq<Span>)
      requires Valid() && view.Valid() && Plain(view.grid)
      modifies this
      ensures Valid() && !Active() && Visible() == [] && NarrowSpans(spans)
      ensures PutAll(Overlay(view.grid, old(Visible())), SpansWrites(spans)) == view.grid
      ensures spans == [] && OpsInside(old(Visible()), view.grid) ==> old(Visible()) == []
    {
      hide SpansWrites, Overlay, PutAll, Restores, WrittenKeys, Rising, OpWrites;
      var visible := Visible();
      Clear();
      spans := RepairSpans(visible, view);
      RepairedOverlay(view.grid, visible, SpansWrites(spans));
      if spans == [] && visible != [] {
        SpotOf(visible, (visible[0].position.y, visible[0].position.x));
        NothingRestored(view.grid);
      }
    }

    static lemma {:induction false} RepairedOverlay(grid: ScanGrid, before: seq<Operation>, repairs: seq<Write>)
      requires Restores(repairs, grid)
      requires forall r, c :: InGrid(grid, r, c) && (r, c) in Spots(before) ==> (r, c) in WrittenKeys(repairs)
      ensures PutAll(Overlay(grid, before), repairs) == grid
    {
      RepaintOverlay(grid, before, repairs, []);
      assert OpWrites([]) == [];
    }
    /** A frame of this pane: a prefix of the predictions is confirmed, or they
        all stand, or they all go; either way the pane shows the cache under
        exactly those that stand. */
    method ApplyAuthoritativeFrame(t: Target, incoming: Incoming, evidence: FrameEvidence, view: PaneScanoutCache,
                                   ghost was: ScanGrid, ghost scroll: Option<ScrollRegion>)
      returns (result: PredictionResult)
      requires Valid() && view.Valid() && Plain(view.grid) && Inside(t, view.grid)
      requires FrameApplied(was, incoming, scroll, evidence, view.grid, view.cols)
      modifies this
      ensures Valid() && Inside(t, view.grid)
      ensures ShowsAfter(was, old(VisibleFor(t)), scroll, result, view.grid, VisibleFor(t), view.cols)
      ensures !old(Active()) || old(target) != t ==> Spec() == old(Spec()) && scopes == old(scopes)
      ensures result.cursorOverride == LastCursor(VisibleFor(t))
      ensures old(Active()) && old(target) == t ==> FrameOutcome(old(Spec()), evidence, incoming, result.confirmed, Spec())
      ensures result.confirmed > 0 ==>
                && old(Active()) && old(target) == t
                && SameText(old(VisibleFor(t)), Overlay(was, old(VisibleFor(t))), Overlay(view.grid, VisibleFor(t)))
    {
      hide SpansWrites, Overlay, PutAll, Restores, WrittenKeys, Rising, OpWrites, FrameApplied, ShowsAfter, Confirms, EarnsTrust, SameText, Spots, FrameOutcome;
      result := PredictionResult(incoming.spans, None, false, 0);
      AppliedFacts(was, incoming, scroll, evidence, view.grid, view.cols);
      if !Active() || t != target {
        PlainFrame(was, [], incoming, scroll, evidence, view.grid, result, view.cols);
        return;
      }
      var before := Visible();
      ghost var spec := Spec();
      if evidence.scrolled || !incoming.cursorVisible {
        FrameDrops(spec, evidence, incoming);
      }
      if evidence.scrolled {
        Clear();
        result := result.(repaintPane := |before| > 0);
        PlainFrame(was, before, incoming, scroll, evidence, view.grid, result, view.cols);
        return;
      }
      if !incoming.cursorVisible {
        result := ClearAndRepair(before, incoming, evidence, view, was);
        return;
      }
      if |Pending()| == 0 {
        FrameWithoutPending(spec, evidence, incoming);
        if awaitingCursor || (evidence.cursorUpdated && hasCursor && incoming.cursor != currentCursor) {
          Clear();
          PlainFrame(was, before, incoming, scroll, evidence, view.grid, result, view.cols);
          return;
        }
        if evidence.cursorUpdated {
          currentCursor, hasCursor := incoming.cursor, true;
        }
        NoSpots();
        result := ShowRemaining(before, incoming, evidence, view, was, 0);
        return;
      }
      result := ConfirmPending(t, incoming, evidence, view, was);
    }

    /** The frame against what is pending. */
    method ConfirmPending(t: Target, incoming: Incoming, evidence: FrameEvidence, view: PaneScanoutCache, ghost was: ScanGrid)
      returns (result: PredictionResult)
      requires Valid() && view.Valid() && Plain(view.grid) && Inside(t, view.grid) && target == t && Pending() != []
      requires FrameApplied(was, incoming, None, evidence, view.grid, view.cols) && !evidence.scrolled && incoming.cursorVisible
      modifies this
      ensures Valid() && Inside(t, view.grid)
      ensures ShowsAfter(was, old(Visible()), None, result, view.grid, VisibleFor(t), view.cols)
      ensures result.cursorOverride == LastCursor(VisibleFor(t))
      ensures FrameOutcome(old(Spec()), evidence, incoming, result.confirmed, Spec())
      ensures result.confirmed > 0 ==> SameText(old(Visible()), Overlay(was, old(Visible())), Overlay(view.grid, VisibleFor(t)))
    {
      hide SpansWrites, Overlay, PutAll, Restores, WrittenKeys, Rising, OpWrites, FrameApplied, ShowsAfter, Confirms, EarnsTrust, SameText, Spots, FrameOutcome;
      AppliedFacts(was, incoming, None, evidence, view.grid, view.cols);
      var before := Visible();
      ghost var spec := Spec();
      ghost var ops := Pending();
      var matched, trust := MatchingPrefix(Pending(), evidence.touched, incoming.cursor);
      FrameConfirms(spec, evidence, incoming, matched, trust);
      if matched > 0 {
        Confirm(matched, trust, incoming.cursor);
        ConfirmedCovered(view.grid, before, ops, matched, evidence.touched, incoming.cursor, Visible());
        result := ShowRemaining(before, incoming, evidence, view, was, matched);
        ConfirmedShown(was, view.grid, before, ops, matched, evidence.touched, incoming.cursor, Visible());
        return;
      }
      var first := Pending()[0].position;
      if (first.y, first.x) in evidence.touched || evidence.cursorUpdated {
        result := ClearAndRepair(before, incoming, evidence, view, was);
        return;
      }
      result := ShowRemaining(before, incoming, evidence, view, was, 0);
    }

    static lemma {:induction false} AppliedFacts(was: ScanGrid, incoming: Incoming, scroll: Option<ScrollRegion>, evidence: FrameEvidence, now: ScanGrid, cols: nat)
      requires FrameApplied(was, incoming, scroll, evidence, now, cols)
      ensures NarrowSpans(incoming.spans) && evidence.scrolled == scroll.Some?
      ensures scroll.None? ==> EvidenceExact(evidence.touched, was, now)
    {
    }

    /** Every prediction goes, and the cache shows again where one was. */
    method ClearAndRepair(before: seq<Operation>, incoming: Incoming, evidence: FrameEvidence, view: PaneScanoutCache, ghost was: ScanGrid)
      returns (result: PredictionResult)
      requires Valid() && view.Valid() && Plain(view.grid)
      requires FrameApplied(was, incoming, None, evidence, view.grid, view.cols)
      modifies this
      ensures Valid() && Spec() == Dropped(old(Spec()))
      ensures ShowsAfter(was, before, None, result, view.grid, [], view.cols)
      ensures result.cursorOverride == None && result.confirmed == 0
    {
      hide SpansWrites, Overlay, PutAll, Restores, WrittenKeys, Rising, OpWrites, FrameApplied, ShowsAfter;
      Clear();
      var repairs := RepairSpans(before, view);
      result := PredictionResult(incoming.spans + repairs, None, false, 0);
      NoSpan();
      assert incoming.spans + repairs + [] == incoming.spans + repairs;
      DecoratedFrame(was, before, incoming, evidence, view.grid, repairs, [], [], result, view.cols);
    }

    /** `withVisibleOverlay`. */
    method ShowRemaining(ghost before: seq<Operation>, incoming: Incoming, evidence: FrameEvidence, view: PaneScanoutCache, ghost was: ScanGrid,
                         confirmed: nat)
      returns (result: PredictionResult)
      requires FrameApplied(was, incoming, None, evidence, view.grid, view.cols)
      requires forall r, c :: InGrid(view.grid, r, c) && (r, c) in Spots(before) ==> (r, c) in evidence.touched || (r, c) in Spots(Visible())
      ensures ShowsAfter(was, before, None, result, view.grid, Visible(), view.cols)
      ensures result.cursorOverride == LastCursor(Visible()) && result.confirmed == confirmed
    {
      hide SpansWrites, Overlay, PutAll, Restores, WrittenKeys, OpWrites, FrameApplied, ShowsAfter, Spots;
      var overlay := PredictionSpans(Visible());
      result := PredictionResult(incoming.spans + overlay, LastCursor(Visible()), false, confirmed);
      NothingRestored(view.grid);
      assert incoming.spans + [] + overlay == incoming.spans + overlay;
      DecoratedFrame(was, before, incoming, evidence, view.grid, [], Visible(), overlay, result, view.cols);
    }

    /** Trust earned, the confirmed prefix removed, a closed empty scope collected. */
    method Confirm(matched: nat, trust: bool, cursor: Cursor)
      requires Valid() && scopes != [] && 0 < matched <= |Pending()|
      modifies this
      ensures Valid() && Spec() == AfterConfirmed(old(Spec()), matched, trust, cursor)
    {
      hide Rising;
      RisingSuffix(Pending(), nextSequence, matched);
      if trust {
        scopes := scopes[0 := scopes[0].(trusted := true)];
      }
      scopes := scopes[0 := scopes[0].(pending := scopes[0].pending[matched..])];
      if scopes[0].closed && |scopes[0].pending| == 0 {
        scopes, target := [], NO_TARGET;
      }
      if |Pending()| == 0 {
        currentCursor, hasCursor := cursor, true;
      }
    }

    static lemma {:induction false} RisingSuffix(ops: seq<Operation>, last: nat, k: nat)
      requires Rising(ops, last) && k <= |ops|
      ensures Rising(ops[k..], last)
    {
    }

    static lemma {:induction false} ConfirmedCovered(now: ScanGrid, before: seq<Operation>, ops: seq<Operation>, k: nat, touched: Evidence,
                                                     cursor: Cursor, after: seq<Operation>)
      requires Confirms(ops, k, touched, cursor)
      requires before == [] || (before == ops && after == ops[k..])
      ensures forall r, c :: InGrid(now, r, c) && (r, c) in Spots(before) ==> (r, c) in touched || (r, c) in Spots(after)
    {
      hide Confirms, Spots;
      NoSpots();
      forall r, c | InGrid(now, r, c) && (r, c) in Spots(before) ensures (r, c) in touched || (r, c) in Spots(after) {
        ConfirmedSpots(ops, k, touched, cursor, r, c);
      }
    }

    static lemma {:induction false} ConfirmedShown(was: ScanGrid, now: ScanGrid, before: seq<Operation>, ops: seq<Operation>, k: nat, touched: Evidence,
                                                   cursor: Cursor, after: seq<Operation>)
      requires Confirms(ops, k, touched, cursor) && EvidenceExact(touched, was, now)
      requires before == [] || (before == ops && after == ops[k..])
      ensures SameText(before, Overlay(was, before), Overlay(now, after))
    {
      hide Overlay, EvidenceExact, Confirms;
      if before == [] {
        NoSpots();
      } else {
        ConfirmedTextStays(was, now, ops, k, touched, cursor);
      }
    }
  }

  // ----------------------------------------------------- authoritative frames

  /** The cache after a frame, from the cache before it, and the evidence of it. */
  ghost predicate FrameApplied(was: ScanGrid, incoming: Incoming, scroll: Option<ScrollRegion>, evidence: FrameEvidence, now: ScanGrid, cols: nat) {
    && NarrowSpans(incoming.spans) && evidence.scrolled == scroll.Some?
    && (scroll.Some? ==> LegalScroll(scroll.value, |was|))
    && now == PutAll(CacheAfterScroll(was, scroll, cols), SpansWrites(incoming.spans))
    && (forall p :: p in evidence.touched <==> p in WrittenKeys(SpansWrites(incoming.spans)))
    && (scroll.None? ==> EvidenceExact(evidence.touched, was, now))
  }

  function CacheAfterScroll(grid: ScanGrid, scroll: Option<ScrollRegion>, cols: nat): ScanGrid
    requires scroll.Some? ==> LegalScroll(scroll.value, |grid|)
  {
    ScrollScan(grid, scroll, cols)
  }

  /** What the terminal shows after a frame: a native scroll and the spans, or the
      whole pane again from the cache. */
  function Displayed(screen: ScanGrid, scroll: Option<ScrollRegion>, result: PredictionResult, native: bool, cache: ScanGrid, cols: nat): ScanGrid
    requires scroll.Some? ==> LegalScroll(scroll.value, |screen|)
  {
    if scroll.Some? && (result.repaintPane || !native) then cache
    else PutAll(CacheAfterScroll(screen, scroll, cols), SpansWrites(result.spans))
  }

  /** Whichever way it is drawn, the pane ends up as the cache under the operations. */
  ghost predicate ShowsAfter(was: ScanGrid, before: seq<Operation>, scroll: Option<ScrollRegion>, result: PredictionResult,
                             now: ScanGrid, after: seq<Operation>, cols: nat)
  {
    && (scroll.Some? ==> LegalScroll(scroll.value, |was|))
    && forall native: bool :: Displayed(Overlay(was, before), scroll, result, native, now, cols) == Overlay(now, after)
  }

  lemma {:induction false} OverNothing(grid: ScanGrid)
    ensures Overlay(grid, []) == grid
  {
  }

  /** Nothing predicted in this pane, or a scroll that drops every prediction. */
  lemma {:induction false} PlainFrame(was: ScanGrid, before: seq<Operation>, incoming: Incoming, scroll: Option<ScrollRegion>,
                                      evidence: FrameEvidence, now: ScanGrid, result: PredictionResult, cols: nat)
    requires FrameApplied(was, incoming, scroll, evidence, now, cols) && result.spans == incoming.spans
    requires before == [] || (scroll.Some? && result.repaintPane)
    ensures ShowsAfter(was, before, scroll, result, now, [], cols)
  {
    hide PutAll, SpansWrites, EvidenceExact, WrittenKeys;
    OverNothing(was);
    OverNothing(now);
  }

  /** A frame without a scroll, and repairs or predictions after it. */
  lemma {:induction false} DecoratedFrame(was: ScanGrid, before: seq<Operation>, incoming: Incoming, evidence: FrameEvidence, now: ScanGrid,
                                          repairs: seq<Span>, after: seq<Operation>, overlay: seq<Span>, result: PredictionResult, cols: nat)
    requires FrameApplied(was, incoming, None, evidence, now, cols)
    requires NarrowSpans(repairs) && NarrowSpans(overlay) && result.spans == incoming.spans + repairs + overlay
    requires Restores(SpansWrites(repairs), now) && SpansWrites(overlay) == OpWrites(after)
    requires forall r, c :: InGrid(now, r, c) && (r, c) in Spots(before) ==>
               (r, c) in evidence.touched || (r, c) in WrittenKeys(SpansWrites(repairs)) || (r, c) in Spots(after)
    ensures ShowsAfter(was, before, None, result, now, after, cols)
  {
    hide PutAll, SpansWrites, EvidenceExact, WrittenKeys, Restores, OpWrites;
    var i, r, o := SpansWrites(incoming.spans), SpansWrites(repairs), SpansWrites(overlay);
    var screen := Overlay(was, before);
    InputPredictor.JoinSpans(incoming.spans, repairs);
    InputPredictor.JoinSpans(incoming.spans + repairs, overlay);
    PutAllAppend(screen, i + r, o);
    PutAllAppend(screen, i, r);
    assert CacheAfterScroll(screen, None, cols) == screen && CacheAfterScroll(was, None, cols) == was;
    assert now == PutAll(was, i);
    FrameOverlay(was, i, before, r, after);
    assert PutAll(screen, SpansWrites(result.spans)) == Overlay(now, after);
  }

  lemma {:induction false} LastRuneSplit(a: seq<Operation>, b: seq<Operation>, p: (int, int))
    ensures LastRune(a + b, p) == if LastRune(b, p).Some? then LastRune(b, p) else LastRune(a, p)
    decreases |b|
  {
    if b == [] {
      assert a + b == a;
    } else {
      assert (a + b)[..|a + b| - 1] == a + b[..|b| - 1];
      LastRuneSplit(a, b[..|b| - 1], p);
    }
  }

  lemma {:induction false} OverlayText(grid: ScanGrid, ops: seq<Operation>, r: int, c: int)
    requires InGrid(grid, r, c)
    ensures LastRune(ops, (r, c)).Some? ==> Overlay(grid, ops)[r][c].text == NormalizedText([LastRune(ops, (r, c)).value], 1)
    ensures LastRune(ops, (r, c)).None? ==> Overlay(grid, ops)[r][c] == grid[r][c]
    decreases |ops|
  {
    if ops == [] {
      OverNothing(grid);
    } else {
      var init, last := ops[..|ops| - 1], ops[|ops| - 1];
      assert ops == init + [last];
      OverlayText(grid, init, r, c);
      InputPredictor.OverlayStep(grid, init, last, r, c);
    }
  }

  /** The characters shown at predicted positions are the same before and after. */
  ghost predicate SameText(before: seq<Operation>, a: ScanGrid, b: ScanGrid) {
    forall r, c :: InGrid(a, r, c) && InGrid(b, r, c) && (r, c) in Spots(before) ==> a[r][c].text == b[r][c].text
  }

  /** A confirming frame changes no predicted character. */
  lemma {:induction false} ConfirmedTextStays(was: ScanGrid, now: ScanGrid, ops: seq<Operation>, k: nat, touched: Evidence, cursor: Cursor)
    requires Confirms(ops, k, touched, cursor) && EvidenceExact(touched, was, now)
    ensures SameText(ops, Overlay(was, ops), Overlay(now, ops[k..]))
  {
    hide EvidenceExact, Overlay;
    assert ops == ops[..k] + ops[k..];
    forall r, c | InGrid(was, r, c) && InGrid(now, r, c) && (r, c) in Spots(ops)
      ensures Overlay(was, ops)[r][c].text == Overlay(now, ops[k..])[r][c].text
    {
      LastRuneSpot(ops, (r, c));
      LastRuneSplit(ops[..k], ops[k..], (r, c));
      OverlayText(was, ops, r, c);
      OverlayText(now, ops[k..], r, c);
      if LastRune(ops[k..], (r, c)).None? {
        TouchedNow(touched, was, now, r, c);
      }
    }
  }

  lemma {:induction false} TouchedNow(touched: Evidence, was: ScanGrid, now: ScanGrid, r: int, c: int)
    requires EvidenceExact(touched, was, now) && (r, c) in touched
    ensures InGrid(now, r, c) && touched[(r, c)].after == now[r][c]
  {
  }

  /** Every position of a confirmed prefix was written by the frame. */
  lemma {:induction false} ConfirmedSpots(ops: seq<Operation>, k: nat, touched: Evidence, cursor: Cursor, r: int, c: int)
    requires Confirms(ops, k, touched, cursor) && (r, c) in Spots(ops)
    ensures (r, c) in touched || (r, c) in Spots(ops[k..])
  {
    assert ops == ops[..k] + ops[k..];
    LastRuneSpot(ops, (r, c));
    LastRuneSplit(ops[..k], ops[k..], (r, c));
    LastRuneSpot(ops[k..], (r, c));
  }

  // ------------------------------------------------------------------ the pane

  lemma {:induction false} PlainNarrow(grid: ScanGrid)
    requires Plain(grid)
    ensures Narrow(grid)
  {
    forall r | 0 <= r < |grid| ensures NarrowRow(grid[r]) {
      forall c | 0 <= c < |grid[r]| ensures grid[r][c].width == 1 {
        assert PlainCell(grid[r][c]);
      }
    }
  }

  lemma {:induction false} ScrollPlain(grid: ScanGrid, scroll: Option<ScrollRegion>, cols: nat)
    requires Plain(grid) && (scroll.Some? ==> LegalScroll(scroll.value, |grid|))
    ensures Plain(CacheAfterScroll(grid, scroll, cols))
  {
    var out := CacheAfterScroll(grid, scroll, cols);
    forall r, c | 0 <= r < |out| && 0 <= c < |out[r]| ensures PlainCell(out[r][c]) {
      if scroll.Some? {
        var source := ScrollSource(scroll.value, r);
        if source.Some? {
          assert out[r] == grid[source.value];
        } else {
          assert out[r] == BlankRow(BLANK_SCAN, cols);
        }
      }
    }
  }

  lemma {:induction false} WholeAndNarrow(spans: seq<Span>)
    requires NarrowSpans(spans)
    ensures WholeSpans(spans) && forall i :: 0 <= i < |spans| ==> NarrowSpaces(spans[i]) && spans[i].width == 1
  {
  }

  lemma {:induction false} NarrowWritesOf(spans: seq<Span>)
    requires NarrowSpans(spans)
    ensures NarrowWrites(SpansWrites(spans))
    decreases |spans|
  {
    if spans != [] {
      var init, last := spans[..|spans| - 1], spans[|spans| - 1];
      NarrowWritesOf(init);
      NarrowWritesOfSpan(last);
    }
  }

  lemma {:induction false} NarrowWritesOfSpan(span: Span)
    requires span.width == 1
    ensures NarrowWrites(SpanWrites(span))
  {
    match span
    case TextSpan(row, column, id, width, text) => NarrowRunes(row, column, text, id);
    case ClusterSpan(_, _, _, _, _) =>
    case FillSpan(row, column, id, width, r, columns) => NarrowRunes(row, column, Repeat(r, Cells(columns, width)), id);
  }

  lemma {:induction false} NarrowRunes(row: int, column: int, text: Text, id: nat)
    ensures NarrowWrites(RuneWrites(row, column, text, 1, id))
    decreases |text|
  {
    if text != [] {
      NarrowRunes(row, column, text[..|text| - 1], id);
    }
  }

  /** One focused pane of the client: its cache, the predictor, and what the
      terminal shows. Every method keeps the screen equal to the cache under
      exactly the predictor's visible operations, and the cursor with it. */
  class PredictedPane {
    const predictor: InputPredictor
    const cache: PaneScanoutCache
    const target: Target
    ghost var screen: ScanGrid
    var cursor: CursorUpdate
    var activeCursor: CursorUpdate

    ghost predicate Valid()
      reads this, predictor, cache, cache.cells
    {
      && cache.Valid() && Plain(cache.grid) && predictor.Valid() && predictor.Inside(target, cache.grid)
      && screen == Overlay(cache.grid, predictor.VisibleFor(target))
      && activeCursor == (match LastCursor(predictor.VisibleFor(target))
                          case Some(predicted) => CursorUpdate(predicted, true)
                          case None => cursor)
    }

    constructor (target: Target, cache: PaneScanoutCache, cursor: CursorUpdate)
      requires cache.Valid() && Plain(cache.grid)
      ensures Valid() && this.cache == cache && this.target == target && this.cursor == cursor
    {
      this.target, this.cache, this.cursor, activeCursor := target, cache, cursor, cursor;
      predictor := new InputPredictor();
      screen := cache.grid;
      new;
      OverNothing(cache.grid);
    }

    /** `acceptLocalInput`: the cache itself never changes. */
    method AcceptLocalInput(data: seq<nat>, width: int, height: int)
      requires Valid() && forall i :: 0 <= i < |data| ==> data[i] < 256
      modifies this, predictor
      ensures Valid() && cursor == old(cursor)
      ensures var context := Context(target, cursor.cursor, cursor.visible, width, height);
              predictor.Spec() == AllTyped(Aimed(old(predictor.Spec()), context), data, cache.grid, context)
    {
      hide Plain, Overlay, PutAll, SpansWrites, AllTyped, Aimed;
      var context := Context(target, cursor.cursor, cursor.visible, width, height);
      var spans, cursorOverride, changed := predictor.ApplyLocalInput(data, context, cache);
      screen := PutAll(screen, SpansWrites(spans));
      if !changed {
        return;
      }
      activeCursor := if cursorOverride.Some? then CursorUpdate(cursorOverride.value, true) else cursor;
    }

    /** `resetPrediction`. */
    method ResetPrediction()
      requires Valid()
      modifies this, predictor
      ensures Valid() && predictor.VisibleFor(target) == [] && screen == cache.grid
    {
      hide Plain, Overlay, PutAll, SpansWrites;
      OverNothing(cache.grid);
      if predictor.target != target {
        predictor.Clear();
        return;
      }
      var spans := predictor.Reset(cache);
      screen := PutAll(screen, SpansWrites(spans));
      if |spans| > 0 {
        activeCursor := cursor;
      }
      NoSpan();
    }

    /** `emitFrame` on this pane's slot, natively scrolled or repainted. */
    method EmitFrame(incoming: Incoming, scroll: Option<ScrollRegion>, cursorUpdated: bool, ghost native: bool)
      returns (ghost evidence: FrameEvidence, ghost confirmed: nat)
      requires Valid() && NarrowSpans(incoming.spans)
      requires scroll.Some? ==> LegalScroll(scroll.value, cache.rows)
      requires PaintAll(CacheAfterScroll(cache.grid, scroll, cache.cols), SpansWrites(incoming.spans)).Some?
      modifies this, predictor, cache, cache.cells
      ensures Valid() && cursor == CursorUpdate(incoming.cursor, incoming.cursorVisible)
      ensures cache.grid == PutAll(CacheAfterScroll(old(cache.grid), scroll, cache.cols), SpansWrites(incoming.spans))
      ensures FrameApplied(old(cache.grid), incoming, scroll, evidence, cache.grid, cache.cols) && evidence.cursorUpdated == cursorUpdated
      ensures if old(predictor.Active()) && old(predictor.target) == target
              then FrameOutcome(old(predictor.Spec()), evidence, incoming, confirmed, predictor.Spec())
              else predictor.Spec() == old(predictor.Spec())
    {
      hide FrameOutcome;
      hide Plain, Overlay, PutAll, PaintAll, SpansWrites, FrameApplied, Rising, LastCursor, CacheAfterScroll, Displayed, ShowsAfter;
      hide Confirms, SameText, NarrowSpans, OpsInside;
      ghost var was := cache.grid;
      ghost var before := predictor.VisibleFor(target);
      var touched := UpdateCache(incoming, scroll, cursorUpdated);
      cursor := CursorUpdate(incoming.cursor, incoming.cursorVisible);
      evidence := FrameEvidence(touched, cursorUpdated, scroll.Some?);
      var result := predictor.ApplyAuthoritativeFrame(target, incoming, FrameEvidence(touched, cursorUpdated, scroll.Some?), cache, was, scroll);
      confirmed := result.confirmed;
      ShownAfter(was, before, scroll, result, cache.grid, predictor.VisibleFor(target), native, cache.cols);
      screen := Displayed(screen, scroll, result, native, cache.grid, cache.cols);
      activeCursor := if result.cursorOverride.Some? then CursorUpdate(result.cursorOverride.value, true) else cursor;
    }

    static lemma {:induction false} ShownAfter(was: ScanGrid, before: seq<Operation>, scroll: Option<ScrollRegion>, result: PredictionResult,
                                               now: ScanGrid, after: seq<Operation>, native: bool, cols: nat)
      requires ShowsAfter(was, before, scroll, result, now, after, cols)
      ensures (scroll.Some? ==> LegalScroll(scroll.value, |was|))
              && Displayed(Overlay(was, before), scroll, result, native, now, cols) == Overlay(now, after)
    {
      hide Displayed, Overlay;
    }

    /** The authoritative half of a frame. */
    method UpdateCache(incoming: Incoming, scroll: Option<ScrollRegion>, ghost cursorUpdated: bool) returns (touched: Evidence)
      requires cache.Valid() && Plain(cache.grid) && NarrowSpans(incoming.spans)
      requires scroll.Some? ==> LegalScroll(scroll.value, cache.rows)
      requires PaintAll(CacheAfterScroll(cache.grid, scroll, cache.cols), SpansWrites(incoming.spans)).Some?
      modifies cache, cache.cells
      ensures cache.Valid() && Plain(cache.grid)
      ensures cache.grid == PutAll(CacheAfterScroll(old(cache.grid), scroll, cache.cols), SpansWrites(incoming.spans))
      ensures forall ops :: OpsInside(ops, old(cache.grid)) ==> OpsInside(ops, cache.grid)
      ensures FrameApplied(old(cache.grid), incoming, scroll, FrameEvidence(touched, cursorUpdated, scroll.Some?), cache.grid, cache.cols)
    {
      hide Plain, Overlay, PutAll, PaintAll, SpansWrites, EvidenceExact, WrittenKeys, Narrow, FrameApplied;
      ghost var was := cache.grid;
      PlainNarrow(was);
      ScrollPlain(was, scroll, cache.cols);
      PlainNarrow(CacheAfterScroll(was, scroll, cache.cols));
      if scroll.Some? {
        cache.ScrollBy(scroll.value);
      }
      ghost var scrolled := cache.grid;
      assert scrolled == CacheAfterScroll(was, scroll, cache.cols);
      NarrowWritesOf(incoming.spans);
      PaintIsPut(scrolled, SpansWrites(incoming.spans));
      PutPlain(scrolled, SpansWrites(incoming.spans));
      WholeAndNarrow(incoming.spans);
      ApplyIsPaint(scrolled, cache.rows, cache.cols, incoming.spans);
      var ok;
      ok, touched := cache.ApplySpans(incoming.spans);
      Applied(was, incoming, scroll, touched, cursorUpdated, cache.grid, cache.cols);
    }

    static lemma {:induction false} Applied(was: ScanGrid, incoming: Incoming, scroll: Option<ScrollRegion>, touched: Evidence, cursorUpdated: bool,
                                            now: ScanGrid, cols: nat)
      requires NarrowSpans(incoming.spans) && (scroll.Some? ==> LegalScroll(scroll.value, |was|))
      requires now == PutAll(CacheAfterScroll(was, scroll, cols), SpansWrites(incoming.spans))
      requires forall p :: p in touched <==> p in WrittenKeys(SpansWrites(incoming.spans))
      requires EvidenceExact(touched, CacheAfterScroll(was, scroll, cols), now)
      ensures FrameApplied(was, incoming, scroll, FrameEvidence(touched, cursorUpdated, scroll.Some?), now, cols)
    {
      hide EvidenceExact, PutAll, SpansWrites, WrittenKeys;
      assert scroll.None? ==> CacheAfterScroll(was, scroll, cols) == was;
    }
  }
}
