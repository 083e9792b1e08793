/** The life of one pane's publications as a state machine: attach, damage, prepare,
    hand off, invalidate, detach. Each event is a function or relation on the
    renderer's fields; the lemmas are what every run keeps. */
module PublicationRun {
  import opened Display
  import opened Damage
  import opened Publication
  import opened Painting
  import opened SemanticCells
  import opened RowDiff
  import opened PublicationBuffer

  const ANCHOR_INTERVAL: nat := 256
  const KEYFRAME_DENSITY_PERCENT: nat := 50

  datatype Terminal = Terminal(cols: nat, rows: nat, grid: Grid, cursor: CursorUpdate)

  ghost predicate TerminalOk(t: Terminal) {
    && 0 < t.cols <= MAX_GRID && 0 < t.rows <= MAX_GRID && GridOk(t.grid, t.rows, t.cols)
  }

  ghost predicate GridOk(grid: Grid, rows: nat, cols: nat) {
    ValidGrid(grid, rows, cols) && forall r :: 0 <= r < |grid| ==> CanonicalCells(grid[r])
  }

  /** What a client shows: a grid and a cursor. */
  datatype Shot = Shot(grid: Grid, cursor: CursorUpdate)

  function TerminalShot(t: Terminal): Shot { Shot(t.grid, t.cursor) }

  datatype Update = Update(dirtySpans: seq<DirtySpan>, scroll: Option<ScrollRegion>, fullRedraw: bool, cursorChanged: bool)

  datatype Submission = Submission(publication: Publication, shot: Shot)

  /** The renderer's fields; `snapshot` is what the last handed-off publication shows. */
  datatype Phase = Phase(
    attached: bool, layoutRevision: nat, epoch: nat, version: nat,
    snapshot: Option<Shot>, pending: Option<Submission>,
    dirty: seq<DirtySpan>, scroll: Option<ScrollRegion>,
    cursorDirty: bool, keyframe: bool, barrier: bool)

  // ----------------------------------------------------------------- events

  function FullSpans(rows: nat, cols: nat): (spans: seq<DirtySpan>)
    ensures |spans| == rows
    ensures forall r :: 0 <= r < rows ==> spans[r] == DirtySpan(0, cols)
  {
    seq(rows, _ => DirtySpan(0, cols))
  }

  /** A cancelled barrier is owed to the replacement. */
  function Cancelled(s: Phase): Phase {
    if s.pending.Some? then s.(barrier := s.barrier || s.pending.value.publication.barrier, pending := None) else s
  }

  function Invalidated(s: Phase, barrier: bool, t: Terminal): Phase {
    var c := Cancelled(s);
    c.(epoch := s.epoch + 1, version := 0, snapshot := None, keyframe := true, barrier := c.barrier || barrier,
       scroll := None, cursorDirty := true, dirty := FullSpans(t.rows, t.cols))
  }

  function Attached(s: Phase, layoutRevision: nat, t: Terminal): Phase {
    Invalidated(Cancelled(s).(attached := true, layoutRevision := layoutRevision), true, t)
  }

  function Cleared(s: Phase): Phase {
    s.(dirty := CleanSpans(|s.dirty|), scroll := None, cursorDirty := false, keyframe := false, barrier := false)
  }

  function Detached(s: Phase): Phase {
    Cleared(Cancelled(s)).(attached := false, layoutRevision := 0, snapshot := None)
  }

  function SumRegion(first: Option<ScrollRegion>, next: ScrollRegion): ScrollRegion {
    if first.Some? then first.value.(delta := first.value.delta + next.delta) else next
  }

  predicate WholeRegion(region: ScrollRegion) {
    region.delta <= -(region.bottom - region.top) || region.delta >= region.bottom - region.top
  }

  /** The scroll of an update: it moves the damage, adds up, or forces a keyframe. */
  function MergedScroll(s: Phase, region: ScrollRegion): Phase
    requires LegalScroll(region, |s.dirty|)
  {
    if s.keyframe then s
    else if !Composable(s.scroll, region) then s.(keyframe := true, scroll := None)
    else
      var moved := s.(dirty := ShiftedSpans(s.dirty, region), scroll := Some(SumRegion(s.scroll, region)));
      if WholeRegion(SumRegion(s.scroll, region)) then moved.(keyframe := true, scroll := None) else moved
  }

  function MovedBy(s: Phase, u: Update): Phase
    requires ScrollFits(u.scroll, |s.dirty|)
  {
    var forced := s.(keyframe := s.keyframe || u.fullRedraw);
    if u.scroll.Some? then MergedScroll(forced, u.scroll.value) else forced
  }

  function Merged(s: Phase, u: Update, cols: nat): Phase
    requires s.attached && ScrollFits(u.scroll, |s.dirty|)
  {
    var moved := MovedBy(s, u);
    moved.(dirty := if moved.keyframe then FullSpans(|s.dirty|, cols) else MergedSpans(moved.dirty, u.dirtySpans, cols),
           cursorDirty := s.cursorDirty || u.cursorChanged || u.scroll.Some?)
  }

  /** The update tells of everything that changed between two screens. */
  ghost predicate UpdateCovers(u: Update, before: Terminal, after: Terminal) {
    && TerminalOk(before) && TerminalOk(after) && before.cols == after.cols && before.rows == after.rows
    && ScrollFits(u.scroll, before.rows) && |u.dirtySpans| <= before.rows
    && (u.cursorChanged || u.scroll.Some? || before.cursor == after.cursor)
    && (u.fullRedraw || DifferInside(Scrolled(before.grid, u.scroll, DEFAULT_BLANK, before.cols), after.grid, u.dirtySpans, before.cols))
  }

  predicate HasMutation(s: Phase) {
    s.attached && (s.keyframe || s.barrier || s.scroll.Some? || s.cursorDirty || DirtyCount(s.dirty) > 0)
  }

  function CandidateCells(dirty: seq<DirtySpan>): nat {
    if dirty == [] then 0
    else
      var last := dirty[|dirty| - 1];
      CandidateCells(dirty[..|dirty| - 1]) + if last.end > last.start then last.end - last.start else 0
  }

  predicate NeedsKeyframe(s: Phase) {
    s.keyframe || s.barrier || s.snapshot.None? || (s.version > 0 && (s.version + 1) % ANCHOR_INTERVAL == 0)
  }

  predicate SendsKeyframe(s: Phase, t: Terminal) {
    || NeedsKeyframe(s)
    || (t.rows * t.cols > 0 && CandidateCells(s.dirty) * 100 >= t.rows * t.cols * KEYFRAME_DENSITY_PERCENT)
  }

  predicate CursorChanges(s: Phase, t: Terminal) {
    || SendsKeyframe(s, t) || s.scroll.Some?
    || (s.cursorDirty && (s.snapshot.None? || s.snapshot.value.cursor != t.cursor))
  }

  /** A change that cancelled out: the client already shows the terminal. */
  predicate NothingToSend(s: Phase, t: Terminal) {
    && !CursorChanges(s, t) && s.snapshot.Some? && s.snapshot.value.grid == t.grid
  }

  ghost predicate RunShowsGrid(run: Run, grid: Grid) {
    && run.row < |grid| && run.column + |run.cells| <= |grid[run.row]|
    && run.cells == grid[run.row][run.column..run.column + |run.cells|]
  }

  /** The rows a delta is painted over. */
  function PaintedOver(base: Option<Shot>, p: Publication): (out: Grid)
    requires base.Some? && (p.scroll.Some? ==> 0 <= p.scroll.value.top && p.scroll.value.bottom <= |base.value.grid|)
    ensures |out| == |base.value.grid|
  {
    Scrolled(base.value.grid, p.scroll, DEFAULT_BLANK, p.cols)
  }

  ghost predicate KeyframeRuns(p: Publication, runs: seq<Run>) {
    && p.scroll.None?
    && (forall i :: 0 <= i < |runs| ==> runs[i].column == 0 && |runs[i].cells| == p.cols)
    && (forall r :: 0 <= r < p.rows ==> Covered(runs, r, 0))
  }

  predicate Exposed(scroll: Option<ScrollRegion>, r: int) {
    scroll.Some? && ScrollSource(scroll.value, r).None?
  }

  /** Runs cut no pair of either grid, leave out only equal cells, and take in only
      exposed rows, changed cells and the other halves of changed pairs. */
  ghost predicate DeltaRuns(runs: seq<Run>, over: Grid, grid: Grid, scroll: Option<ScrollRegion>) {
    && |over| == |grid|
    && (forall i :: 0 <= i < |runs| ==>
          runs[i].row < |grid| && FitsRow(runs[i], runs[i].row, grid[runs[i].row], over[runs[i].row]))
    && (forall r, c :: 0 <= r < |grid| && 0 <= c < |grid[r]| && c < |over[r]| && !Covered(runs, r, c) ==> grid[r][c] == over[r][c])
    && (forall r, c :: 0 <= r < |grid| && 0 <= c < |grid[r]| && |grid[r]| == |over[r]| && Covered(runs, r, c) && !Exposed(scroll, r) ==>
          NeedsPaint(grid[r], over[r], c))
  }

  /** Painted over what `base` shows, the publication shows `shot`: its runs hold
      the new cells, cut no pair of the old or the new rows, and leave out only
      cells that are the same. */
  ghost predicate PublicationOf(base: Option<Shot>, p: Publication, shot: Shot) {
    var runs := SemanticRuns(p);
    && WellFormed(p) && OrderedRuns(runs) && GridOk(shot.grid, p.rows, p.cols)
    && (forall i :: 0 <= i < |runs| ==> RunShowsGrid(runs[i], shot.grid))
    && (p.kind.Keyframe? ==> KeyframeRuns(p, runs))
    && (p.kind.Delta? ==> base.Some? && GridOk(base.value.grid, p.rows, p.cols) && DeltaRuns(runs, PaintedOver(base, p), shot.grid, p.scroll))
    && (if p.cursorChanged then p.cursor == shot.cursor else base.Some? && base.value.cursor == shot.cursor)
  }

  predicate HeaderOf(s: Phase, t: Terminal, p: Publication) {
    && p.epoch == s.epoch && p.targetVersion == s.version + 1 && p.revision == s.layoutRevision && p.barrier == s.barrier
    && p.cols == t.cols && p.rows == t.rows && p.cursor == t.cursor && p.cursorChanged == CursorChanges(s, t)
    && (if SendsKeyframe(s, t)
        then p.kind.Keyframe? && p.baseVersion == 0 && p.scroll.None?
        else p.kind.Delta? && p.baseVersion == s.version && p.scroll == s.scroll)
  }

  /** `prepare` with something to do: nothing left to send, or one pending publication. */
  ghost predicate PreparedNow(s: Phase, t: Terminal, after: Phase) {
    && s.pending.None? && HasMutation(s)
    && if NothingToSend(s, t) then after == Cleared(s)
       else
         && after.pending.Some?
         && after == Cleared(s).(pending := Some(Submission(after.pending.value.publication, TerminalShot(t))))
         && HeaderOf(s, t, after.pending.value.publication)
         && PublicationOf(s.snapshot, after.pending.value.publication, TerminalShot(t))
  }

  /** `prepare` may also find nothing to do, or be refused by a full table. */
  ghost predicate Prepared(s: Phase, t: Terminal, after: Phase) {
    after == s || PreparedNow(s, t, after)
  }

  function HandedOff(s: Phase): Phase {
    match s.pending
    case None => s
    case Some(pending) => s.(version := pending.publication.targetVersion, snapshot := Some(pending.shot), pending := None)
  }

  // -------------------------------------------------------------- invariant

  /** What the client shows once everything prepared has reached it. */
  function Baseline(s: Phase): Option<Shot> {
    match s.pending
    case Some(pending) => Some(pending.shot)
    case None => s.snapshot
  }

  /** Damage soundness: outside the dirty spans the terminal is what the client
      will show, moved by the pending scroll; or a keyframe is owed. */
  ghost predicate DamageSound(s: Phase, t: Terminal) {
    var base := Baseline(s);
    && (base.None? ==> s.keyframe)
    && (base.Some? ==> GridOk(base.value.grid, t.rows, t.cols))
    && (base.Some? && !s.keyframe ==>
          && Covers(base.value.grid, s.scroll, s.dirty, t.grid, t.cols)
          && (s.cursorDirty || base.value.cursor == t.cursor))
  }

  ghost predicate PhaseOk(s: Phase, t: Terminal) {
    && TerminalOk(t)
    && (s.pending.Some? ==>
          var p := s.pending.value.publication;
          && s.attached && p.cols == t.cols && p.rows == t.rows
          && p.epoch == s.epoch && p.targetVersion == s.version + 1
          && PublicationOf(s.snapshot, p, s.pending.value.shot))
    && (s.attached ==>
          && |s.dirty| == t.rows && ScrollFits(s.scroll, t.rows)
          && (s.snapshot.None? <==> s.version == 0)
          && DamageSound(s, t))
  }

  // ------------------------------------------------- every event keeps it

  lemma {:induction false} InvalidateKeeps(s: Phase, barrier: bool, t: Terminal)
    requires TerminalOk(t)
    ensures PhaseOk(Invalidated(s, barrier, t), t)
  {
  }

  lemma {:induction false} AttachKeeps(s: Phase, layoutRevision: nat, t: Terminal)
    requires TerminalOk(t)
    ensures PhaseOk(Attached(s, layoutRevision, t), t)
  {
  }

  lemma {:induction false} DetachKeeps(s: Phase, t: Terminal)
    requires TerminalOk(t)
    ensures PhaseOk(Detached(s), t)
  {
  }

  lemma {:induction false} HandOffKeeps(s: Phase, t: Terminal)
    requires PhaseOk(s, t)
    ensures PhaseOk(HandedOff(s), t)
  {
    hide PublicationOf, Covers, GridOk;
  }

  lemma {:induction false} PrepareKeeps(s: Phase, t: Terminal, after: Phase)
    requires PhaseOk(s, t) && Prepared(s, t, after)
    ensures PhaseOk(after, t)
  {
    hide PublicationOf, GridOk, DirtyCount, CandidateCells;
    if after != s {
      ScreenCovered(t, |s.dirty|);
      if NothingToSend(s, t) && !s.cursorDirty {
        assert s.snapshot.value.cursor == t.cursor;
      }
    }
  }

  /** A screen just published needs no damage. */
  lemma {:induction false} ScreenCovered(t: Terminal, rows: nat)
    requires TerminalOk(t) && rows == t.rows
    ensures Covers(t.grid, None, CleanSpans(rows), t.grid, t.cols)
  {
  }

  lemma {:induction false} MergeKeeps(s: Phase, u: Update, before: Terminal, after: Terminal)
    requires PhaseOk(s, before) && s.attached && UpdateCovers(u, before, after)
    ensures PhaseOk(Merged(s, u, after.cols), after)
  {
    hide PublicationOf;
    var out := Merged(s, u, after.cols);
    if !out.keyframe {
      var base := Baseline(s).value;
      var mid := Scrolled(before.grid, u.scroll, DEFAULT_BLANK, before.cols);
      var moved := if u.scroll.Some? then MergedScroll(s, u.scroll.value) else s;
      MovedCovers(base.grid, s, u.scroll, before.grid, after.cols);
      MergeKeepsCovers(base.grid, moved.scroll, moved.dirty, mid, u.dirtySpans, after.grid, after.cols);
    }
  }

  /** What a terminal recorded of its own changes is such an update. */
  lemma {:induction false} RecordedCovers(mutation: ViewMutation, u: Update, before: Terminal, after: Terminal)
    requires TerminalOk(before) && TerminalOk(after) && before.cols == after.cols && before.rows == after.rows
    requires mutation.Valid() && |mutation.dirtySpans| == before.rows && mutation.Explains(before.grid, after.grid, before.cols)
    requires u == Update(mutation.dirtySpans, mutation.scrollRegion, mutation.fullRedraw, mutation.cursorChanged)
    requires u.cursorChanged || before.cursor == after.cursor
    ensures UpdateCovers(u, before, after)
  {
    if !u.fullRedraw {
      var moved := Scrolled(before.grid, u.scroll, DEFAULT_BLANK, before.cols);
      forall r | 0 <= r < |moved| ensures |moved[r]| == before.cols {
        if u.scroll.Some? && ScrollSource(u.scroll.value, r).Some? {
          assert moved[r] == before.grid[ScrollSource(u.scroll.value, r).value];
        }
      }
    }
  }

  lemma {:induction false} MovedCovers(base: Grid, s: Phase, scroll: Option<ScrollRegion>, grid: Grid, cols: nat)
    requires Covers(base, s.scroll, s.dirty, grid, cols) && ScrollFits(scroll, |grid|)
    ensures var moved := if scroll.Some? then MergedScroll(s, scroll.value) else s;
            !moved.keyframe ==> Covers(base, moved.scroll, moved.dirty, Scrolled(grid, scroll, DEFAULT_BLANK, cols), cols)
  {
    hide Covers, ShiftedSpans, Scrolled;
    assert |s.dirty| == |grid| by { CoversSize(base, s.scroll, s.dirty, grid, cols); }
    if scroll.None? {
      Unscrolled(grid, cols);
    } else if !MergedScroll(s, scroll.value).keyframe {
      ScrollKeepsCovers(base, s.scroll, scroll.value, s.dirty, grid, cols);
      assert Composed(s.scroll, scroll.value) == SumRegion(s.scroll, scroll.value);
    }
  }

  /** Two scrolls of one region and direction that together leave something of it merge
      as the one scroll by their sum, and force no keyframe. */
  lemma {:induction false} ScrollsAddUp(s: Phase, top: nat, bottom: nat, first: int, next: int)
    requires top < bottom <= |s.dirty| && s.scroll.None? && first != 0 && next != 0 && (first < 0 <==> next < 0)
    requires top - bottom < first + next < bottom - top
    ensures var both := ScrollRegion(top, bottom, first + next);
            var merged := MergedScroll(MergedScroll(s, ScrollRegion(top, bottom, first)), ScrollRegion(top, bottom, next));
            && merged == MergedScroll(s, both) && merged.keyframe == s.keyframe
            && (!s.keyframe ==> merged.scroll == Some(both) && merged.dirty == ShiftedSpans(s.dirty, both))
  {
    var one, two := ScrollRegion(top, bottom, first), ScrollRegion(top, bottom, next);
    var twice, once := ShiftedSpans(ShiftedSpans(s.dirty, one), two), ShiftedSpans(s.dirty, ScrollRegion(top, bottom, first + next));
    forall r | 0 <= r < |s.dirty| ensures twice[r] == once[r] {
      ComposedSource(one, two, |s.dirty|, r);
    }
    assert twice == once;
    hide ShiftedSpans;
  }

  lemma {:induction false} CoversSize(base: Grid, region: Option<ScrollRegion>, dirty: seq<DirtySpan>, now: Grid, cols: nat)
    requires Covers(base, region, dirty, now, cols)
    ensures |dirty| == |now| == |base|
  {
  }

  lemma {:induction false} Unscrolled(grid: Grid, cols: nat)
    ensures Scrolled(grid, None, DEFAULT_BLANK, cols) == grid
  {
  }

  /** When nothing is owed, the client will show the terminal. */
  lemma {:induction false} QuietMeansShown(s: Phase, t: Terminal)
    requires PhaseOk(s, t) && s.attached && s.pending.None? && !HasMutation(s)
    ensures s.snapshot == Some(TerminalShot(t))
  {
    NoneDirty(s.dirty);
    NoDamage(s.snapshot.value.grid, s.dirty, t.grid, t.cols);
  }
}
