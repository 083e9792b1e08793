/** Damage metadata: dirty column spans and one pending scroll, recorded by the
    terminal (`ViewMutation`) and merged by the renderer. The one promise behind
    both: a cell outside every span is the base cell, moved by the scroll. */
module Damage {
  import opened Display

  datatype DirtySpan = DirtySpan(start: int, end: int)

  const CLEAN := DirtySpan(0, 0)

  predicate InSpan(span: DirtySpan, column: int) {
    span.start <= column < span.end
  }

  predicate Dirty(span: DirtySpan) { span.start < span.end }

  predicate ScrollFits(region: Option<ScrollRegion>, rows: int) {
    region.Some? ==> LegalScroll(region.value, rows)
  }

  /** `now` is `base` moved by the scroll, except inside the spans; exposed rows
      are default blanks. */
  ghost predicate Covers(base: Grid, region: Option<ScrollRegion>, dirty: seq<DirtySpan>, now: Grid, cols: nat) {
    && |dirty| == |base| && Sized(base, |base|, cols) && Sized(now, |base|, cols) && ScrollFits(region, |base|)
    && forall r, c :: 0 <= r < |now| && 0 <= c < cols && !InSpan(dirty[r], c) ==>
         now[r][c] == Scrolled(base, region, DEFAULT_BLANK, cols)[r][c]
  }

  /** Two grids differ at most inside the spans. */
  ghost predicate DifferInside(a: Grid, b: Grid, spans: seq<DirtySpan>, cols: nat) {
    && |a| == |b| && |spans| <= |a| && Sized(a, |a|, cols) && Sized(b, |a|, cols)
    && forall r, c :: 0 <= r < |a| && 0 <= c < cols && (r < |spans| ==> !InSpan(spans[r], c)) ==> b[r][c] == a[r][c]
  }

  // ---------------------------------------------------------------- scrolls

  /** Spans travel with the rows they describe. */
  function ShiftedSpans(dirty: seq<DirtySpan>, region: ScrollRegion): (out: seq<DirtySpan>)
    requires 0 <= region.top && region.bottom <= |dirty|
    ensures |out| == |dirty|
    ensures forall r :: 0 <= r < |dirty| ==>
              out[r] == (match ScrollSource(region, r) case Some(source) => dirty[source] case None => CLEAN)
  {
    seq(|dirty|, r requires 0 <= r < |dirty| =>
      match ScrollSource(region, r) case Some(source) => dirty[source] case None => CLEAN)
  }

  /** Scrolls of one region in one direction add up. */
  predicate Composable(first: Option<ScrollRegion>, next: ScrollRegion) {
    first.Some? ==> && first.value.top == next.top && first.value.bottom == next.bottom
                    && (first.value.delta < 0 <==> next.delta < 0)
  }

  function Clamped(region: ScrollRegion): ScrollRegion {
    var height := region.bottom - region.top;
    if region.delta < -height then region.(delta := -height)
    else if region.delta > height then region.(delta := height)
    else region
  }

  function Composed(first: Option<ScrollRegion>, next: ScrollRegion): ScrollRegion {
    if first.Some? then Clamped(next.(delta := first.value.delta + next.delta)) else next
  }

  /** Where a composed scroll takes a row from is where its parts do. */
  lemma {:induction false} ComposedSource(first: ScrollRegion, next: ScrollRegion, rows: int, r: int)
    requires LegalScroll(first, rows) && LegalScroll(next, rows) && Composable(Some(first), next) && 0 <= r < rows
    ensures LegalScroll(Composed(Some(first), next), rows)
    ensures var far := ScrollSource(Composed(Some(first), next), r);
            far == match ScrollSource(next, r) { case None => None case Some(near) => ScrollSource(first, near) }
  {
  }

  /** A scroll carries base, damage and screen along. */
  lemma {:induction false} ScrollKeepsCovers(base: Grid, first: Option<ScrollRegion>, next: ScrollRegion, dirty: seq<DirtySpan>, now: Grid, cols: nat)
    requires Covers(base, first, dirty, now, cols) && LegalScroll(next, |dirty|) && LegalScroll(next, |now|) && Composable(first, next)
    ensures Covers(base, Some(Composed(first, next)), ShiftedSpans(dirty, next), Scrolled(now, Some(next), DEFAULT_BLANK, cols), cols)
  {
    var region, shifted := Composed(first, next), ShiftedSpans(dirty, next);
    var moved := Scrolled(now, Some(next), DEFAULT_BLANK, cols);
    var goal := Scrolled(base, Some(region), DEFAULT_BLANK, cols);
    var step := Scrolled(base, first, DEFAULT_BLANK, cols);
    forall r | 0 <= r < |moved|
      ensures |moved[r]| == cols
      ensures forall c :: 0 <= c < cols && !InSpan(shifted[r], c) ==> moved[r][c] == goal[r][c]
    {
      if first.Some? {
        ComposedSource(first.value, next, |base|, r);
      }
      var near := ScrollSource(next, r);
      if near.Some? {
        assert moved[r] == now[near.value] && goal[r] == step[near.value] && shifted[r] == dirty[near.value];
      } else {
        assert moved[r] == BlankRow(DEFAULT_BLANK, cols) == goal[r];
      }
    }
  }

  // ------------------------------------------------------------------ spans

  /** The smallest span over two. */
  function Hull(a: DirtySpan, b: DirtySpan): (hull: DirtySpan)
    ensures forall c :: InSpan(a, c) || InSpan(b, c) ==> InSpan(hull, c)
    ensures !Dirty(b) ==> hull == a
    ensures Dirty(b) ==> Dirty(hull)
  {
    if !Dirty(b) then a
    else if !Dirty(a) then b
    else DirtySpan(if a.start < b.start then a.start else b.start, if a.end > b.end then a.end else b.end)
  }

  /** No span holding both is smaller. */
  lemma {:induction false} HullSmallest(a: DirtySpan, b: DirtySpan, other: DirtySpan)
    requires forall c :: InSpan(a, c) || InSpan(b, c) ==> InSpan(other, c)
    ensures forall c :: InSpan(Hull(a, b), c) && (Dirty(a) || Dirty(b)) ==> InSpan(other, c)
  {
    if Dirty(a) {
      assert InSpan(a, a.start) && InSpan(a, a.end - 1);
    }
    if Dirty(b) {
      assert InSpan(b, b.start) && InSpan(b, b.end - 1);
    }
  }

  function Clipped(span: DirtySpan, cols: int): (out: DirtySpan)
    ensures forall c :: InSpan(out, c) <==> InSpan(span, c) && 0 <= c < cols
  {
    DirtySpan(if span.start < 0 then 0 else span.start, if span.end > cols then cols else span.end)
  }

  /** Each dirty row grows by what the new spans say about it. */
  function MergedSpans(dirty: seq<DirtySpan>, more: seq<DirtySpan>, cols: int): (out: seq<DirtySpan>)
    ensures |out| == |dirty|
    ensures forall r :: 0 <= r < |dirty| ==> out[r] == if r < |more| then Hull(dirty[r], Clipped(more[r], cols)) else dirty[r]
  {
    seq(|dirty|, r requires 0 <= r < |dirty| => if r < |more| then Hull(dirty[r], Clipped(more[r], cols)) else dirty[r])
  }

  lemma {:induction false} MergeKeepsCovers(base: Grid, region: Option<ScrollRegion>, dirty: seq<DirtySpan>, mid: Grid,
                                            more: seq<DirtySpan>, now: Grid, cols: nat)
    requires Covers(base, region, dirty, mid, cols) && DifferInside(mid, now, more, cols)
    ensures Covers(base, region, MergedSpans(dirty, more, cols), now, cols)
  {
    var merged := MergedSpans(dirty, more, cols);
    forall r, c | 0 <= r < |now| && 0 <= c < cols && !InSpan(merged[r], c)
      ensures now[r][c] == Scrolled(base, region, DEFAULT_BLANK, cols)[r][c]
    {
      assert now[r][c] == mid[r][c] by {
        if r < |more| {
          assert !InSpan(Clipped(more[r], cols), c);
        }
      }
    }
  }

  // -------------------------------------------------------- counting dirty rows

  function DirtyCount(dirty: seq<DirtySpan>): nat {
    if dirty == [] then 0 else DirtyCount(dirty[..|dirty| - 1]) + if Dirty(dirty[|dirty| - 1]) then 1 else 0
  }

  lemma {:induction false} DirtyCountAppend(a: seq<DirtySpan>, b: seq<DirtySpan>)
    ensures DirtyCount(a + b) == DirtyCount(a) + DirtyCount(b)
    decreases |b|
  {
    if b == [] {
      assert a + b == a;
    } else {
      assert (a + b)[..|a + b| - 1] == a + b[..|b| - 1];
      DirtyCountAppend(a, b[..|b| - 1]);
    }
  }

  lemma {:induction false} DirtyCountUpdate(dirty: seq<DirtySpan>, r: nat, span: DirtySpan)
    requires r < |dirty|
    ensures DirtyCount(dirty[r := span]) ==
            DirtyCount(dirty) - (if Dirty(dirty[r]) then 1 else 0) + (if Dirty(span) then 1 else 0)
  {
    var left, right := dirty[..r], dirty[r + 1..];
    assert dirty == left + [dirty[r]] + right && dirty[r := span] == left + [span] + right;
    DirtyCountAppend(left, [dirty[r]]);
    DirtyCountAppend(left, [span]);
    DirtyCountAppend(left + [dirty[r]], right);
    DirtyCountAppend(left + [span], right);
    assert [dirty[r]][..0] == [] && [span][..0] == [];
  }

  lemma {:induction false} AllSame(dirty: seq<DirtySpan>, span: DirtySpan)
    requires forall r :: 0 <= r < |dirty| ==> dirty[r] == span
    ensures DirtyCount(dirty) == if Dirty(span) then |dirty| else 0
  {
    if dirty != [] {
      AllSame(dirty[..|dirty| - 1], span);
    }
  }

  lemma {:induction false} NoneDirty(dirty: seq<DirtySpan>)
    ensures DirtyCount(dirty) == 0 <==> forall r :: 0 <= r < |dirty| ==> !Dirty(dirty[r])
  {
    if dirty != [] {
      NoneDirty(dirty[..|dirty| - 1]);
    }
  }

  function CleanSpans(count: nat): (out: seq<DirtySpan>)
    ensures |out| == count
  {
    seq(count, _ => CLEAN)
  }

  /** A region's spans after the in-place copy and clear of a shift. */
  function CopiedSpans(spans: seq<DirtySpan>, delta: int): (out: seq<DirtySpan>)
    requires -|spans| <= delta <= |spans|
    ensures |out| == |spans|
  {
    if delta < 0 then spans[-delta..] + CleanSpans(-delta)
    else CleanSpans(delta) + spans[..|spans| - delta]
  }

  lemma {:induction false} CopiedIsShifted(dirty: seq<DirtySpan>, region: ScrollRegion)
    requires LegalScroll(region, |dirty|)
    ensures dirty[..region.top] + CopiedSpans(dirty[region.top..region.bottom], region.delta) + dirty[region.bottom..]
            == ShiftedSpans(dirty, region)
  {
    var spans, shifted := dirty[region.top..region.bottom], ShiftedSpans(dirty, region);
    var copied := CopiedSpans(spans, region.delta);
    var all := dirty[..region.top] + copied + dirty[region.bottom..];
    forall r | 0 <= r < |dirty| ensures all[r] == shifted[r] {
      if region.top <= r < region.bottom {
        assert all[r] == copied[r - region.top];
      }
    }
  }

  /** `shiftDirtyRows`: the dirty rows that leave the region are the ones dropped. */
  method ShiftDirtyRows(dirty: seq<DirtySpan>, region: ScrollRegion) returns (out: seq<DirtySpan>, dropped: nat)
    requires LegalScroll(region, |dirty|)
    ensures out == ShiftedSpans(dirty, region)
    ensures DirtyCount(out) == DirtyCount(dirty) - dropped
  {
    var top, bottom := region.top, region.bottom;
    var spans := dirty[top..bottom];
    var shift := if region.delta < 0 then -region.delta else region.delta;
    var leaving := if region.delta < 0 then spans[..shift] else spans[|spans| - shift..];
    dropped := 0;
    var i := 0;
    while i < |leaving|
      invariant 0 <= i <= |leaving| && dropped == DirtyCount(leaving[..i])
    {
      assert leaving[..i + 1][..i] == leaving[..i];
      if leaving[i].end > leaving[i].start {
        dropped := dropped + 1;
      }
      i := i + 1;
    }
    assert leaving[..i] == leaving;
    out := dirty[..top] + CopiedSpans(spans, region.delta) + dirty[bottom..];
    CopiedIsShifted(dirty, region);
    DroppedCount(dirty, region, spans, leaving);
  }

  lemma {:induction false} DroppedCount(dirty: seq<DirtySpan>, region: ScrollRegion, spans: seq<DirtySpan>, leaving: seq<DirtySpan>)
    requires LegalScroll(region, |dirty|) && spans == dirty[region.top..region.bottom]
    requires leaving == if region.delta < 0 then spans[..-region.delta] else spans[|spans| - region.delta..]
    ensures DirtyCount(dirty[..region.top] + CopiedSpans(spans, region.delta) + dirty[region.bottom..])
            == DirtyCount(dirty) - DirtyCount(leaving)
  {
    hide DirtyCount;
    var head, tail, copied := dirty[..region.top], dirty[region.bottom..], CopiedSpans(spans, region.delta);
    assert dirty == head + spans + tail;
    DirtyCountAppend(head, spans);
    DirtyCountAppend(head + spans, tail);
    DirtyCountAppend(head, copied);
    DirtyCountAppend(head + copied, tail);
    if region.delta < 0 {
      var staying := spans[-region.delta..];
      assert spans == leaving + staying;
      DirtyCountAppend(leaving, staying);
      DirtyCountAppend(staying, CleanSpans(-region.delta));
      AllSame(CleanSpans(-region.delta), CLEAN);
    } else {
      var staying := spans[..|spans| - region.delta];
      assert spans == staying + leaving;
      DirtyCountAppend(staying, leaving);
      DirtyCountAppend(CleanSpans(region.delta), staying);
      AllSame(CleanSpans(region.delta), CLEAN);
    }
  }

  // ------------------------------------------------------------ ViewMutation

  class ViewMutation {
    var dirtySpans: seq<DirtySpan>
    var scrollRegion: Option<ScrollRegion>
    var fullRedraw: bool
    var cursorChanged: bool

    ghost predicate Valid()
      reads this
    {
      && ScrollFits(scrollRegion, |dirtySpans|)
      && (forall r :: 0 <= r < |dirtySpans| ==> dirtySpans[r] == CLEAN || 0 <= dirtySpans[r].start < dirtySpans[r].end)
      && (fullRedraw ==> scrollRegion.None? && forall r :: 0 <= r < |dirtySpans| ==> dirtySpans[r] == CLEAN)
    }

    /** The damage so far explains how `base` became `now`, unless everything is redrawn. */
    ghost predicate Explains(base: Grid, now: Grid, cols: nat)
      reads this
    {
      fullRedraw || Covers(base, scrollRegion, dirtySpans, now, cols)
    }

    constructor (rows: int)
      ensures Valid() && |dirtySpans| == (if rows < 0 then 0 else rows) && !fullRedraw && !cursorChanged && scrollRegion.None?
      ensures forall grid: Grid, cols: nat :: Sized(grid, |dirtySpans|, cols) ==> Explains(grid, grid, cols)
    {
      dirtySpans := CleanSpans(if rows < 0 then 0 else rows);
      scrollRegion, fullRedraw, cursorChanged := None, false, false;
    }

    /** Columns a terminal wrote: whatever changed there stays explained. */
    method MarkDirty(row: int, start: int, end: int, cols: int)
      requires Valid()
      modifies `dirtySpans
      ensures Valid() && |dirtySpans| == |old(dirtySpans)|
      ensures dirtySpans ==
              if fullRedraw || row < 0 || row >= |old(dirtySpans)| then old(dirtySpans)
              else old(dirtySpans)[row := Hull(old(dirtySpans)[row], Clipped(DirtySpan(start, end), cols))]
      ensures forall base: Grid, mid: Grid, now: Grid ::
                cols >= 0 && old(Explains(base, mid, cols)) && WroteRow(mid, now, row, start, end, cols) ==> Explains(base, now, cols)
    {
      var from := if start < 0 then 0 else start;
      var to := if end > cols then cols else end;
      if fullRedraw || row < 0 || row >= |dirtySpans| || start >= end || cols <= 0 || from >= to {
        Marked(old(dirtySpans), row, start, end, cols);
        return;
      }
      var span := dirtySpans[row];
      if span.end == 0 {
        span := DirtySpan(from, to);
      } else {
        span := DirtySpan(if from < span.start then from else span.start, if to > span.end then to else span.end);
      }
      dirtySpans := dirtySpans[row := span];
      Marked(old(dirtySpans), row, start, end, cols);
    }

    lemma {:induction false} Marked(was: seq<DirtySpan>, row: int, start: int, end: int, cols: int)
      requires !fullRedraw ==>
                 dirtySpans == if row < 0 || row >= |was| then was
                               else was[row := Hull(was[row], Clipped(DirtySpan(start, end), cols))]
      ensures forall base: Grid, mid: Grid, now: Grid ::
                !fullRedraw && cols >= 0 && Covers(base, scrollRegion, was, mid, cols) && WroteRow(mid, now, row, start, end, cols) ==>
                  Covers(base, scrollRegion, dirtySpans, now, cols)
    {
      forall base: Grid, mid: Grid, now: Grid |
        !fullRedraw && cols >= 0 && Covers(base, scrollRegion, was, mid, cols) && WroteRow(mid, now, row, start, end, cols)
        ensures Covers(base, scrollRegion, dirtySpans, now, cols)
      {
        MarkKeepsCovers(base, scrollRegion, was, mid, row, DirtySpan(start, end), now, cols);
      }
    }

    /** A scroll of the screen: its damage moves with it, scrolls of one region
        and direction add up, anything else is redrawn whole. */
    method RecordScrollRegion(top: int, bottom: int, delta: int)
      requires Valid()
      modifies `dirtySpans, `scrollRegion, `fullRedraw
      ensures Valid() && |dirtySpans| == |old(dirtySpans)|
      ensures fullRedraw <==> || old(fullRedraw) || !LegalScroll(ScrollRegion(top, bottom, delta), |dirtySpans|)
                              || !Composable(old(scrollRegion), ScrollRegion(top, bottom, delta))
      ensures !fullRedraw ==>
                && scrollRegion == Some(Composed(old(scrollRegion), ScrollRegion(top, bottom, delta)))
                && dirtySpans == ShiftedSpans(old(dirtySpans), ScrollRegion(top, bottom, delta))
      ensures forall base: Grid, mid: Grid, cols: nat ::
                LegalScroll(ScrollRegion(top, bottom, delta), |mid|) && old(Explains(base, mid, cols)) ==>
                  Explains(base, Scrolled(mid, Some(ScrollRegion(top, bottom, delta)), DEFAULT_BLANK, cols), cols)
    {
      hide Covers;
      var region := ScrollRegion(top, bottom, delta);
      if top < 0 || top >= bottom || bottom > |dirtySpans| || delta == 0 || delta < -(bottom - top) || delta > bottom - top {
        ForceFullRedraw();
        return;
      }
      if fullRedraw {
        return;
      }
      if scrollRegion.Some? && (scrollRegion.value.top != top || scrollRegion.value.bottom != bottom
                                || (scrollRegion.value.delta < 0) != (delta < 0)) {
        ForceFullRedraw();
        return;
      }
      forall base: Grid, mid: Grid, cols: nat | LegalScroll(region, |mid|) && Covers(base, scrollRegion, dirtySpans, mid, cols)
        ensures Covers(base, Some(Composed(scrollRegion, region)), ShiftedSpans(dirtySpans, region),
                       Scrolled(mid, Some(region), DEFAULT_BLANK, cols), cols)
      {
        ScrollKeepsCovers(base, scrollRegion, region, dirtySpans, mid, cols);
      }
      CopiedIsShifted(dirtySpans, region);
      dirtySpans := dirtySpans[..top] + CopiedSpans(dirtySpans[top..bottom], delta) + dirtySpans[bottom..];
      if scrollRegion.None? {
        scrollRegion := Some(region);
      } else {
        var height, sum := bottom - top, scrollRegion.value.delta + delta;
        if sum < -height {
          sum := -height;
        } else if sum > height {
          sum := height;
        }
        scrollRegion := Some(ScrollRegion(top, bottom, sum));
      }
    }

    method ForceFullRedraw()
      modifies `dirtySpans, `scrollRegion, `fullRedraw
      ensures Valid() && fullRedraw && |dirtySpans| == |old(dirtySpans)|
    {
      fullRedraw, scrollRegion, dirtySpans := true, None, CleanSpans(|dirtySpans|);
    }

    /** No reported change means there is none: the screen is still the base. */
    method HasRenderChange() returns (changed: bool)
      requires Valid()
      ensures changed <==> fullRedraw || scrollRegion.Some? || cursorChanged || exists r :: 0 <= r < |dirtySpans| && Dirty(dirtySpans[r])
      ensures !changed ==> forall base: Grid, now: Grid, cols: nat :: Explains(base, now, cols) ==> base == now
    {
      var damaged := false;
      var r := 0;
      while r < |dirtySpans| && !damaged
        invariant 0 <= r <= |dirtySpans|
        invariant damaged <==> exists k :: 0 <= k < r && Dirty(dirtySpans[k])
      {
        damaged := dirtySpans[r].end != 0;
        assert damaged <==> Dirty(dirtySpans[r]);
        r := r + 1;
      }
      changed := fullRedraw || scrollRegion.Some? || cursorChanged || damaged;
      if !changed {
        forall base: Grid, now: Grid, cols: nat | Explains(base, now, cols) ensures base == now {
          NoDamage(base, dirtySpans, now, cols);
        }
      }
    }
  }

  lemma {:induction false} NoDamage(base: Grid, dirty: seq<DirtySpan>, now: Grid, cols: nat)
    requires Covers(base, None, dirty, now, cols) && forall r :: 0 <= r < |dirty| ==> !Dirty(dirty[r])
    ensures base == now
  {
    forall r | 0 <= r < |base| ensures now[r] == base[r] {
      assert forall c :: 0 <= c < cols ==> !InSpan(dirty[r], c);
    }
  }

  /** The screen changed at most in some columns of one row. */
  ghost predicate WroteRow(before: Grid, after: Grid, row: int, start: int, end: int, cols: nat) {
    && |before| == |after| && Sized(before, |before|, cols) && Sized(after, |before|, cols)
    && forall r, c :: 0 <= r < |before| && 0 <= c < cols && !(r == row && start <= c < end) ==> after[r][c] == before[r][c]
  }

  lemma {:induction false} MarkKeepsCovers(base: Grid, region: Option<ScrollRegion>, dirty: seq<DirtySpan>, mid: Grid,
                                           row: int, span: DirtySpan, now: Grid, cols: nat)
    requires Covers(base, region, dirty, mid, cols) && WroteRow(mid, now, row, span.start, span.end, cols)
    ensures Covers(base, region, if 0 <= row < |dirty| then dirty[row := Hull(dirty[row], Clipped(span, cols))] else dirty, now, cols)
  {
    var after := if 0 <= row < |dirty| then dirty[row := Hull(dirty[row], Clipped(span, cols))] else dirty;
    forall r, c | 0 <= r < |now| && 0 <= c < cols && !InSpan(after[r], c)
      ensures now[r][c] == Scrolled(base, region, DEFAULT_BLANK, cols)[r][c]
    {
      if r == row {
        assert !InSpan(Clipped(span, cols), c) && !InSpan(dirty[r], c);
      }
      assert now[r][c] == mid[r][c];
    }
  }
}
