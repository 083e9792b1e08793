/** One row of a publication: which columns differ from the row the client shows,
    closed under the double-width pairs of both rows, gathered into runs. */
module RowDiff {
  import opened Display
  import opened Publication
  import opened Painting
  import opened SemanticCells

  /** What the renderer knows of the row a client shows: the snapshot's cells, or
      nothing when a scroll exposed the row and it shows default blanks. */
  type PreviousRow = Option<seq<SemanticCell>>

  ghost predicate PreviousShows(previous: PreviousRow, styles: seq<Style>, clusters: Text, shown: seq<Cell>) {
    && ValidRow(shown)
    && (previous.Some? ==> DenoteAll(previous.value, styles, clusters, shown))
    && (previous.None? ==> shown == BlankRow(DEFAULT_BLANK, |shown|))
  }

  predicate PreviousContinues(previous: PreviousRow, column: nat)
    requires previous.Some? ==> column < |previous.value|
  {
    previous.Some? && previous.value[column].glyph.SContinuation?
  }

  predicate PreviousWide(previous: PreviousRow, column: nat)
    requires previous.Some? ==> column < |previous.value|
  {
    previous.Some? && previous.value[column].width == 2
  }

  lemma {:induction false} PreviousMeans(previous: PreviousRow, styles: seq<Style>, clusters: Text, shown: seq<Cell>, column: nat)
    requires PreviousShows(previous, styles, clusters, shown) && column < |shown|
    ensures previous.Some? ==> column < |previous.value| && Denotes(previous.value[column], styles, clusters, shown[column])
    ensures PreviousContinues(previous, column) <==> shown[column].glyph.Continuation?
    ensures PreviousWide(previous, column) <==> shown[column].width == 2
  {
  }

  /** The columns from `from` up to `to` split no double-width pair. */
  predicate CutsNothing(row: seq<Cell>, from: nat, to: nat) {
    && from < to <= |row|
    && !row[from].glyph.Continuation?
    && (to < |row| ==> row[to - 1].width != 2)
  }

  /** Widens a dirty span until neither the old nor the new row has a pair across its ends. */
  method Widen(current: seq<Cell>, previous: PreviousRow, start: nat, end: nat,
               styles: seq<Style>, clusters: Text, ghost shown: seq<Cell>)
    returns (from: nat, to: nat)
    requires start < end <= |current| == |shown| && ValidRow(current)
    requires PreviousShows(previous, styles, clusters, shown)
    ensures from <= start && end <= to <= |current|
    ensures CutsNothing(current, from, to) && CutsNothing(shown, from, to)
  {
    hide PreviousShows, ValidRow, Denotes;
    from, to := start, end;
    FirstColumn(current);
    FirstColumnOld(previous, styles, clusters, shown);
    while from > 0
      invariant 0 <= from <= start
      invariant from > 0 || (!current[from].glyph.Continuation? && !shown[from].glyph.Continuation?)
    {
      PreviousMeans(previous, styles, clusters, shown, from);
      if !current[from].glyph.Continuation? && !PreviousContinues(previous, from) {
        break;
      }
      from := from - 1;
    }
    while to < |current|
      invariant end <= to <= |current|
    {
      PreviousMeans(previous, styles, clusters, shown, to - 1);
      if current[to - 1].width != 2 && !PreviousWide(previous, to - 1) {
        break;
      }
      to := to + 1;
    }
  }

  lemma {:induction false} FirstColumn(row: seq<Cell>)
    requires ValidRow(row) && |row| > 0
    ensures !row[0].glyph.Continuation?
  {
    PairAt(row, 0);
  }

  lemma {:induction false} FirstColumnOld(previous: PreviousRow, styles: seq<Style>, clusters: Text, shown: seq<Cell>)
    requires PreviousShows(previous, styles, clusters, shown) && |shown| > 0
    ensures !shown[0].glyph.Continuation?
  {
    FirstColumn(shown);
  }

  /** Columns marked for repainting; nothing outside `from..to`. */
  ghost predicate Marks(diff: seq<bool>, count: nat, from: nat, to: nat) {
    |diff| == count && forall c :: 0 <= c < count && diff[c] ==> from <= c < to
  }

  /** Every column that differs is marked. */
  ghost predicate MarksChanges(diff: seq<bool>, current: seq<Cell>, shown: seq<Cell>, from: nat, to: nat) {
    |diff| == |current| == |shown| && forall c :: from <= c < to && c < |diff| && current[c] != shown[c] ==> diff[c]
  }

  method Compare(current: seq<Cell>, previous: PreviousRow, keyframe: bool, from: nat, to: nat,
                 styles: seq<Style>, clusters: Text, ghost shown: seq<Cell>)
    returns (diff: seq<bool>)
    requires from <= to <= |current| == |shown|
    requires PreviousShows(previous, styles, clusters, shown)
    ensures Marks(diff, |current|, from, to) && MarksChanges(diff, current, shown, from, to)
    ensures forall c :: from <= c < to ==> (diff[c] <==> keyframe || previous.None? || current[c] != shown[c])
  {
    hide PreviousShows, Denotes;
    diff := seq(|current|, _ => false);
    var column := from;
    while column < to
      invariant from <= column <= to && |diff| == |current|
      invariant forall c :: 0 <= c < |diff| && !(from <= c < column) ==> !diff[c]
      invariant forall c :: from <= c < column ==> (diff[c] <==> keyframe || previous.None? || current[c] != shown[c])
    {
      PreviousMeans(previous, styles, clusters, shown, column);
      if keyframe || previous.None? {
        diff := diff[column := true];
      } else {
        CurrentEqualsMeans(current[column], previous.value[column], styles, clusters);
        OneMeaning(previous.value[column], styles, clusters, current[column], shown[column]);
        diff := diff[column := !CurrentEquals(current[column], previous.value[column], styles, clusters)];
      }
      column := column + 1;
    }
  }

  lemma {:induction false} OneMeaning(cell: SemanticCell, styles: seq<Style>, clusters: Text, a: Cell, b: Cell)
    requires Denotes(cell, styles, clusters, b)
    ensures Denotes(cell, styles, clusters, a) <==> a == b
  {
  }

  /** A marked half of a pair has its other half marked. */
  predicate ClosedAt(row: seq<Cell>, diff: seq<bool>, c: nat)
    requires |diff| == |row| && c < |row|
  {
    && (row[c].glyph.Continuation? ==> c > 0 && diff[c - 1])
    && (row[c].width == 2 ==> c + 1 < |row| && diff[c + 1])
  }

  ghost predicate Closed(row: seq<Cell>, diff: seq<bool>) {
    |diff| == |row| && forall c :: 0 <= c < |row| && diff[c] ==> ClosedAt(row, diff, c)
  }

  predicate PartnerChanged(current: seq<Cell>, changes: seq<bool>, c: nat)
    requires |changes| == |current| && c < |current|
  {
    || (current[c].glyph.Continuation? && c > 0 && changes[c - 1])
    || (current[c].width == 2 && c + 1 < |changes| && changes[c + 1])
  }

  predicate Touched(current: seq<Cell>, shown: seq<Cell>, c: int)
    requires |current| == |shown|
  {
    0 <= c < |current| && current[c] != shown[c]
  }

  /** A cell has to be painted when it, or the other half of its pair, changed. */
  predicate NeedsPaint(current: seq<Cell>, shown: seq<Cell>, c: int)
    requires |current| == |shown| && 0 <= c < |current|
  {
    || Touched(current, shown, c)
    || (current[c].glyph.Continuation? && Touched(current, shown, c - 1))
    || (current[c].width == 2 && Touched(current, shown, c + 1))
  }

  /** Nothing is marked beyond the changes and the other halves of changed pairs. */
  ghost predicate OnlyPartners(current: seq<Cell>, changes: seq<bool>, diff: seq<bool>) {
    && |changes| == |diff| == |current|
    && forall c :: 0 <= c < |diff| && diff[c] && !changes[c] ==> PartnerChanged(current, changes, c)
  }

  ghost predicate MarkedMore(changes: seq<bool>, diff: seq<bool>) {
    |changes| == |diff| && forall c :: 0 <= c < |diff| && changes[c] ==> diff[c]
  }

  /** One pass over the span closes the marks under the pairs of both rows and
      never leaves the span. */
  method ClosePairs(current: seq<Cell>, previous: PreviousRow, changes: seq<bool>, from: nat, to: nat,
                    styles: seq<Style>, clusters: Text, ghost shown: seq<Cell>)
    returns (diff: seq<bool>, start: nat, end: nat)
    requires |current| == |shown| && ValidRow(current) && PreviousShows(previous, styles, clusters, shown)
    requires CutsNothing(current, from, to) && CutsNothing(shown, from, to)
    requires Marks(changes, |current|, from, to) && MarksChanges(changes, current, shown, from, to)
    ensures start == from && end == to
    ensures Marks(diff, |current|, from, to) && MarkedMore(changes, diff) && OnlyPartners(current, changes, diff)
    ensures Closed(current, diff) && Closed(shown, diff)
  {
    hide PreviousShows, ValidRow, Denotes;
    diff, start, end := changes, from, to;
    var cols := |current|;
    var column := start;
    while column < end
      invariant start == from && end == to && from <= column <= to
      invariant Marks(diff, cols, from, to) && MarkedMore(changes, diff) && OnlyPartners(current, changes, diff)
      invariant forall c :: 0 <= c < column && diff[c] ==> ClosedAt(current, diff, c) && ClosedAt(shown, diff, c)
    {
      if diff[column] {
        PreviousMeans(previous, styles, clusters, shown, column);
        RowPairs(current, shown, previous, styles, clusters, column);
        var back := column > 0 && (current[column].glyph.Continuation? || PreviousContinues(previous, column));
        var ahead := column + 1 < cols && (current[column].width == 2 || PreviousWide(previous, column));
        MarkPartners(current, shown, changes, diff, from, to, column, back, ahead);
        ghost var marked := Partnered(diff, column, back, ahead);
        if column > 0 && current[column].glyph.Continuation? {
          diff := diff[column - 1 := true];
          start := Least(start, column - 1);
        }
        if current[column].width == 2 && column + 1 < cols {
          diff := diff[column + 1 := true];
          end := Most(end, column + 2);
        }
        if PreviousContinues(previous, column) && column > 0 {
          diff := diff[column - 1 := true];
          start := Least(start, column - 1);
        }
        if PreviousWide(previous, column) && column + 1 < cols {
          diff := diff[column + 1 := true];
          end := Most(end, column + 2);
        }
        assert diff == marked;
      }
      column := column + 1;
    }
  }

  function Least(a: nat, b: nat): nat { if a < b then a else b }

  function Most(a: nat, b: nat): nat { if a > b then a else b }

  /** The marks after the fix-up of one column. */
  function Partnered(diff: seq<bool>, column: nat, back: bool, ahead: bool): (out: seq<bool>)
    requires column < |diff| && (back ==> column > 0) && (ahead ==> column + 1 < |diff|)
  {
    var first := if back then diff[column - 1 := true] else diff;
    if ahead then first[column + 1 := true] else first
  }

  /** Both rows hold whole pairs around a column. */
  ghost predicate PairsAround(row: seq<Cell>, column: nat) {
    && column < |row|
    && (row[column].glyph.Continuation? <==> row[column].width == 0)
    && (row[column].width == 0 ==> column > 0 && row[column - 1].width == 2)
    && (row[column].width == 2 ==> column + 1 < |row| && row[column + 1].width == 0)
    && (column > 0 && row[column - 1].width == 2 ==> row[column].width == 0)
    && (column > 0 ==> (row[column - 1].glyph.Continuation? <==> row[column - 1].width == 0))
    && (column + 1 < |row| ==> (row[column + 1].glyph.Continuation? <==> row[column + 1].width == 0))
    && (column + 1 < |row| && row[column + 1].width == 0 ==> row[column].width == 2)
  }

  lemma {:induction false} ValidPairs(row: seq<Cell>, column: nat)
    requires ValidRow(row) && column < |row|
    ensures PairsAround(row, column)
  {
    PairAt(row, column);
    if column > 0 { PairAt(row, column - 1); }
    if column + 1 < |row| { PairAt(row, column + 1); }
    var widths := CellWidths(row);
    assert forall i :: 0 <= i < |row| ==> widths[i] == row[i].width;
  }

  lemma {:induction false} RowPairs(current: seq<Cell>, shown: seq<Cell>, previous: PreviousRow, styles: seq<Style>, clusters: Text, column: nat)
    requires ValidRow(current) && PreviousShows(previous, styles, clusters, shown) && column < |current| == |shown|
    ensures PairsAround(current, column) && PairsAround(shown, column)
  {
    ValidPairs(current, column);
    ValidPairs(shown, column);
  }

  lemma {:induction false} MarkPartners(current: seq<Cell>, shown: seq<Cell>, changes: seq<bool>, diff: seq<bool>,
                                        from: nat, to: nat, column: nat, back: bool, ahead: bool)
    requires |current| == |shown| == |diff| && from <= column < to <= |current| && diff[column]
    requires PairsAround(current, column) && PairsAround(shown, column)
    requires CutsNothing(current, from, to) && CutsNothing(shown, from, to)
    requires MarksChanges(changes, current, shown, from, to)
    requires Marks(diff, |current|, from, to) && MarkedMore(changes, diff) && OnlyPartners(current, changes, diff)
    requires forall c :: 0 <= c < column && diff[c] ==> ClosedAt(current, diff, c) && ClosedAt(shown, diff, c)
    requires back <==> column > 0 && (current[column].glyph.Continuation? || shown[column].glyph.Continuation?)
    requires ahead <==> column + 1 < |current| && (current[column].width == 2 || shown[column].width == 2)
    ensures back ==> from <= column - 1
    ensures ahead ==> column + 2 <= to
    ensures var out := Partnered(diff, column, back, ahead);
            && Marks(out, |current|, from, to) && MarkedMore(changes, out) && OnlyPartners(current, changes, out)
            && forall c :: 0 <= c <= column && out[c] ==> ClosedAt(current, out, c) && ClosedAt(shown, out, c)
  {
    var out := Partnered(diff, column, back, ahead);
    assert ClosedAt(current, out, column) && ClosedAt(shown, out, column);
    if back && !changes[column - 1] {
      assert current[column - 1] == shown[column - 1];
      assert current[column - 1].width == 2;
      assert changes[column];
    }
    if ahead && !changes[column + 1] {
      assert current[column + 1] == shown[column + 1];
      assert current[column + 1].glyph.Continuation?;
      assert changes[column];
    }
    forall c | 0 <= c < column && out[c] ensures ClosedAt(current, out, c) && ClosedAt(shown, out, c) {
      if diff[c] {
        assert ClosedAt(current, diff, c) && ClosedAt(shown, diff, c);
      }
    }
  }
}
