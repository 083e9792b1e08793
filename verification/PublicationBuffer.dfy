/** The buffer a publication is written into, row by row: each marked stretch of a
    row becomes a run, and its cells are interned in the publication's own tables. */
module PublicationBuffer {
  import opened Display
  import opened Publication
  import opened Painting
  import opened SemanticCells
  import opened RowDiff

  predicate Covered(runs: seq<Run>, r: int, c: int) {
    exists i :: 0 <= i < |runs| && RunHas(runs[i], r, c)
  }

  /** A run of a row: cells of the current row, cutting no pair of the current or the shown row. */
  ghost predicate FitsRow(run: Run, row: nat, current: seq<Cell>, shown: seq<Cell>) {
    && run.row == row && run.column + |run.cells| <= |current| == |shown|
    && run.cells == current[run.column..run.column + |run.cells|]
    && CutsNothing(current, run.column, run.column + |run.cells|)
    && CutsNothing(shown, run.column, run.column + |run.cells|)
  }

  /** No mark touches the run from outside. */
  predicate Maximal(run: Run, diff: seq<bool>) {
    && run.column + |run.cells| <= |diff|
    && (run.column == 0 || !diff[run.column - 1])
    && (run.column + |run.cells| == |diff| || !diff[run.column + |run.cells|])
  }

  /** The runs of one row: in order, apart, and exactly where the marks are. */
  ghost predicate RowRuns(runs: seq<Run>, row: nat, current: seq<Cell>, shown: seq<Cell>, diff: seq<bool>, upto: nat) {
    && |diff| == |current| && OrderedRuns(runs)
    && (forall i :: 0 <= i < |runs| ==>
          FitsRow(runs[i], row, current, shown) && runs[i].column + |runs[i].cells| <= upto && Maximal(runs[i], diff))
    && (forall c :: 0 <= c < |diff| && c < upto ==> (diff[c] <==> Covered(runs, row, c)))
  }

  function RunContent(run: PublishedRun, meaning: seq<Cell>): Run {
    Run(run.row, run.column,
        if run.cellStart + run.columns <= |meaning| then meaning[run.cellStart..run.cellStart + run.columns] else [])
  }

  function Contents(runs: seq<PublishedRun>, meaning: seq<Cell>): (out: seq<Run>)
    ensures |out| == |runs|
    ensures forall i :: 0 <= i < |runs| ==> out[i] == RunContent(runs[i], meaning)
  {
    seq(|runs|, i requires 0 <= i < |runs| => RunContent(runs[i], meaning))
  }

  /** The runs lie in the cells, and the cells mean `meaning`. */
  ghost predicate Holds(runs: seq<PublishedRun>, cells: seq<SemanticCell>, styles: seq<Style>, clusters: Text, meaning: seq<Cell>) {
    && DenoteAll(cells, styles, clusters, meaning)
    && forall i :: 0 <= i < |runs| ==> runs[i].cellStart + runs[i].columns <= |cells|
  }

  /** A stored publication's runs mean what was put into the buffer. */
  lemma {:induction false} HoldsMeans(p: Publication, meaning: seq<Cell>)
    requires Holds(p.runs, p.cells, p.styles, p.clusters, meaning)
    ensures SemanticRuns(p) == Contents(p.runs, meaning)
    ensures forall i :: 0 <= i < |p.runs| ==> RunInRange(p, p.runs[i])
    ensures forall i :: 0 <= i < |p.cells| ==> InTables(p.cells[i], p.styles, p.clusters)
  {
    forall i | 0 <= i < |p.runs| ensures RunInRange(p, p.runs[i]) && SemanticRun(p, p.runs[i]) == RunContent(p.runs[i], meaning) {
      RunMeans(p, p.runs[i], meaning);
    }
  }

  lemma {:induction false} RunMeans(p: Publication, run: PublishedRun, meaning: seq<Cell>)
    requires DenoteAll(p.cells, p.styles, p.clusters, meaning) && run.cellStart + run.columns <= |p.cells|
    ensures RunInRange(p, run) && SemanticRun(p, run) == RunContent(run, meaning)
  {
    hide Denotes, Resolve;
    var from, to := run.cellStart, run.cellStart + run.columns;
    forall k | 0 <= k < run.columns ensures RunCells(p, run)[k] == meaning[from..to][k] {
      assert p.cells[from..to][k] == p.cells[from + k];
      DenotedMeaning(p.cells[from + k], p.styles, p.clusters, meaning[from + k]);
    }
    assert RunCells(p, run) == meaning[from..to];
  }

  lemma {:induction false} DenotedMeaning(cell: SemanticCell, styles: seq<Style>, clusters: Text, meaning: Cell)
    requires Denotes(cell, styles, clusters, meaning)
    ensures Resolve(cell, styles, clusters) == meaning
  {
  }

  class Buffer {
    var runs: seq<PublishedRun>
    var cells: seq<SemanticCell>
    var styles: seq<Style>
    var clusters: Text
    ghost var meaning: seq<Cell>

    ghost predicate Valid()
      reads this
    {
      Holds(runs, cells, styles, clusters, meaning)
    }

    ghost function Content(): seq<Run>
      reads this
    {
      Contents(runs, meaning)
    }

    constructor ()
      ensures Valid() && Content() == []
    {
      runs, cells, styles, clusters, meaning := [], [], [], [], [];
    }

    method Reset()
      modifies this
      ensures Valid() && Content() == []
    {
      runs, cells, styles, clusters, meaning := [], [], [], [], [];
    }

    /** No table has room for some cell of the row. */
    ghost predicate NoRoomFor(current: seq<Cell>)
      reads this
    {
      exists c :: 0 <= c < |current| && CannotStore(styles, clusters, current[c])
    }

    /** One run: its cells appended one by one. */
    method AppendRun(row: nat, current: seq<Cell>, from: nat, to: nat) returns (ok: bool)
      requires Valid() && from <= to <= |current| && CanonicalCells(current)
      modifies this
      ensures Valid() && (!ok ==> NoRoomFor(current))
      ensures ok ==> Content() == old(Content()) + [Run(row, from, current[from..to])]
    {
      hide DenoteAll, CanonicalCells, CannotStore;
      var cellStart := |cells|;
      ghost var before := meaning;
      AllMean(cells, styles, clusters, meaning);
      var column := from;
      assert meaning == before + current[from..column];
      while column < to
        invariant from <= column <= to && runs == old(runs) && |cells| == |meaning| && |before| == cellStart
        invariant Valid() && meaning == before + current[from..column]
      {
        CanonicalAt(current, column);
        AllMean(cells, styles, clusters, meaning);
        var newCells, newStyles, newClusters;
        ok, newCells, newStyles, newClusters := AppendSemantic(cells, styles, clusters, current[column], meaning);
        if !ok {
          CannotStoreIt(styles, clusters, current[column]);
          return;
        }
        AllMean(newCells, newStyles, newClusters, meaning + [current[column]]);
        assert current[from..column + 1] == current[from..column] + [current[column]];
        cells, styles, clusters, meaning := newCells, newStyles, newClusters, meaning + [current[column]];
        column := column + 1;
      }
      AllMean(cells, styles, clusters, meaning);
      ok := true;
      LaterContents(runs, before, meaning);
      var run := PublishedRun(row, from, to - from, cellStart);
      assert RunContent(run, meaning) == Run(row, from, current[from..to]);
      runs := runs + [run];
      assert Content() == old(Content()) + [Run(row, from, current[from..to])];
    }

    static lemma {:induction false} CannotStoreIt(styles: seq<Style>, clusters: Text, cell: Cell)
      requires StylesFull(styles, cell.style) || (cell.glyph.Cluster? && ArenaFull(clusters, cell.glyph.text))
      ensures CannotStore(styles, clusters, cell)
    {
    }

    static lemma {:induction false} AllMean(cells: seq<SemanticCell>, styles: seq<Style>, clusters: Text, meaning: seq<Cell>)
      requires DenoteAll(cells, styles, clusters, meaning)
      ensures |cells| == |meaning|
    {
    }

    static lemma {:induction false} CanonicalAt(cells: seq<Cell>, i: nat)
      requires CanonicalCells(cells) && i < |cells|
      ensures Canonical(cells[i].style)
    {
    }

    /** Earlier runs keep their content. */
    static lemma {:induction false} LaterContents(runs: seq<PublishedRun>, before: seq<Cell>, after: seq<Cell>)
      requires before <= after && forall i :: 0 <= i < |runs| ==> runs[i].cellStart + runs[i].columns <= |before|
      ensures Contents(runs, after) == Contents(runs, before)
    {
      forall i | 0 <= i < |runs| ensures RunContent(runs[i], after) == RunContent(runs[i], before) {
        var from, to := runs[i].cellStart, runs[i].cellStart + runs[i].columns;
        assert after[..|before|] == before;
        assert after[from..to] == before[from..to];
      }
    }

    /** The marked stretches between `start` and `end`, as runs. */
    method AppendRow(row: nat, current: seq<Cell>, ghost shown: seq<Cell>, diff: seq<bool>, start: nat, end: nat)
      returns (ok: bool, ghost added: seq<Run>)
      requires Valid() && start <= end <= |current| == |shown| && CanonicalCells(current)
      requires Marks(diff, |current|, start, end) && Closed(current, diff) && Closed(shown, diff)
      modifies this
      ensures Valid() && (!ok ==> NoRoomFor(current))
      ensures ok ==> Content() == old(Content()) + added && RowRuns(added, row, current, shown, diff, |current|)
    {
      hide Holds, Contents, CanonicalCells, Closed, RowRuns;
      added := [];
      var column := start;
      NoRunsYet(row, current, shown, diff, start, end);
      assert Content() == old(Content()) + added;
      while column < end
        invariant start <= column <= end && Valid()
        invariant Content() == old(Content()) + added
        invariant RowRuns(added, row, current, shown, diff, column)
        invariant column < end && diff[column] ==> column == 0 || !diff[column - 1]
      {
        if !diff[column] {
          SkipColumn(added, row, current, shown, diff, column);
          column := column + 1;
          continue;
        }
        var runStart := column;
        while column < end && diff[column]
          invariant runStart <= column <= end
          invariant forall c :: runStart <= c < column ==> diff[c]
        {
          column := column + 1;
        }
        ok := AppendRun(row, current, runStart, column);
        if !ok {
          return;
        }
        ghost var run := Run(row, runStart, current[runStart..column]);
        TakeRun(added, row, current, shown, diff, runStart, column, start, end);
        added := added + [run];
        assert Content() == old(Content()) + added;
      }
      ok := true;
      RowEnd(added, row, current, shown, diff, start, end);
    }

    static lemma {:induction false} NoRunsYet(row: nat, current: seq<Cell>, shown: seq<Cell>, diff: seq<bool>, start: nat, end: nat)
      requires Marks(diff, |current|, start, end) && start <= end <= |current|
      ensures RowRuns([], row, current, shown, diff, start)
      ensures start < end && diff[start] ==> start == 0 || !diff[start - 1]
    {
    }

    static lemma {:induction false} SkipColumn(added: seq<Run>, row: nat, current: seq<Cell>, shown: seq<Cell>, diff: seq<bool>, column: nat)
      requires RowRuns(added, row, current, shown, diff, column) && column < |diff| && !diff[column]
      ensures RowRuns(added, row, current, shown, diff, column + 1)
    {
    }

    static lemma {:induction false} TakeRun(added: seq<Run>, row: nat, current: seq<Cell>, shown: seq<Cell>, diff: seq<bool>,
                                            from: nat, to: nat, start: nat, end: nat)
      requires RowRuns(added, row, current, shown, diff, from) && Closed(current, diff) && Closed(shown, diff)
      requires start <= from < to <= end <= |current| && Marks(diff, |current|, start, end)
      requires forall c :: from <= c < to ==> diff[c]
      requires from == 0 || !diff[from - 1]
      requires to < end ==> !diff[to]
      ensures RowRuns(added + [Run(row, from, current[from..to])], row, current, shown, diff, to)
    {
      var run := Run(row, from, current[from..to]);
      var runs := added + [run];
      NewRunFits(row, current, shown, diff, from, to, start, end);
      hide FitsRow, Closed, Maximal, Marks, OrderedRuns;
      assert runs[|added|] == run;
      assert OrderedRuns(runs) by { OrderedOneMore(added, run); }
      forall i | 0 <= i < |runs|
        ensures FitsRow(runs[i], row, current, shown) && runs[i].column + |runs[i].cells| <= to && Maximal(runs[i], diff)
      {
        assert i < |added| ==> runs[i] == added[i];
      }
      forall c | 0 <= c < |diff| && c < to ensures diff[c] <==> Covered(runs, row, c) {
        CoveredOneMore(added, run, row, c);
      }
    }

    static lemma {:induction false} NewRunFits(row: nat, current: seq<Cell>, shown: seq<Cell>, diff: seq<bool>,
                                               from: nat, to: nat, start: nat, end: nat)
      requires Closed(current, diff) && Closed(shown, diff)
      requires start <= from < to <= end <= |current| && Marks(diff, |current|, start, end)
      requires forall c :: from <= c < to ==> diff[c]
      requires from == 0 || !diff[from - 1]
      requires to < end ==> !diff[to]
      ensures FitsRow(Run(row, from, current[from..to]), row, current, shown) && Maximal(Run(row, from, current[from..to]), diff)
    {
      assert ClosedAt(current, diff, from) && ClosedAt(current, diff, to - 1);
      assert ClosedAt(shown, diff, from) && ClosedAt(shown, diff, to - 1);
    }

    static lemma {:induction false} OrderedOneMore(runs: seq<Run>, run: Run)
      requires OrderedRuns(runs)
      requires forall i :: 0 <= i < |runs| ==> runs[i].row == run.row && runs[i].column + |runs[i].cells| <= run.column
      ensures OrderedRuns(runs + [run])
    {
    }

    static lemma {:induction false} CoveredOneMore(runs: seq<Run>, run: Run, row: int, c: int)
      ensures Covered(runs + [run], row, c) <==> Covered(runs, row, c) || RunHas(run, row, c)
    {
      var more := runs + [run];
      if Covered(runs, row, c) {
        var i :| 0 <= i < |runs| && RunHas(runs[i], row, c);
        assert RunHas(more[i], row, c);
      }
      if RunHas(run, row, c) {
        assert RunHas(more[|runs|], row, c);
      }
      if Covered(more, row, c) {
        var i :| 0 <= i < |more| && RunHas(more[i], row, c);
        assert i < |runs| ==> RunHas(runs[i], row, c);
      }
    }

    static lemma {:induction false} RowEnd(added: seq<Run>, row: nat, current: seq<Cell>, shown: seq<Cell>, diff: seq<bool>, start: nat, end: nat)
      requires RowRuns(added, row, current, shown, diff, end) && Marks(diff, |current|, start, end) && end <= |current|
      ensures RowRuns(added, row, current, shown, diff, |current|)
    {
    }
  }
}
