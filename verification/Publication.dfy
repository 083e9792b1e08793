/** A pane publication: the immutable update the renderer hands to an output
    lease. Cells index the publication's own style table and cluster arena. */
module Publication {
  import opened Display
  import opened Painting

  datatype SemanticGlyph =
    | SBlank
    | SScalar(r: Rune)
    | SCluster(start: nat, length: nat)
    | SContinuation

  datatype SemanticCell = SemanticCell(glyph: SemanticGlyph, style: nat, width: nat)

  datatype PublishedRun = PublishedRun(row: nat, column: nat, columns: nat, cellStart: nat)

  datatype PublicationKind = Delta | Keyframe

  datatype Publication = Publication(
    epoch: nat, baseVersion: nat, targetVersion: nat, kind: PublicationKind,
    revision: nat, barrier: bool, cols: nat, rows: nat,
    scroll: Option<ScrollRegion>, runs: seq<PublishedRun>,
    cells: seq<SemanticCell>, styles: seq<Style>, clusters: Text,
    cursor: CursorUpdate, cursorChanged: bool)

  /** What a semantic cell denotes; an index outside its table denotes a default. */
  function Resolve(cell: SemanticCell, styles: seq<Style>, clusters: Text): Cell {
    var style := if cell.style < |styles| then styles[cell.style] else DEFAULT_STYLE;
    match cell.glyph
    case SBlank => Cell(Blank, cell.width, style)
    case SScalar(r) => Cell(Scalar(r), cell.width, style)
    case SCluster(start, length) =>
      Cell(Cluster(if start + length <= |clusters| then clusters[start..start + length] else []), cell.width, style)
    case SContinuation => Cell(Continuation, cell.width, style)
  }

  function ResolveAll(cells: seq<SemanticCell>, styles: seq<Style>, clusters: Text): (out: seq<Cell>)
    ensures |out| == |cells|
    ensures forall i :: 0 <= i < |cells| ==> out[i] == Resolve(cells[i], styles, clusters)
  {
    seq(|cells|, i requires 0 <= i < |cells| => Resolve(cells[i], styles, clusters))
  }

  predicate RunInRange(p: Publication, run: PublishedRun) {
    run.cellStart + run.columns <= |p.cells|
  }

  function RunCells(p: Publication, run: PublishedRun): (out: seq<Cell>)
    ensures RunInRange(p, run) ==> |out| == run.columns
  {
    if RunInRange(p, run)
    then ResolveAll(p.cells[run.cellStart..run.cellStart + run.columns], p.styles, p.clusters)
    else []
  }

  function SemanticRun(p: Publication, run: PublishedRun): Run {
    Run(run.row, run.column, RunCells(p, run))
  }

  function SemanticRuns(p: Publication): (out: seq<Run>)
    ensures |out| == |p.runs|
    ensures forall i :: 0 <= i < |out| ==> out[i] == SemanticRun(p, p.runs[i])
  {
    seq(|p.runs|, i requires 0 <= i < |p.runs| => SemanticRun(p, p.runs[i]))
  }

  /** Runs lie inside the grid and hold whole double-width pairs; a scroll moves
      rows of the grid. */
  ghost predicate WellFormed(p: Publication) {
    && 0 < p.cols <= MAX_GRID && 0 < p.rows <= MAX_GRID
    && (p.scroll.Some? ==> LegalScroll(p.scroll.value, p.rows))
    && (forall i :: 0 <= i < |p.runs| ==>
          p.runs[i].row < p.rows && p.runs[i].column + p.runs[i].columns <= p.cols && ValidRow(RunCells(p, p.runs[i])))
  }

  /** The version checks a confirmer makes before it compiles a publication. */
  datatype Base = Base(hasBase: bool, epoch: nat, version: nat)

  predicate FollowsBase(base: Base, p: Publication) {
    && p.targetVersion != 0
    && match p.kind
       case Keyframe =>
         && p.baseVersion == 0
         && (if !base.hasBase || p.barrier || p.epoch != base.epoch
             then p.targetVersion == 1
             else p.targetVersion == base.version + 1)
       case Delta =>
         && !p.barrier && base.hasBase && p.epoch == base.epoch && p.baseVersion == base.version
         && p.targetVersion == p.baseVersion + 1
  }
}
