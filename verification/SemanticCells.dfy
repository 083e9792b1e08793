/** Publication-local cells: styles are interned in a table, cluster text lives in
    an arena, and a cell means the same however far both have grown. */
module SemanticCells {
  import opened Display
  import opened Publication

  const MAX_CLUSTER_BYTES: nat := 1024
  const MAX_ARENA_BYTES: nat := 0xFFFF_FFFF

  predicate Canonical(style: Style) { CanonicalStyle(style) == style }

  ghost predicate CanonicalCells(cells: seq<Cell>) {
    forall i :: 0 <= i < |cells| ==> Canonical(cells[i].style)
  }

  /** The cell's style and text are inside the tables it indexes. */
  predicate InTables(cell: SemanticCell, styles: seq<Style>, clusters: Text) {
    cell.style < |styles| && (cell.glyph.SCluster? ==> cell.glyph.start + cell.glyph.length <= |clusters|)
  }

  /** The cell is in its tables and means `meaning` there. */
  ghost predicate Denotes(cell: SemanticCell, styles: seq<Style>, clusters: Text, meaning: Cell) {
    InTables(cell, styles, clusters) && Resolve(cell, styles, clusters) == meaning
  }

  ghost predicate DenoteAll(cells: seq<SemanticCell>, styles: seq<Style>, clusters: Text, meaning: seq<Cell>) {
    |cells| == |meaning| && forall i :: 0 <= i < |cells| ==> Denotes(cells[i], styles, clusters, meaning[i])
  }

  /** Tables only grow at their ends. */
  predicate Grown(styles: seq<Style>, clusters: Text, moreStyles: seq<Style>, moreClusters: Text) {
    styles <= moreStyles && clusters <= moreClusters
  }

  lemma {:induction false} GrownDenotes(cell: SemanticCell, styles: seq<Style>, clusters: Text, moreStyles: seq<Style>, moreClusters: Text, meaning: Cell)
    requires Denotes(cell, styles, clusters, meaning) && Grown(styles, clusters, moreStyles, moreClusters)
    ensures Denotes(cell, moreStyles, moreClusters, meaning)
  {
    if cell.glyph.SCluster? {
      var from, to := cell.glyph.start, cell.glyph.start + cell.glyph.length;
      assert moreClusters[..|clusters|] == clusters;
      assert moreClusters[from..to] == clusters[from..to];
    }
  }

  lemma {:induction false} GrownDenoteAll(cells: seq<SemanticCell>, styles: seq<Style>, clusters: Text,
                                          moreStyles: seq<Style>, moreClusters: Text, meaning: seq<Cell>)
    requires DenoteAll(cells, styles, clusters, meaning) && Grown(styles, clusters, moreStyles, moreClusters)
    ensures DenoteAll(cells, moreStyles, moreClusters, meaning)
  {
    forall i | 0 <= i < |cells| ensures Denotes(cells[i], moreStyles, moreClusters, meaning[i]) {
      GrownDenotes(cells[i], styles, clusters, moreStyles, moreClusters, meaning[i]);
    }
  }

  /** Why a cell could not be stored. */
  predicate StylesFull(styles: seq<Style>, style: Style) {
    CanonicalStyle(style) !in styles && |styles| >= MAX_STYLES
  }

  predicate ArenaFull(clusters: Text, text: Text) {
    TextBytes(text) > MAX_CLUSTER_BYTES || TextBytes(clusters) + TextBytes(text) > MAX_ARENA_BYTES
  }

  /** A cell that a table no longer has room for. */
  predicate CannotStore(styles: seq<Style>, clusters: Text, cell: Cell) {
    StylesFull(styles, cell.style) || (cell.glyph.Cluster? && ArenaFull(clusters, cell.glyph.text))
  }

  /** One entry per canonical style; none when the table is full. */
  method InternStyle(styles: seq<Style>, style: Style) returns (id: Option<nat>, out: seq<Style>)
    ensures id.None? <==> StylesFull(styles, style)
    ensures id.None? ==> out == styles
    ensures id.Some? ==> styles <= out && id.value < |out| && out[id.value] == CanonicalStyle(style)
    ensures id.Some? ==> |out| == |styles| + if CanonicalStyle(style) in styles then 0 else 1
  {
    var canonical := CanonicalStyle(style);
    var index := 0;
    while index < |styles|
      invariant 0 <= index <= |styles| && canonical !in styles[..index]
    {
      if styles[index] == canonical {
        return Some(index), styles;
      }
      index := index + 1;
    }
    if |styles| >= MAX_STYLES {
      return None, styles;
    }
    return Some(|styles|), styles + [canonical];
  }

  /** `appendCurrentSemantic`: the terminal's cell, as one more semantic cell. */
  method AppendSemantic(cells: seq<SemanticCell>, styles: seq<Style>, clusters: Text, current: Cell, ghost meaning: seq<Cell>)
    returns (ok: bool, outCells: seq<SemanticCell>, outStyles: seq<Style>, outClusters: Text)
    requires DenoteAll(cells, styles, clusters, meaning) && Canonical(current.style)
    ensures ok ==> DenoteAll(outCells, outStyles, outClusters, meaning + [current])
    ensures ok ==> cells <= outCells && Grown(styles, clusters, outStyles, outClusters)
    ensures !ok ==> StylesFull(styles, current.style) || (current.glyph.Cluster? && ArenaFull(clusters, current.glyph.text))
  {
    hide DenoteAll, TextBytes, Denotes;
    var id;
    outCells, outClusters := cells, clusters;
    id, outStyles := InternStyle(styles, current.style);
    if id.None? {
      return false, outCells, outStyles, outClusters;
    }
    var cell := SemanticCell(SBlank, id.value, current.width);
    if current.glyph.Scalar? {
      cell := cell.(glyph := SScalar(current.glyph.r));
    } else if current.glyph.Continuation? {
      cell := cell.(glyph := SContinuation);
    } else if current.glyph.Cluster? {
      var text := current.glyph.text;
      if TextBytes(text) > MAX_CLUSTER_BYTES || TextBytes(clusters) + TextBytes(text) > MAX_ARENA_BYTES {
        return false, outCells, outStyles, outClusters;
      }
      cell := cell.(glyph := SCluster(|clusters|, |text|));
      outClusters := clusters + text;
    }
    NewCell(cell, outStyles, outClusters, current);
    AppendDenotes(cells, styles, clusters, meaning, cell, outStyles, outClusters, current);
    ok, outCells := true, cells + [cell];
  }

  lemma {:induction false} NewCell(cell: SemanticCell, styles: seq<Style>, clusters: Text, current: Cell)
    requires cell.style < |styles| && styles[cell.style] == current.style && cell.width == current.width
    requires match current.glyph
             case Blank => cell.glyph.SBlank?
             case Scalar(r) => cell.glyph == SScalar(r)
             case Continuation => cell.glyph.SContinuation?
             case Cluster(text) => |text| <= |clusters| && cell.glyph == SCluster(|clusters| - |text|, |text|) && clusters[|clusters| - |text|..] == text
    ensures Denotes(cell, styles, clusters, current)
  {
  }

  lemma {:induction false} AppendDenotes(cells: seq<SemanticCell>, styles: seq<Style>, clusters: Text, meaning: seq<Cell>,
                                         cell: SemanticCell, moreStyles: seq<Style>, moreClusters: Text, current: Cell)
    requires DenoteAll(cells, styles, clusters, meaning) && Grown(styles, clusters, moreStyles, moreClusters)
    requires Denotes(cell, moreStyles, moreClusters, current)
    ensures DenoteAll(cells + [cell], moreStyles, moreClusters, meaning + [current])
  {
    hide Denotes;
    GrownDenoteAll(cells, styles, clusters, moreStyles, moreClusters, meaning);
  }

  /** `translateSemanticCell`: the same cell in other tables. */
  method TranslateCell(styles: seq<Style>, clusters: Text, src: SemanticCell, srcStyles: seq<Style>, srcClusters: Text, ghost meaning: Cell)
    returns (ok: bool, cell: SemanticCell, outStyles: seq<Style>, outClusters: Text)
    requires Denotes(src, srcStyles, srcClusters, meaning) && Canonical(meaning.style)
    ensures ok ==> Denotes(cell, outStyles, outClusters, meaning)
    ensures ok ==> Grown(styles, clusters, outStyles, outClusters)
    ensures !ok ==> StylesFull(styles, meaning.style)
                    || (meaning.glyph.Cluster? && TextBytes(clusters) + TextBytes(meaning.glyph.text) > MAX_ARENA_BYTES)
  {
    hide TextBytes;
    var id;
    cell, outClusters := src, clusters;
    id, outStyles := InternStyle(styles, srcStyles[src.style]);
    if id.None? {
      return false, cell, outStyles, outClusters;
    }
    cell := src.(style := id.value);
    if src.glyph.SCluster? {
      var text := srcClusters[src.glyph.start..src.glyph.start + src.glyph.length];
      if TextBytes(clusters) + TextBytes(text) > MAX_ARENA_BYTES {
        return false, cell, outStyles, outClusters;
      }
      cell := cell.(glyph := SCluster(|clusters|, |text|));
      outClusters := clusters + text;
    }
    NewCell(cell, outStyles, outClusters, meaning);
    ok := true;
  }

  /** `currentEqualsSemantic`: equality of meaning, for a cell inside its tables. */
  predicate CurrentEquals(current: Cell, previous: SemanticCell, styles: seq<Style>, clusters: Text) {
    && current.width == previous.width && SameKind(current.glyph, previous.glyph)
    && previous.style < |styles| && current.style == styles[previous.style]
    && (current.glyph.Scalar? ==> current.glyph.r == previous.glyph.r)
    && (current.glyph.Cluster? ==>
          && previous.glyph.start + previous.glyph.length <= |clusters|
          && clusters[previous.glyph.start..previous.glyph.start + previous.glyph.length] == current.glyph.text)
  }

  predicate SameKind(glyph: Glyph, other: SemanticGlyph) {
    match glyph
    case Blank => other.SBlank?
    case Scalar(_) => other.SScalar?
    case Cluster(_) => other.SCluster?
    case Continuation => other.SContinuation?
  }

  lemma {:induction false} CurrentEqualsMeans(current: Cell, previous: SemanticCell, styles: seq<Style>, clusters: Text)
    ensures CurrentEquals(current, previous, styles, clusters) <==> Denotes(previous, styles, clusters, current)
  {
  }
}
