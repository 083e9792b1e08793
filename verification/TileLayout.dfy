/** Saved layouts: a split tree laid out as integer tiles, and the search that
    finds a split tree again from tiles alone. */
module TileLayout {
  import opened Display

  datatype Axis = Vertical | Horizontal

  /** A plan's layout; ratios are exact. */
  datatype Layout = Pane(id: nat) | Split(axis: Axis, ratio: real, first: Layout, second: Layout)

  datatype Tile = Tile(x: int, y: int, w: int, h: int)

  datatype PlanPane = PlanPane(id: nat, tile: Tile)

  // ----------------------------------------------------------- plan checks

  function Ids(l: Layout): seq<nat> {
    match l
    case Pane(id) => [id]
    case Split(_, _, first, second) => Ids(first) + Ids(second)
  }

  predicate RatiosValid(l: Layout) {
    l.Split? ==> 0.0 < l.ratio < 1.0 && RatiosValid(l.first) && RatiosValid(l.second)
  }

  ghost predicate Distinct(ids: seq<nat>) {
    forall i, j :: 0 <= i < j < |ids| ==> ids[i] != ids[j]
  }

  ghost predicate ValidPlan(l: Layout) {
    RatiosValid(l) && Distinct(Ids(l))
  }

  /** `validatePlanLayout`: the pane ids, or a refusal. */
  method ValidatePlanLayout(l: Layout) returns (ids: Option<seq<nat>>)
    ensures ids.Some? <==> ValidPlan(l)
    ensures ids.Some? ==> ids.value == Ids(l)
  {
    if l.Pane? {
      return Some([l.id]);
    }
    if l.ratio <= 0.0 || l.ratio >= 1.0 {
      return None;
    }
    hide Distinct;
    var first := ValidatePlanLayout(l.first);
    if first.None? {
      PartsDistinct(Ids(l.first), Ids(l.second));
      return None;
    }
    var second := ValidatePlanLayout(l.second);
    if second.None? {
      PartsDistinct(Ids(l.first), Ids(l.second));
      return None;
    }
    var all := first.value + second.value;
    var seen: set<nat> := {};
    var i := 0;
    while i < |all|
      invariant 0 <= i <= |all|
      invariant forall id :: id in seen <==> id in all[..i]
      invariant Distinct(all[..i])
    {
      NextDistinct(all, i);
      if all[i] in seen {
        return None;
      }
      seen := seen + {all[i]};
      i := i + 1;
    }
    assert all[..i] == all;
    return Some(all);
  }

  lemma {:induction false} NextDistinct(all: seq<nat>, i: nat)
    requires i < |all| && Distinct(all[..i])
    ensures all[i] in all[..i] ==> !Distinct(all)
    ensures all[i] !in all[..i] ==> Distinct(all[..i + 1])
    ensures forall id :: id in all[..i + 1] <==> id in all[..i] || id == all[i]
  {
    assert all[..i + 1] == all[..i] + [all[i]];
  }

  lemma {:induction false} PartsDistinct(a: seq<nat>, b: seq<nat>)
    ensures Distinct(a + b) ==> Distinct(a) && Distinct(b)
  {
    if Distinct(a + b) {
      var all := a + b;
      forall i, j | 0 <= i < j < |a| ensures a[i] != a[j] {
        assert all[i] == a[i] && all[j] == a[j];
      }
      forall i, j | 0 <= i < j < |b| ensures b[i] != b[j] {
        assert all[|a| + i] == b[i] && all[|a| + j] == b[j];
      }
    }
  }

  // -------------------------------------------------------- layout to tiles

  function Max(a: int, b: int): int { if a > b then a else b }

  function MinW(l: Layout): (w: int)
    ensures w >= 1
  {
    match l
    case Pane(_) => 1
    case Split(Vertical, _, first, second) => MinW(first) + MinW(second)
    case Split(Horizontal, _, first, second) => Max(MinW(first), MinW(second))
  }

  function MinH(l: Layout): (h: int)
    ensures h >= 1
  {
    match l
    case Pane(_) => 1
    case Split(Vertical, _, first, second) => Max(MinH(first), MinH(second))
    case Split(Horizontal, _, first, second) => MinH(first) + MinH(second)
  }

  predicate Fits(l: Layout, b: Tile) {
    MinW(l) <= b.w && MinH(l) <= b.h
  }

  function Rounded(x: real): int { (x + 0.5).Floor }

  function Scaled(size: int, ratio: real): real { size as real * ratio }

  function SplitPercent(size: int, ratio: real, firstMinimum: int, secondMinimum: int): (value: int)
    ensures firstMinimum + secondMinimum <= size ==> firstMinimum <= value <= size - secondMinimum
  {
    var value := Rounded(Scaled(size, ratio));
    if value < firstMinimum then firstMinimum
    else if value > size - secondMinimum then size - secondMinimum
    else value
  }

  /** How far into its area a split's first child reaches. */
  function CutOf(l: Layout, b: Tile): int
    requires l.Split?
  {
    if l.axis.Horizontal? then SplitPercent(b.h, l.ratio, MinH(l.first), MinH(l.second))
    else SplitPercent(b.w, l.ratio, MinW(l.first), MinW(l.second))
  }

  /** The two parts of an area cut `size` in. */
  function Before(b: Tile, axis: Axis, size: int): Tile {
    if axis.Horizontal? then b.(h := size) else b.(w := size)
  }

  function After(b: Tile, axis: Axis, size: int): Tile {
    if axis.Horizontal? then b.(y := b.y + size, h := b.h - size) else b.(x := b.x + size, w := b.w - size)
  }

  function FirstArea(l: Layout, b: Tile): Tile
    requires l.Split?
  {
    Before(b, l.axis, CutOf(l, b))
  }

  function SecondArea(l: Layout, b: Tile): Tile
    requires l.Split?
  {
    After(b, l.axis, CutOf(l, b))
  }

  /** The panes of a layout and their tiles, first to last. */
  function Placed(l: Layout, b: Tile): (panes: seq<PlanPane>)
    ensures |panes| >= 1 && (l.Split? ==> |panes| >= 2)
  {
    match l
    case Pane(id) => [PlanPane(id, b)]
    case Split(_, _, first, second) => Placed(first, FirstArea(l, b)) + Placed(second, SecondArea(l, b))
  }

  function TileMap(l: Layout, b: Tile): map<nat, Tile> {
    match l
    case Pane(id) => map[id := b]
    case Split(_, _, first, second) => TileMap(first, FirstArea(l, b)) + TileMap(second, SecondArea(l, b))
  }

  /** `layoutTiles`. */
  method LayoutTiles(l: Layout, bounds: Tile) returns (tiles: map<nat, Tile>)
    ensures tiles == TileMap(l, bounds)
  {
    tiles := Walk(l, bounds, map[]);
  }

  method Walk(l: Layout, area: Tile, tiles: map<nat, Tile>) returns (out: map<nat, Tile>)
    ensures out == tiles + TileMap(l, area)
  {
    if l.Pane? {
      return tiles[l.id := area];
    }
    hide SplitPercent, MinW, MinH;
    var first, second := area, area;
    if l.axis.Horizontal? {
      first := first.(h := SplitPercent(area.h, l.ratio, MinH(l.first), MinH(l.second)));
      second := second.(y := second.y + first.h, h := second.h - first.h);
    } else {
      first := first.(w := SplitPercent(area.w, l.ratio, MinW(l.first), MinW(l.second)));
      second := second.(x := second.x + first.w, w := second.w - first.w);
    }
    assert first == FirstArea(l, area) && second == SecondArea(l, area);
    out := Walk(l.first, first, tiles);
    out := Walk(l.second, second, out);
    assert out == tiles + TileMap(l, area);
  }

  // ------------------------------------------------------------ what tiles are

  predicate Positive(t: Tile) { t.w > 0 && t.h > 0 }

  predicate Inside(t: Tile, b: Tile) {
    b.x <= t.x && b.y <= t.y && t.x + t.w <= b.x + b.w && t.y + t.h <= b.y + b.h
  }

  /** `tilesOverlap`. */
  predicate Overlap(a: Tile, b: Tile) {
    a.x < b.x + b.w && b.x < a.x + a.w && a.y < b.y + b.h && b.y < a.y + a.h
  }

  predicate Inhabited(panes: seq<PlanPane>) {
    forall i :: 0 <= i < |panes| ==> Positive(panes[i].tile)
  }

  predicate AllInside(panes: seq<PlanPane>, b: Tile) {
    forall i :: 0 <= i < |panes| ==> Inside(panes[i].tile, b)
  }

  ghost predicate Apart(panes: seq<PlanPane>) {
    forall i, j :: 0 <= i < j < |panes| ==> !Overlap(panes[i].tile, panes[j].tile)
  }

  function Area(panes: seq<PlanPane>): int {
    if panes == [] then 0 else Area(panes[..|panes| - 1]) + panes[|panes| - 1].tile.w * panes[|panes| - 1].tile.h
  }

  lemma {:induction false} AreaAppend(a: seq<PlanPane>, b: seq<PlanPane>)
    ensures Area(a + b) == Area(a) + Area(b)
    decreases |b|
  {
    if b == [] {
      assert a + b == a;
    } else {
      assert (a + b)[..|a + b| - 1] == a + b[..|b| - 1];
      AreaAppend(a, b[..|b| - 1]);
    }
  }

  /** A layout whose minimum fits splits into parts that fit. */
  lemma {:induction false} PartsFit(l: Layout, b: Tile)
    requires l.Split? && Fits(l, b)
    ensures Fits(l.first, FirstArea(l, b)) && Fits(l.second, SecondArea(l, b))
    ensures if l.axis.Horizontal? then 0 < CutOf(l, b) < b.h else 0 < CutOf(l, b) < b.w
  {
  }

  /** Every pane gets a positive tile exactly when the layout's minimum fits. */
  lemma {:induction false} PositiveIffFits(l: Layout, b: Tile)
    ensures Inhabited(Placed(l, b)) <==> Fits(l, b)
  {
    if l.Split? {
      var first, second := Placed(l.first, FirstArea(l, b)), Placed(l.second, SecondArea(l, b));
      PositiveIffFits(l.first, FirstArea(l, b));
      PositiveIffFits(l.second, SecondArea(l, b));
      InhabitedJoin(first, second);
      if Fits(l, b) {
        PartsFit(l, b);
      }
    } else {
      assert Placed(l, b)[0].tile == b;
    }
  }

  lemma {:induction false} InhabitedJoin(a: seq<PlanPane>, b: seq<PlanPane>)
    ensures Inhabited(a + b) <==> Inhabited(a) && Inhabited(b)
  {
    var all := a + b;
    if Inhabited(all) {
      forall i | 0 <= i < |a| ensures Positive(a[i].tile) { assert all[i] == a[i]; }
      forall i | 0 <= i < |b| ensures Positive(b[i].tile) { assert all[|a| + i] == b[i]; }
    }
  }

  /** The tiles of a layout that fits: inside the area, apart, and of its whole area. */
  lemma {:induction false} TilesPartition(l: Layout, b: Tile)
    requires Fits(l, b)
    ensures AllInside(Placed(l, b), b) && Apart(Placed(l, b)) && Area(Placed(l, b)) == b.w * b.h
  {
    if l.Split? {
      PartsFit(l, b);
      TilesPartition(l.first, FirstArea(l, b));
      TilesPartition(l.second, SecondArea(l, b));
      AreaAppend(Placed(l.first, FirstArea(l, b)), Placed(l.second, SecondArea(l, b)));
      CutArea(b, l.axis, CutOf(l, b));
    } else {
      assert Placed(l, b)[..0] == [];
    }
  }

  lemma {:induction false} CutArea(b: Tile, axis: Axis, size: int)
    ensures Before(b, axis, size).w * Before(b, axis, size).h + After(b, axis, size).w * After(b, axis, size).h == b.w * b.h
  {
    if axis.Horizontal? {
      assert b.w * size + b.w * (b.h - size) == b.w * b.h;
    } else {
      assert size * b.h + (b.w - size) * b.h == b.w * b.h;
    }
  }

  // -------------------------------------------------------- tiles to layout

  function Start(t: Tile, axis: Axis): int { if axis.Horizontal? then t.y else t.x }

  function Length(t: Tile, axis: Axis): int { if axis.Horizontal? then t.h else t.w }

  function End(t: Tile, axis: Axis): int { Start(t, axis) + Length(t, axis) }

  /** The layout places exactly these panes in the bounds. */
  ghost predicate Places(l: Layout, panes: multiset<PlanPane>, b: Tile) {
    Fits(l, b) && RatiosValid(l) && multiset(Placed(l, b)) == panes
  }

  predicate Crosses(pane: PlanPane, axis: Axis, cut: int) {
    Start(pane.tile, axis) < cut < End(pane.tile, axis)
  }

  /** The node that cuts an area exactly `size` in. */
  function CutNode(b: Tile, axis: Axis, size: int, first: Layout, second: Layout): Layout
    requires Length(b, axis) != 0
  {
    Split(axis, size as real / Length(b, axis) as real, first, second)
  }

  lemma {:induction false} ExactRatio(a: int, size: int)
    requires 0 < a < size
    ensures 0.0 < a as real / size as real < 1.0
    ensures Rounded(Scaled(size, a as real / size as real)) == a
  {
    assert size as real * (a as real / size as real) == a as real;
  }

  lemma {:induction false} ExactCut(b: Tile, axis: Axis, size: int, first: Layout, second: Layout)
    requires 0 < size < Length(b, axis)
    requires Fits(first, Before(b, axis, size)) && Fits(second, After(b, axis, size))
    ensures CutOf(CutNode(b, axis, size, first, second), b) == size
  {
    hide *;
    var m1, m2 := if axis.Horizontal? then MinH(first) else MinW(first), if axis.Horizontal? then MinH(second) else MinW(second);
    PartMinimums(b, axis, size, first, second, m1, m2);
    ExactPercent(size, Length(b, axis), m1, m2);
    CutOfNode(b, axis, size, first, second, m1, m2);
  }

  lemma {:induction false} ExactPercent(a: int, size: int, firstMinimum: int, secondMinimum: int)
    requires 0 < a < size && firstMinimum <= a <= size - secondMinimum
    ensures SplitPercent(size, a as real / size as real, firstMinimum, secondMinimum) == a
  {
    hide Rounded, Scaled;
    ExactRatio(a, size);
  }

  lemma {:induction false} PartMinimums(b: Tile, axis: Axis, size: int, first: Layout, second: Layout, m1: int, m2: int)
    requires Fits(first, Before(b, axis, size)) && Fits(second, After(b, axis, size))
    requires m1 == (if axis.Horizontal? then MinH(first) else MinW(first)) && m2 == (if axis.Horizontal? then MinH(second) else MinW(second))
    ensures m1 <= size <= Length(b, axis) - m2
  {
  }

  lemma {:induction false} CutOfNode(b: Tile, axis: Axis, size: int, first: Layout, second: Layout, m1: int, m2: int)
    requires Length(b, axis) != 0
    requires m1 == (if axis.Horizontal? then MinH(first) else MinW(first)) && m2 == (if axis.Horizontal? then MinH(second) else MinW(second))
    ensures CutOf(CutNode(b, axis, size, first, second), b) == SplitPercent(Length(b, axis), size as real / Length(b, axis) as real, m1, m2)
  {
    hide SplitPercent, MinW, MinH;
  }

  /** An exact ratio cuts exactly. */
  lemma {:induction false} CutNodePlaces(b: Tile, axis: Axis, size: int, first: Layout, second: Layout, p: multiset<PlanPane>, q: multiset<PlanPane>)
    requires 0 < size < Length(b, axis)
    requires Places(first, p, Before(b, axis, size)) && Places(second, q, After(b, axis, size))
    ensures CutOf(CutNode(b, axis, size, first, second), b) == size
    ensures Places(CutNode(b, axis, size, first, second), p + q, b)
  {
    ExactCut(b, axis, size, first, second);
    ExactRatio(size, Length(b, axis));
    hide Rounded, SplitPercent, CutOf;
  }

  ghost predicate NoneCross(panes: multiset<PlanPane>, axis: Axis, cut: int) {
    forall pane :: pane in panes ==> !Crosses(pane, axis, cut)
  }

  /** The key to a search without backtracking: a cut that crosses no tile of a
      layout divides it into two layouts, wherever the layout's own cuts are. */
  lemma {:induction false} AnyCutWorks(l: Layout, panes: multiset<PlanPane>, b: Tile, axis: Axis, size: int)
    returns (first: Layout, second: Layout, p: multiset<PlanPane>, q: multiset<PlanPane>)
    requires Places(l, panes, b) && 0 < size < Length(b, axis)
    requires NoneCross(panes, axis, Start(b, axis) + size)
    ensures Places(first, p, Before(b, axis, size)) && Places(second, q, After(b, axis, size)) && p + q == panes
    decreases l, 1
  {
    hide *;
    if l.Pane? {
      OnlyPane(l, panes, b, axis, size);
    } else {
      var at := CutOf(l, b);
      var fp, sp := SplitPlaces(l, panes, b, axis, Start(b, axis) + size);
      if l.axis == axis && size == at {
        first, second, p, q := l.first, l.second, fp, sp;
      } else if l.axis == axis && size < at {
        first, second, p, q := CutFirst(l, b, axis, size, at, fp, sp);
      } else if l.axis == axis {
        first, second, p, q := CutSecond(l, b, axis, size, at, fp, sp);
      } else {
        first, second, p, q := CutBoth(l, b, axis, size, at, fp, sp);
      }
    }
  }

  /** The cut falls in the first part. */
  lemma {:induction false} CutFirst(l: Layout, b: Tile, axis: Axis, size: int, at: int, fp: multiset<PlanPane>, sp: multiset<PlanPane>)
    returns (first: Layout, second: Layout, p: multiset<PlanPane>, q: multiset<PlanPane>)
    requires l.Split? && l.axis == axis && 0 < size < at < Length(b, axis)
    requires Places(l.first, fp, Before(b, axis, at)) && Places(l.second, sp, After(b, axis, at))
    requires NoneCross(fp, axis, Start(b, axis) + size)
    ensures Places(first, p, Before(b, axis, size)) && Places(second, q, After(b, axis, size)) && p + q == fp + sp
    decreases l, 0
  {
    hide *;
    AlongAreas(b, axis, at, size);
    var far := After(b, axis, size);
    var rest, r;
    first, rest, p, r := AnyCutWorks(l.first, fp, Before(b, axis, at), axis, size);
    CutNodePlaces(far, axis, at - size, rest, l.second, r, sp);
    second, q := CutNode(far, axis, at - size, rest, l.second), r + sp;
  }

  /** The cut falls in the second part. */
  lemma {:induction false} CutSecond(l: Layout, b: Tile, axis: Axis, size: int, at: int, fp: multiset<PlanPane>, sp: multiset<PlanPane>)
    returns (first: Layout, second: Layout, p: multiset<PlanPane>, q: multiset<PlanPane>)
    requires l.Split? && l.axis == axis && 0 < at < size < Length(b, axis)
    requires Places(l.first, fp, Before(b, axis, at)) && Places(l.second, sp, After(b, axis, at))
    requires NoneCross(sp, axis, Start(b, axis) + size)
    ensures Places(first, p, Before(b, axis, size)) && Places(second, q, After(b, axis, size)) && p + q == fp + sp
    decreases l, 0
  {
    hide *;
    AlongAreas(b, axis, at, size);
    var near := Before(b, axis, size);
    var rest, r;
    rest, second, r, q := AnyCutWorks(l.second, sp, After(b, axis, at), axis, size - at);
    CutNodePlaces(near, axis, at, l.first, rest, fp, r);
    first, p := CutNode(near, axis, at, l.first, rest), fp + r;
  }

  /** The cut runs across both parts. */
  lemma {:induction false} CutBoth(l: Layout, b: Tile, axis: Axis, size: int, at: int, fp: multiset<PlanPane>, sp: multiset<PlanPane>)
    returns (first: Layout, second: Layout, p: multiset<PlanPane>, q: multiset<PlanPane>)
    requires l.Split? && l.axis != axis && 0 < at < Length(b, l.axis) && 0 < size < Length(b, axis)
    requires Places(l.first, fp, Before(b, l.axis, at)) && Places(l.second, sp, After(b, l.axis, at))
    requires NoneCross(fp, axis, Start(b, axis) + size) && NoneCross(sp, axis, Start(b, axis) + size)
    ensures Places(first, p, Before(b, axis, size)) && Places(second, q, After(b, axis, size)) && p + q == fp + sp
    decreases l, 0
  {
    hide *;
    AcrossAreas(b, l.axis, at, axis, size);
    var near, far := Before(b, axis, size), After(b, axis, size);
    var f1, s1, p1, q1 := AnyCutWorks(l.first, fp, Before(b, l.axis, at), axis, size);
    var f2, s2, p2, q2 := AnyCutWorks(l.second, sp, After(b, l.axis, at), axis, size);
    CutNodePlaces(near, l.axis, at, f1, f2, p1, p2);
    CutNodePlaces(far, l.axis, at, s1, s2, q1, q2);
    first, p := CutNode(near, l.axis, at, f1, f2), p1 + p2;
    second, q := CutNode(far, l.axis, at, s1, s2), q1 + q2;
  }

  /** Two cuts of one area along one axis. */
  lemma {:induction false} AlongAreas(b: Tile, axis: Axis, at: int, size: int)
    ensures var fb, sb, near, far := Before(b, axis, at), After(b, axis, at), Before(b, axis, size), After(b, axis, size);
            && Length(fb, axis) == at && Start(fb, axis) == Start(b, axis)
            && Length(sb, axis) == Length(b, axis) - at && Start(sb, axis) == Start(b, axis) + at
            && Length(far, axis) == Length(b, axis) - size && Length(near, axis) == size
            && Before(fb, axis, size) == near && After(fb, axis, size) == Before(far, axis, at - size)
            && After(far, axis, at - size) == sb
            && After(sb, axis, size - at) == far && Before(sb, axis, size - at) == After(near, axis, at)
            && Before(near, axis, at) == fb
  {
  }

  /** Two cuts of one area along both axes. */
  lemma {:induction false} AcrossAreas(b: Tile, axis: Axis, at: int, other: Axis, size: int)
    requires axis != other
    ensures var fb, sb, near, far := Before(b, axis, at), After(b, axis, at), Before(b, other, size), After(b, other, size);
            && Length(fb, other) == Length(sb, other) == Length(b, other)
            && Start(fb, other) == Start(sb, other) == Start(b, other)
            && Length(near, axis) == Length(far, axis) == Length(b, axis)
            && Before(fb, other, size) == Before(near, axis, at) && After(fb, other, size) == Before(far, axis, at)
            && Before(sb, other, size) == After(near, axis, at) && After(sb, other, size) == After(far, axis, at)
  {
  }

  lemma {:induction false} OnlyPane(l: Layout, panes: multiset<PlanPane>, b: Tile, axis: Axis, size: int)
    requires l.Pane? && Places(l, panes, b) && NoneCross(panes, axis, Start(b, axis) + size)
    ensures !(0 < size < Length(b, axis))
  {
    assert Placed(l, b)[0] in panes;
  }

  /** The parts of a placed split. */
  lemma {:induction false} SplitPlaces(l: Layout, panes: multiset<PlanPane>, b: Tile, axis: Axis, cut: int)
    returns (p: multiset<PlanPane>, q: multiset<PlanPane>)
    requires l.Split? && Places(l, panes, b) && NoneCross(panes, axis, cut)
    ensures p + q == panes && NoneCross(p, axis, cut) && NoneCross(q, axis, cut)
    ensures 0 < CutOf(l, b) < Length(b, l.axis)
    ensures Places(l.first, p, Before(b, l.axis, CutOf(l, b))) && Places(l.second, q, After(b, l.axis, CutOf(l, b)))
  {
    hide CutOf, MinW, MinH, Crosses;
    PartsFit(l, b);
    p, q := multiset(Placed(l.first, FirstArea(l, b))), multiset(Placed(l.second, SecondArea(l, b)));
  }

  // --------------------------------------------------------------- the search

  /** Every cut of the layout is an exact ratio of its area. */
  predicate ExactCuts(l: Layout, b: Tile) {
    l.Split? ==>
      && 0 < CutOf(l, b) < Length(b, l.axis) && l.ratio == CutOf(l, b) as real / Length(b, l.axis) as real
      && ExactCuts(l.first, FirstArea(l, b)) && ExactCuts(l.second, SecondArea(l, b))
  }

  /** The layouts that place the panes and whose root cuts there. */
  ghost predicate RootCuts(l: Layout, panes: multiset<PlanPane>, b: Tile, axis: Axis, cut: int) {
    l.Split? && l.axis == axis && Start(b, axis) + CutOf(l, b) == cut && Places(l, panes, b)
  }

  /** A layout reaches the far edge of its area. */
  lemma {:induction false} ReachesEnd(l: Layout, b: Tile, axis: Axis) returns (pane: PlanPane)
    ensures pane in Placed(l, b) && End(pane.tile, axis) == End(b, axis)
  {
    if l.Pane? {
      pane := Placed(l, b)[0];
    } else if l.axis == axis {
      pane := ReachesEnd(l.second, SecondArea(l, b), axis);
    } else {
      pane := ReachesEnd(l.first, FirstArea(l, b), axis);
    }
  }

  lemma {:induction false} PartInside(l: Layout, b: Tile, pane: PlanPane)
    requires Fits(l, b) && pane in Placed(l, b)
    ensures Inside(pane.tile, b) && Positive(pane.tile)
  {
    TilesPartition(l, b);
    PositiveIffFits(l, b);
  }

  /** A layout's own cut divides its panes as the search does. */
  lemma {:induction false} OwnCut(l: Layout, panes: multiset<PlanPane>, b: Tile, axis: Axis, cut: int, pane: PlanPane)
    requires RootCuts(l, panes, b, axis, cut) && pane in panes
    ensures 0 < CutOf(l, b) < Length(b, axis)
    ensures pane in Placed(l.first, FirstArea(l, b)) ==> End(pane.tile, axis) <= cut && Start(pane.tile, axis) < cut
    ensures pane in Placed(l.second, SecondArea(l, b)) ==> Start(pane.tile, axis) >= cut && End(pane.tile, axis) > cut
    ensures !Crosses(pane, axis, cut)
  {
    PartsFit(l, b);
    assert pane in Placed(l, b);
    if pane in Placed(l.first, FirstArea(l, b)) {
      PartInside(l.first, FirstArea(l, b), pane);
    }
    if pane in Placed(l.second, SecondArea(l, b)) {
      PartInside(l.second, SecondArea(l, b), pane);
    }
  }

  /** So the panes before and after the cut are what its children place. */
  lemma {:induction false} PartsPlaced(l: Layout, b: Tile, axis: Axis, cut: int, first: seq<PlanPane>, second: seq<PlanPane>)
    requires RootCuts(l, multiset(first) + multiset(second), b, axis, cut)
    requires forall pane :: pane in first ==> End(pane.tile, axis) <= cut
    requires forall pane :: pane in second ==> Start(pane.tile, axis) >= cut
    ensures Places(l.first, multiset(first), Before(b, axis, cut - Start(b, axis)))
    ensures Places(l.second, multiset(second), After(b, axis, cut - Start(b, axis)))
    ensures first != [] && second != []
  {
    PartsFit(l, b);
    var f, s := Placed(l.first, FirstArea(l, b)), Placed(l.second, SecondArea(l, b));
    var all := multiset(first) + multiset(second);
    assert all == multiset(f) + multiset(s);
    forall pane: PlanPane ensures multiset(f)[pane] == multiset(first)[pane] && multiset(s)[pane] == multiset(second)[pane] {
      if pane in all {
        OwnCut(l, all, b, axis, cut, pane);
      }
    }
    assert multiset(f) == multiset(first) && multiset(s) == multiset(second);
    assert f[0] in multiset(first) && s[0] in multiset(second);
  }

  ghost predicate Ascending(values: seq<int>) {
    forall i, j :: 0 <= i < j < |values| ==> values[i] <= values[j]
  }

  lemma {:induction false} InsertedAt(sorted: seq<int>, at: nat, value: int)
    requires Ascending(sorted) && at <= |sorted|
    requires at > 0 ==> sorted[at - 1] <= value
    requires forall i :: at <= i < |sorted| ==> sorted[i] > value
    ensures var out := sorted[..at] + [value] + sorted[at..];
            Ascending(out) && multiset(out) == multiset(sorted) + multiset{value}
  {
    hide Ascending;
    var left, right := sorted[..at], sorted[at..];
    PartsAscending(sorted, at);
    assert sorted == left + right;
    assert forall i :: 0 <= i < |left| ==> left[i] <= value;
    assert forall i :: 0 <= i < |right| ==> right[i] >= value;
    JoinAscending(left, value, right);
    InsertOne(left, value, right);
  }

  lemma {:induction false} InsertOne<T>(left: seq<T>, value: T, right: seq<T>)
    ensures multiset(left + [value] + right) == multiset(left + right) + multiset{value}
  {
  }

  lemma {:induction false} PartsAscending(sorted: seq<int>, at: nat)
    requires Ascending(sorted) && at <= |sorted|
    ensures Ascending(sorted[..at]) && Ascending(sorted[at..])
    ensures at > 0 ==> forall i :: 0 <= i < at ==> sorted[..at][i] <= sorted[at - 1]
  {
  }

  lemma {:induction false} JoinAscending(left: seq<int>, value: int, right: seq<int>)
    requires Ascending(left) && Ascending(right)
    requires forall i :: 0 <= i < |left| ==> left[i] <= value
    requires forall i :: 0 <= i < |right| ==> right[i] >= value
    ensures Ascending(left + [value] + right)
  {
  }

  lemma {:induction false} NoneToSort()
    ensures Ascending([])
  {
  }

  method SortInts(values: seq<int>) returns (sorted: seq<int>)
    ensures multiset(sorted) == multiset(values) && Ascending(sorted)
  {
    hide Ascending;
    sorted := [];
    assert Ascending(sorted) by { NoneToSort(); }
    var k := 0;
    while k < |values|
      invariant 0 <= k <= |values| && multiset(sorted) == multiset(values[..k]) && Ascending(sorted)
    {
      var at := |sorted|;
      while at > 0 && sorted[at - 1] > values[k]
        invariant 0 <= at <= |sorted|
        invariant forall i :: at <= i < |sorted| ==> sorted[i] > values[k]
      {
        at := at - 1;
      }
      InsertedAt(sorted, at, values[k]);
      assert values[..k + 1] == values[..k] + [values[k]];
      sorted := sorted[..at] + [values[k]] + sorted[at..];
      k := k + 1;
    }
    assert values[..k] == values;
  }

  /** Panes wholly before and wholly after a cut; not valid when one crosses it. */
  method Divide(panes: seq<PlanPane>, axis: Axis, cut: int) returns (valid: bool, first: seq<PlanPane>, second: seq<PlanPane>)
    ensures valid <==> forall i :: 0 <= i < |panes| ==> End(panes[i].tile, axis) <= cut || Start(panes[i].tile, axis) >= cut
    ensures valid ==> multiset(first) + multiset(second) == multiset(panes) && |first| + |second| == |panes|
    ensures forall pane :: pane in first ==> pane in panes && End(pane.tile, axis) <= cut
    ensures forall pane :: pane in second ==> pane in panes && Start(pane.tile, axis) >= cut
  {
    first, second := [], [];
    var i := 0;
    while i < |panes|
      invariant 0 <= i <= |panes| && |first| + |second| == i
      invariant multiset(first) + multiset(second) == multiset(panes[..i])
      invariant forall pane :: pane in first ==> pane in panes && End(pane.tile, axis) <= cut
      invariant forall pane :: pane in second ==> pane in panes && Start(pane.tile, axis) >= cut
      invariant forall k :: 0 <= k < i ==> End(panes[k].tile, axis) <= cut || Start(panes[k].tile, axis) >= cut
    {
      assert panes[..i + 1] == panes[..i] + [panes[i]];
      if End(panes[i].tile, axis) <= cut {
        first := first + [panes[i]];
      } else if Start(panes[i].tile, axis) >= cut {
        second := second + [panes[i]];
      } else {
        return false, first, second;
      }
      i := i + 1;
    }
    assert panes[..i] == panes;
    valid := true;
  }

  /** One axis of the search: every edge in ascending order is tried as a cut. */
  method SearchAxis(panes: seq<PlanPane>, b: Tile, axis: Axis) returns (layout: Option<Layout>)
    requires |panes| > 1 && Positive(b) && Inhabited(panes)
    ensures layout.Some? ==> Places(layout.value, multiset(panes), b) && ExactCuts(layout.value, b)
    ensures layout.None? ==> forall l: Layout :: l.Split? && l.axis == axis ==> !Places(l, multiset(panes), b)
    decreases |panes|, 1
  {
    var edges: seq<int> := [];
    var i := 0;
    while i < |panes|
      invariant 0 <= i <= |panes|
      invariant forall k :: 0 <= k < i ==> End(panes[k].tile, axis) in edges
    {
      edges := edges + [Start(panes[i].tile, axis), End(panes[i].tile, axis)];
      i := i + 1;
    }
    var cuts := SortInts(edges);
    assert forall cut :: cut in edges ==> cut in multiset(cuts);
    hide *;
    i := 0;
    while i < |cuts|
      invariant 0 <= i <= |cuts|
      invariant forall k, l :: 0 <= k < i ==> !RootCuts(l, multiset(panes), b, axis, cuts[k])
    {
      layout := TryCut(panes, b, axis, cuts[i]);
      if layout.Some? {
        return;
      }
      i := i + 1;
    }
    layout := None;
    forall l: Layout | l.Split? && l.axis == axis ensures !Places(l, multiset(panes), b) {
      OwnCutIsEdge(l, panes, b, axis, cuts);
    }
  }

  lemma {:induction false} OwnCutIsEdge(l: Layout, panes: seq<PlanPane>, b: Tile, axis: Axis, cuts: seq<int>)
    requires l.Split? && l.axis == axis
    requires forall k :: 0 <= k < |panes| ==> End(panes[k].tile, axis) in multiset(cuts)
    requires forall k :: 0 <= k < |cuts| ==> !RootCuts(l, multiset(panes), b, axis, cuts[k])
    ensures !Places(l, multiset(panes), b)
  {
    if Places(l, multiset(panes), b) {
      var pane := ReachesEnd(l.first, FirstArea(l, b), axis);
      assert pane in Placed(l, b);
      assert pane in multiset(panes);
      var k :| 0 <= k < |cuts| && cuts[k] == End(pane.tile, axis);
      assert RootCuts(l, multiset(panes), b, axis, cuts[k]);
    }
  }

  /** One cut: it has to lie inside, cross nothing, and leave two layouts. */
  method TryCut(panes: seq<PlanPane>, b: Tile, axis: Axis, cut: int) returns (layout: Option<Layout>)
    requires |panes| > 1 && Positive(b) && Inhabited(panes)
    ensures layout.Some? ==> Places(layout.value, multiset(panes), b) && ExactCuts(layout.value, b)
    ensures layout.None? ==> forall l :: !RootCuts(l, multiset(panes), b, axis, cut)
    decreases |panes|, 0
  {
    layout := None;
    if cut <= Start(b, axis) || cut >= End(b, axis) {
      OutsideCut(multiset(panes), b, axis, cut);
      return;
    }
    var valid, first, second := Divide(panes, axis, cut);
    if !valid || |first| == 0 || |second| == 0 {
      UnusableCut(panes, b, axis, cut, valid, first, second);
      return;
    }
    var size := cut - Start(b, axis);
    var firstBounds, secondBounds := Before(b, axis, size), After(b, axis, size);
    BoundsPositive(b, axis, size);
    SomeInhabited(panes, first);
    SomeInhabited(panes, second);
    UsableCut(panes, b, axis, cut, first, second);
    hide *;
    var left := SplitTileLayout(first, firstBounds);
    var right := SplitTileLayout(second, secondBounds);
    if left.Some? && right.Some? {
      var node := CutNode(b, axis, size, left.value, right.value);
      CutNodePlaces(b, axis, size, left.value, right.value, multiset(first), multiset(second));
      NodeExact(b, axis, size, left.value, right.value);
      return Some(node);
    }
  }

  lemma {:induction false} OutsideCut(panes: multiset<PlanPane>, b: Tile, axis: Axis, cut: int)
    requires cut <= Start(b, axis) || cut >= End(b, axis)
    ensures forall l :: !RootCuts(l, panes, b, axis, cut)
  {
    forall l | RootCuts(l, panes, b, axis, cut) ensures false {
      PartsFit(l, b);
    }
  }

  lemma {:induction false} UnusableCut(panes: seq<PlanPane>, b: Tile, axis: Axis, cut: int, valid: bool, first: seq<PlanPane>, second: seq<PlanPane>)
    requires valid <==> forall i :: 0 <= i < |panes| ==> End(panes[i].tile, axis) <= cut || Start(panes[i].tile, axis) >= cut
    requires valid ==> multiset(first) + multiset(second) == multiset(panes)
    requires forall pane :: pane in first ==> End(pane.tile, axis) <= cut
    requires forall pane :: pane in second ==> Start(pane.tile, axis) >= cut
    requires !valid || first == [] || second == []
    ensures forall l :: !RootCuts(l, multiset(panes), b, axis, cut)
  {
    forall l | RootCuts(l, multiset(panes), b, axis, cut) ensures false {
      if valid {
        PartsPlaced(l, b, axis, cut, first, second);
      } else {
        var i :| 0 <= i < |panes| && End(panes[i].tile, axis) > cut && Start(panes[i].tile, axis) < cut;
        OwnCut(l, multiset(panes), b, axis, cut, panes[i]);
      }
    }
  }

  lemma {:induction false} UsableCut(panes: seq<PlanPane>, b: Tile, axis: Axis, cut: int, first: seq<PlanPane>, second: seq<PlanPane>)
    requires multiset(first) + multiset(second) == multiset(panes)
    requires forall pane :: pane in first ==> End(pane.tile, axis) <= cut
    requires forall pane :: pane in second ==> Start(pane.tile, axis) >= cut
    ensures forall l :: RootCuts(l, multiset(panes), b, axis, cut) ==>
              && Places(l.first, multiset(first), Before(b, axis, cut - Start(b, axis)))
              && Places(l.second, multiset(second), After(b, axis, cut - Start(b, axis)))
    ensures forall l :: RootCuts(l, multiset(panes), b, axis, cut) ==> l.Split?
  {
    forall l | RootCuts(l, multiset(panes), b, axis, cut)
      ensures Places(l.first, multiset(first), Before(b, axis, cut - Start(b, axis)))
      ensures Places(l.second, multiset(second), After(b, axis, cut - Start(b, axis)))
    {
      PartsPlaced(l, b, axis, cut, first, second);
    }
  }

  /** The search never has to undo a cut: when the panes have any layout at all,
      both sides of every usable cut have one. */
  lemma {:induction false} NoBacktracking(l: Layout, panes: seq<PlanPane>, b: Tile, axis: Axis, cut: int, first: seq<PlanPane>, second: seq<PlanPane>)
    returns (f: Layout, s: Layout)
    requires Places(l, multiset(panes), b) && Start(b, axis) < cut < End(b, axis)
    requires multiset(first) + multiset(second) == multiset(panes)
    requires forall pane :: pane in first ==> End(pane.tile, axis) <= cut
    requires forall pane :: pane in second ==> Start(pane.tile, axis) >= cut
    ensures Places(f, multiset(first), Before(b, axis, cut - Start(b, axis)))
    ensures Places(s, multiset(second), After(b, axis, cut - Start(b, axis)))
  {
    hide Places, CutOf, Placed, ExactCuts;
    forall pane | pane in multiset(panes) ensures !Crosses(pane, axis, cut) {
      assert pane in multiset(first) || pane in multiset(second);
    }
    var p, q;
    f, s, p, q := AnyCutWorks(l, multiset(panes), b, axis, cut - Start(b, axis));
    CutNodePlaces(b, axis, cut - Start(b, axis), f, s, p, q);
    PartsPlaced(CutNode(b, axis, cut - Start(b, axis), f, s), b, axis, cut, first, second);
  }

  lemma {:induction false} BoundsPositive(b: Tile, axis: Axis, size: int)
    requires Positive(b) && 0 < size < Length(b, axis)
    ensures Positive(Before(b, axis, size)) && Positive(After(b, axis, size))
  {
  }

  lemma {:induction false} SomeInhabited(panes: seq<PlanPane>, some: seq<PlanPane>)
    requires Inhabited(panes) && forall pane :: pane in some ==> pane in panes
    ensures Inhabited(some)
  {
    forall i | 0 <= i < |some| ensures Positive(some[i].tile) {
      assert some[i] in panes;
    }
  }

  lemma {:induction false} NodeExact(b: Tile, axis: Axis, size: int, first: Layout, second: Layout)
    requires 0 < size < Length(b, axis)
    requires ExactCuts(first, Before(b, axis, size)) && ExactCuts(second, After(b, axis, size))
    requires CutOf(CutNode(b, axis, size, first, second), b) == size
    ensures ExactCuts(CutNode(b, axis, size, first, second), b)
  {
    hide CutOf;
  }

  /** `splitTileLayout`: finds a layout that places the panes, or there is none. */
  method SplitTileLayout(panes: seq<PlanPane>, b: Tile) returns (layout: Option<Layout>)
    requires |panes| > 0 && Positive(b) && Inhabited(panes)
    ensures layout.Some? ==> Places(layout.value, multiset(panes), b) && ExactCuts(layout.value, b)
    ensures layout.None? ==> forall l :: !Places(l, multiset(panes), b)
    decreases |panes|, 2
  {
    if |panes| == 1 {
      OnePane(panes, b);
      return if panes[0].tile != b then None else Some(Pane(panes[0].id));
    }
    layout := SearchAxis(panes, b, Vertical);
    if layout.None? {
      layout := SearchAxis(panes, b, Horizontal);
    }
    NotOnePane(panes, b);
  }

  lemma {:induction false} OnePane(panes: seq<PlanPane>, b: Tile)
    requires |panes| == 1 && Positive(b)
    ensures panes[0].tile == b ==> Places(Pane(panes[0].id), multiset(panes), b)
    ensures panes[0].tile != b ==> forall l :: !Places(l, multiset(panes), b)
  {
    assert panes == [panes[0]];
    forall l | Places(l, multiset(panes), b) ensures panes[0].tile == b {
      assert |multiset(Placed(l, b))| == 1;
      assert Placed(l, b)[0] in multiset(panes);
    }
  }

  lemma {:induction false} NotOnePane(panes: seq<PlanPane>, b: Tile)
    requires |panes| > 1
    ensures forall l :: Places(l, multiset(panes), b) ==> l.Split?
  {
    forall l | Places(l, multiset(panes), b) ensures l.Split? {
      assert |multiset(Placed(l, b))| == |multiset(panes)|;
    }
  }

  // --------------------------------------------- the checks before the search

  /** Distinct panes of a collection do not overlap, and none occurs twice. */
  ghost predicate AllApart(panes: multiset<PlanPane>) {
    forall p, q :: p in panes && q in panes && (p != q || panes[p] > 1) ==> !Overlap(p.tile, q.tile)
  }

  lemma {:induction false} TwoPlaces(panes: seq<PlanPane>, p: PlanPane) returns (i: nat, j: nat)
    requires multiset(panes)[p] > 1
    ensures i < j < |panes| && panes[i] == p && panes[j] == p
    decreases |panes|
  {
    var init, last := panes[..|panes| - 1], panes[|panes| - 1];
    assert panes == init + [last];
    if last == p {
      assert p in multiset(init);
      i :| 0 <= i < |init| && init[i] == p;
      j := |panes| - 1;
    } else {
      assert multiset(init)[p] > 1;
      i, j := TwoPlaces(init, p);
    }
  }

  lemma {:induction false} ApartByIndex(panes: seq<PlanPane>)
    ensures Apart(panes) <==> AllApart(multiset(panes))
  {
    if Apart(panes) {
      forall p, q | p in multiset(panes) && q in multiset(panes) && (p != q || multiset(panes)[p] > 1) ensures !Overlap(p.tile, q.tile) {
        if p == q {
          var i, j := TwoPlaces(panes, p);
        } else {
          var i :| 0 <= i < |panes| && panes[i] == p;
          var j :| 0 <= j < |panes| && panes[j] == q;
        }
      }
    }
    if AllApart(multiset(panes)) {
      forall i, j | 0 <= i < j < |panes| ensures !Overlap(panes[i].tile, panes[j].tile) {
        assert panes[i] in multiset(panes) && panes[j] in multiset(panes);
        if panes[i] == panes[j] {
          assert panes == panes[..i] + [panes[i]] + panes[i + 1..];
          assert panes[i + 1..][j - i - 1] == panes[j];
          assert panes[j] in multiset(panes[i + 1..]);
        }
      }
    }
  }

  /** Taking one element out of two orders of a collection. */
  lemma {:induction false} TakeOut<T>(a: seq<T>, b: seq<T>) returns (left: seq<T>, right: seq<T>)
    requires multiset(a) == multiset(b) && a != []
    ensures b == left + [a[|a| - 1]] + right && multiset(left + right) == multiset(a[..|a| - 1])
  {
    var init, last := a[..|a| - 1], a[|a| - 1];
    assert a == init + [last];
    assert last in multiset(b);
    var i :| 0 <= i < |b| && b[i] == last;
    left, right := b[..i], b[i + 1..];
    assert b == left + [last] + right;
    assert multiset(left + right) == multiset(left) + multiset(right);
    Cancel(multiset(init), multiset(left) + multiset(right), last);
  }

  lemma {:induction false} Cancel<T>(m: multiset<T>, n: multiset<T>, x: T)
    requires m + multiset{x} == n + multiset{x}
    ensures m == n
  {
    forall y: T ensures m[y] == n[y] {
      assert (m + multiset{x})[y] == (n + multiset{x})[y];
    }
  }

  lemma {:induction false} AreaPermuted(a: seq<PlanPane>, b: seq<PlanPane>)
    requires multiset(a) == multiset(b)
    ensures Area(a) == Area(b)
    decreases |a|
  {
    if a == [] {
      assert |multiset(b)| == 0;
    } else {
      var init, last := a[..|a| - 1], a[|a| - 1];
      var left, right := TakeOut(a, b);
      AreaPermuted(init, left + right);
      AreaAppend(left, [last]);
      AreaAppend(left + [last], right);
      AreaAppend(left, right);
      assert [last][..0] == [];
      assert Area([last]) == last.tile.w * last.tile.h;
    }
  }

  /** Only collections of disjoint tiles of the whole area can be placed. */
  lemma {:induction false} PlacedChecks(l: Layout, panes: seq<PlanPane>, b: Tile)
    requires Places(l, multiset(panes), b)
    ensures Apart(panes) && Area(panes) == b.w * b.h && panes != []
  {
    TilesPartition(l, b);
    ApartByIndex(panes);
    ApartByIndex(Placed(l, b));
    AreaPermuted(panes, Placed(l, b));
    assert Placed(l, b)[0] in multiset(panes);
  }

  /** `layoutFromTiles`: succeeds exactly when some layout has these tiles, in
      whatever order the panes come, and then finds such a layout. */
  method LayoutFromTiles(panes: seq<PlanPane>, b: Tile) returns (layout: Option<Layout>)
    requires Positive(b) && Inhabited(panes)
    ensures layout.Some? <==> exists l :: Places(l, multiset(panes), b)
    ensures layout.Some? ==> Places(layout.value, multiset(panes), b) && ExactCuts(layout.value, b)
  {
    if |panes| == 0 {
      NoLayout(panes, b);
      return None;
    }
    var area := 0;
    var i := 0;
    while i < |panes|
      invariant 0 <= i <= |panes| && area == Area(panes[..i])
    {
      assert panes[..i + 1][..i] == panes[..i];
      area := area + panes[i].tile.w * panes[i].tile.h;
      var j := i + 1;
      while j < |panes|
        invariant i < j <= |panes|
      {
        if Overlap(panes[i].tile, panes[j].tile) {
          NoLayout(panes, b);
          return None;
        }
        j := j + 1;
      }
      i := i + 1;
    }
    assert panes[..i] == panes;
    if area != b.w * b.h {
      NoLayout(panes, b);
      return None;
    }
    layout := SplitTileLayout(panes, b);
  }

  lemma {:induction false} NoLayout(panes: seq<PlanPane>, b: Tile)
    requires panes == [] || !Apart(panes) || Area(panes) != b.w * b.h
    ensures forall l :: !Places(l, multiset(panes), b)
  {
    forall l | Places(l, multiset(panes), b) ensures false {
      PlacedChecks(l, panes, b);
    }
  }

  // --------------------------------------------------------------- round trip

  lemma {:induction false} TileMapMembers(l: Layout, b: Tile, id: nat, tile: Tile)
    requires Distinct(Ids(l))
    ensures id in TileMap(l, b) && TileMap(l, b)[id] == tile <==> PlanPane(id, tile) in Placed(l, b)
    ensures id in TileMap(l, b) ==> id in Ids(l)
  {
    if l.Split? {
      PartsDistinct(Ids(l.first), Ids(l.second));
      TileMapMembers(l.first, FirstArea(l, b), id, tile);
      TileMapMembers(l.second, SecondArea(l, b), id, tile);
      DistinctApart(Ids(l.first), Ids(l.second), id);
      PlacedIds(l.first, FirstArea(l, b), PlanPane(id, tile));
      PlacedIds(l.second, SecondArea(l, b), PlanPane(id, tile));
    }
  }

  lemma {:induction false} PlacedIds(l: Layout, b: Tile, pane: PlanPane)
    ensures pane in Placed(l, b) ==> pane.id in Ids(l)
  {
    if l.Split? {
      PlacedIds(l.first, FirstArea(l, b), pane);
      PlacedIds(l.second, SecondArea(l, b), pane);
    }
  }

  lemma {:induction false} SharedId(a: seq<nat>, b: seq<nat>, id: nat)
    requires id in a && id in b
    ensures !Distinct(a + b)
  {
    var i :| 0 <= i < |a| && a[i] == id;
    var j :| 0 <= j < |b| && b[j] == id;
    var all := a + b;
    assert all[i] == all[|a| + j];
  }

  lemma {:induction false} DistinctApart(a: seq<nat>, b: seq<nat>, id: nat)
    requires Distinct(a + b)
    ensures !(id in a && id in b)
  {
    if id in a && id in b {
      SharedId(a, b, id);
    }
  }

  /** Layouts that place the same panes give every pane the same tile. */
  lemma {:induction false} SameTiles(l: Layout, m: Layout, b: Tile)
    requires Distinct(Ids(l)) && Distinct(Ids(m)) && multiset(Placed(l, b)) == multiset(Placed(m, b))
    ensures TileMap(l, b) == TileMap(m, b)
  {
    forall id | id in TileMap(l, b) || id in TileMap(m, b)
      ensures id in TileMap(l, b) && id in TileMap(m, b) && TileMap(l, b)[id] == TileMap(m, b)[id]
    {
      var tile := if id in TileMap(l, b) then TileMap(l, b)[id] else TileMap(m, b)[id];
      TileMapMembers(l, b, id, tile);
      TileMapMembers(m, b, id, tile);
      assert PlanPane(id, tile) in multiset(Placed(l, b)) <==> PlanPane(id, tile) in multiset(Placed(m, b));
    }
  }

  lemma {:induction false} SameIds(l: Layout, m: Layout, b: Tile)
    requires multiset(Placed(l, b)) == multiset(Placed(m, b))
    ensures multiset(Ids(l)) == multiset(Ids(m))
  {
    IdsOfPlaced(l, b);
    IdsOfPlaced(m, b);
    IdsPermuted(Placed(l, b), Placed(m, b));
  }

  function IdsOfPanes(panes: seq<PlanPane>): (ids: seq<nat>)
    ensures |ids| == |panes|
  {
    seq(|panes|, i requires 0 <= i < |panes| => panes[i].id)
  }

  lemma {:induction false} IdsOfPlaced(l: Layout, b: Tile)
    ensures Ids(l) == IdsOfPanes(Placed(l, b))
  {
    if l.Split? {
      IdsOfPlaced(l.first, FirstArea(l, b));
      IdsOfPlaced(l.second, SecondArea(l, b));
    }
  }

  lemma {:induction false} IdsPermuted(a: seq<PlanPane>, b: seq<PlanPane>)
    requires multiset(a) == multiset(b)
    ensures multiset(IdsOfPanes(a)) == multiset(IdsOfPanes(b))
    decreases |a|
  {
    if a == [] {
      assert |multiset(b)| == 0;
    } else {
      var init, last := a[..|a| - 1], a[|a| - 1];
      var left, right := TakeOut(a, b);
      IdsPermuted(init, left + right);
      hide IdsOfPanes;
      JoinIds(init, [last]);
      JoinIds(left, [last]);
      JoinIds(left + [last], right);
      JoinIds(left, right);
      assert a == init + [last];
    }
  }

  lemma {:induction false} JoinIds(a: seq<PlanPane>, b: seq<PlanPane>)
    ensures IdsOfPanes(a + b) == IdsOfPanes(a) + IdsOfPanes(b)
  {
  }

  lemma {:induction false} DistinctPermuted(a: seq<nat>, b: seq<nat>)
    requires Distinct(a) && multiset(a) == multiset(b)
    ensures Distinct(b)
  {
    forall i, j | 0 <= i < j < |b| ensures b[i] != b[j] {
      if b[i] == b[j] {
        assert b == b[..i] + [b[i]] + b[i + 1..];
        assert b[i + 1..][j - i - 1] == b[i];
        assert b[i] in multiset(b[i + 1..]);
        assert multiset(a)[b[i]] > 1;
        OnceEach(a, b[i]);
      }
    }
  }

  lemma {:induction false} OnceEach(a: seq<nat>, id: nat)
    requires Distinct(a)
    ensures multiset(a)[id] <= 1
    decreases |a|
  {
    if a != [] {
      var init, last := a[..|a| - 1], a[|a| - 1];
      assert a == init + [last];
      PartsDistinct(init, [last]);
      OnceEach(init, id);
      if last == id && id in init {
        DistinctApart(init, [last], id);
      }
    }
  }

  /** Saving a window as tiles and loading it again, in any pane order: every
      pane comes back with its tile. */
  method SaveAndLoad(l: Layout, panes: seq<PlanPane>, b: Tile) returns (loaded: Option<Layout>)
    requires ValidPlan(l) && Positive(b) && multiset(panes) == multiset(Placed(l, b))
    ensures loaded.Some? <==> Fits(l, b)
    ensures loaded.Some? ==> ValidPlan(loaded.value) && TileMap(loaded.value, b) == TileMap(l, b)
  {
    PositiveIffFits(l, b);
    SameInhabited(panes, Placed(l, b));
    var i := 0;
    while i < |panes|
      invariant 0 <= i <= |panes|
      invariant forall k :: 0 <= k < i ==> Positive(panes[k].tile)
    {
      if panes[i].tile.w <= 0 || panes[i].tile.h <= 0 {
        return None;
      }
      i := i + 1;
    }
    assert Places(l, multiset(panes), b);
    loaded := LayoutFromTiles(panes, b);
    SameIds(l, loaded.value, b);
    DistinctPermuted(Ids(l), Ids(loaded.value));
    SameTiles(loaded.value, l, b);
  }

  lemma {:induction false} SameInhabited(a: seq<PlanPane>, b: seq<PlanPane>)
    requires multiset(a) == multiset(b)
    ensures Inhabited(a) <==> Inhabited(b)
  {
    if Inhabited(a) {
      forall i | 0 <= i < |b| ensures Positive(b[i].tile) { assert b[i] in multiset(a); }
    }
    if Inhabited(b) {
      forall i | 0 <= i < |a| ensures Positive(a[i].tile) { assert a[i] in multiset(b); }
    }
  }

  // ---------------------------------------------------------- saved per mille

  /** The live tree, with ratios in thousandths. */
  datatype LayoutNode = PaneNode(id: nat) | SplitNode(axis: Axis, ratio: nat, first: LayoutNode, second: LayoutNode)

  function PlanRatio(ratio: nat): nat { if ratio == 0 || ratio >= 1000 then 500 else ratio }

  /** `planLayout`. */
  function PlanLayout(n: LayoutNode): Layout {
    match n
    case PaneNode(id) => Pane(id)
    case SplitNode(axis, ratio, first, second) =>
      Split(axis, PlanRatio(ratio) as real / 1000.0, PlanLayout(first), PlanLayout(second))
  }

  /** `restoreLayout`. */
  function RestoreLayout(l: Layout): LayoutNode {
    match l
    case Pane(id) => PaneNode(id)
    case Split(axis, ratio, first, second) =>
      SplitNode(axis, if ratio < 0.0 then 0 else Rounded(ratio * 1000.0), RestoreLayout(first), RestoreLayout(second))
  }

  function Normalized(n: LayoutNode): LayoutNode {
    match n
    case PaneNode(_) => n
    case SplitNode(axis, ratio, first, second) => SplitNode(axis, PlanRatio(ratio), Normalized(first), Normalized(second))
  }

  /** Saving and restoring a live tree keeps it, but for ratios out of range. */
  lemma {:induction false} RestorePlanned(n: LayoutNode)
    ensures RestoreLayout(PlanLayout(n)) == Normalized(n) && RatiosValid(PlanLayout(n))
  {
    if n.SplitNode? {
      RestorePlanned(n.first);
      RestorePlanned(n.second);
      assert PlanRatio(n.ratio) as real / 1000.0 * 1000.0 == PlanRatio(n.ratio) as real;
    }
  }

  /** The panes of a live tree, in order. */
  function PaneIds(n: LayoutNode): (ids: seq<nat>)
    ensures |ids| >= 1
  {
    match n
    case PaneNode(id) => [id]
    case SplitNode(_, _, first, second) => PaneIds(first) + PaneIds(second)
  }

  /** One pane lies wholly before the other: left of it, or above it. */
  predicate Precedes(a: Tile, b: Tile, axis: Axis) {
    if axis.Vertical? then a.x + a.w <= b.x else a.y + a.h <= b.y
  }

  /** Panes come in the order of the tree, and at every split all of the first part
      lies to the left of the second if it is vertical, above it if horizontal. */
  ghost predicate FollowsTree(n: LayoutNode, panes: seq<PlanPane>) {
    && |panes| == |PaneIds(n)|
    && match n
       case PaneNode(id) => panes[0].id == id
       case SplitNode(axis, _, first, second) =>
         var k := |PaneIds(first)|;
         && FollowsTree(first, panes[..k]) && FollowsTree(second, panes[k..])
         && forall i, j :: 0 <= i < k <= j < |panes| ==> Precedes(panes[i].tile, panes[j].tile, axis)
  }

  /** A saved live tree is laid out as it was split. */
  lemma {:induction false} PlanFollowsTree(n: LayoutNode, b: Tile)
    requires Fits(PlanLayout(n), b)
    ensures FollowsTree(n, Placed(PlanLayout(n), b))
  {
    hide Fits, CutOf, AllInside, Apart, Area, Precedes;
    if n.SplitNode? {
      var l := PlanLayout(n);
      PartsFit(l, b);
      PlanFollowsTree(n.first, FirstArea(l, b));
      PlanFollowsTree(n.second, SecondArea(l, b));
      TilesPartition(l.first, FirstArea(l, b));
      TilesPartition(l.second, SecondArea(l, b));
      var first, second := Placed(l.first, FirstArea(l, b)), Placed(l.second, SecondArea(l, b));
      var panes := Placed(l, b);
      assert panes == first + second && panes[..|first|] == first && panes[|first|..] == second;
      PlanCount(n.first, FirstArea(l, b));
      PartsInOrder(first, second, b, n.axis, CutOf(l, b));
    }
  }

  lemma {:induction false} PartsInOrder(first: seq<PlanPane>, second: seq<PlanPane>, b: Tile, axis: Axis, cut: int)
    requires AllInside(first, Before(b, axis, cut)) && AllInside(second, After(b, axis, cut))
    ensures forall i, j :: 0 <= i < |first| <= j < |first + second| ==> Precedes((first + second)[i].tile, (first + second)[j].tile, axis)
  {
    forall i, j | 0 <= i < |first| <= j < |first + second| ensures Precedes((first + second)[i].tile, (first + second)[j].tile, axis) {
      assert Inside(first[i].tile, Before(b, axis, cut)) && Inside(second[j - |first|].tile, After(b, axis, cut));
    }
  }

  lemma {:induction false} PlanCount(n: LayoutNode, b: Tile)
    ensures |Placed(PlanLayout(n), b)| == |PaneIds(n)|
  {
    if n.SplitNode? {
      PlanCount(n.first, FirstArea(PlanLayout(n), b));
      PlanCount(n.second, SecondArea(PlanLayout(n), b));
    }
  }

  /** How far a cut is from its share of an area, in thousandths of a cell. */
  function Off(cut: int, size: int, ratio: nat): int {
    var distance := cut * 1000 - size * ratio;
    if distance < 0 then -distance else distance
  }

  /** A split is cut where no other cut that leaves both parts their minimum is
      nearer to the live ratio. */
  lemma {:induction false} NearestCut(n: LayoutNode, b: Tile, other: int)
    requires n.SplitNode? && 0 < n.ratio < 1000 && Fits(PlanLayout(n), b)
    ensures var l := PlanLayout(n);
            var size := if n.axis.Vertical? then b.w else b.h;
            var m1, m2 := if n.axis.Vertical? then MinW(l.first) else MinH(l.first), if n.axis.Vertical? then MinW(l.second) else MinH(l.second);
            var cut := if n.axis.Vertical? then FirstArea(l, b).w else FirstArea(l, b).h;
            && m1 <= cut <= size - m2
            && (m1 <= other <= size - m2 ==> Off(cut, size, n.ratio) <= Off(other, size, n.ratio))
  {
    var l := PlanLayout(n);
    var size := if n.axis.Vertical? then b.w else b.h;
    hide MinW, MinH, Off;
    RoundedShare(size, n.ratio);
    var m1, m2 := if n.axis.Vertical? then MinW(l.first) else MinH(l.first), if n.axis.Vertical? then MinW(l.second) else MinH(l.second);
    Clamped(size, n.ratio, Rounded(Scaled(size, n.ratio as real / 1000.0)), m1, m2, other);
  }

  lemma {:induction false} Clamped(size: int, ratio: nat, value: int, m1: int, m2: int, other: int)
    requires 2 * size * ratio - 1000 <= 2000 * value <= 2 * size * ratio + 1000 && m1 + m2 <= size
    ensures var cut := if value < m1 then m1 else if value > size - m2 then size - m2 else value;
            m1 <= other <= size - m2 ==> Off(cut, size, ratio) <= Off(other, size, ratio)
  {
    var share := size * ratio;
    assert 2 * size * ratio == 2 * share;
  }

  lemma {:induction false} RoundedShare(size: int, ratio: nat)
    ensures var value := Rounded(Scaled(size, ratio as real / 1000.0));
            2 * size * ratio - 1000 <= 2000 * value <= 2 * size * ratio + 1000
  {
    var exact := Scaled(size, ratio as real / 1000.0);
    assert exact * 1000.0 == (size * ratio) as real;
    var value := (exact + 0.5).Floor;
    assert value as real <= exact + 0.5 < value as real + 1.0;
    assert (2000 * value) as real <= (2 * size * ratio + 1000) as real;
    assert (2 * size * ratio + 1000) as real < (2000 * value + 2000) as real;
  }

  /** Rounding a cut to thousandths moves it less than half a cell. */
  lemma {:induction false} ThousandthsExact(a: int, size: int)
    requires 0 < a < size < 1000
    ensures var t := Rounded(a as real / size as real * 1000.0);
            0 < t < 1000 && Rounded(Scaled(size, t as real / 1000.0)) == a
  {
    var s, exact := size as real, a as real / size as real * 1000.0;
    var t := Rounded(exact);
    var off := t as real - exact;
    Product(a as real, s);
    assert -0.5 < off <= 0.5;
    Bounds(a as real, s, exact);
    OffBound(off, s);
    assert Scaled(size, t as real / 1000.0) == a as real + off * s / 1000.0 by {
      Expand(a as real, s, exact, off, t as real);
    }
  }

  lemma {:induction false} Product(a: real, s: real)
    requires s > 0.0
    ensures a / s * 1000.0 * s == a * 1000.0
  {
    assert a / s * s == a;
  }

  lemma {:induction false} Bounds(a: real, s: real, exact: real)
    requires 1.0 <= a <= s - 1.0 && s <= 999.0
    ensures exact <= 1.0 ==> exact * s < a * 1000.0
    ensures exact >= 999.0 ==> exact * s > a * 1000.0
  {
    if exact <= 1.0 {
      Monotone(exact, 1.0, s);
    }
    if exact >= 999.0 {
      Monotone(999.0, exact, s);
      assert a * 1000.0 <= 1000.0 * s - 1000.0 < 999.0 * s;
    }
  }

  lemma {:induction false} Monotone(x: real, y: real, s: real)
    requires x <= y && s >= 0.0
    ensures x * s <= y * s
  {
  }

  lemma {:induction false} OffBound(off: real, s: real)
    requires -0.5 < off <= 0.5 && 0.0 < s <= 999.0
    ensures -499.5 <= off * s <= 499.5
  {
    var drift, low, high := off * s, -0.5 * s, 0.5 * s;
    Monotone(off, 0.5, s);
    Monotone(-0.5, off, s);
    assert drift <= high;
    assert low <= drift;
  }

  lemma {:induction false} Expand(a: real, s: real, exact: real, off: real, t: real)
    requires exact * s == a * 1000.0 && t == exact + off
    ensures s * (t / 1000.0) == a + off * s / 1000.0
  {
    assert s * t == s * exact + s * off;
  }

  /** Layouts found from tiles survive a save in thousandths: no edge moves. */
  lemma {:induction false} SaveFixpoint(l: Layout, b: Tile)
    requires ExactCuts(l, b) && Fits(l, b) && b.w < 1000 && b.h < 1000
    ensures Placed(PlanLayout(RestoreLayout(l)), b) == Placed(l, b)
    ensures MinW(PlanLayout(RestoreLayout(l))) == MinW(l) && MinH(PlanLayout(RestoreLayout(l))) == MinH(l)
  {
    if l.Split? {
      var saved := PlanLayout(RestoreLayout(l));
      PartsFit(l, b);
      SaveFixpoint(l.first, FirstArea(l, b));
      SaveFixpoint(l.second, SecondArea(l, b));
      ThousandthsExact(CutOf(l, b), Length(b, l.axis));
      assert CutOf(saved, b) == CutOf(l, b);
    }
  }
}
