/** The window and pane graph shared by grouped sessions: split trees changed pane by
    pane, each session's own focus and zoom, and the maps that mirror them. */
module WindowGroups {
  import opened Display
  import opened TileLayout

  type PaneId = nat
  type WindowId = nat
  type SessionId = nat

  const NONE: nat := 0
  const MAX_VISIBLE_PANES: nat := 8
  const HISTORY: nat := 8

  // ------------------------------------------------------------- layout trees

  function FirstPane(n: LayoutNode): PaneId { PaneIds(n)[0] }

  predicate HasPane(n: LayoutNode, pane: PaneId) { pane in PaneIds(n) }

  ghost predicate DistinctPanes(n: LayoutNode) { Distinct(PaneIds(n)) }

  datatype Replacement = Replacement(layout: LayoutNode, replaced: bool)

  /** `replacePaneWithSplit`. */
  function ReplacePaneWithSplit(n: LayoutNode, target: PaneId, created: PaneId, axis: Axis): Replacement {
    match n
    case PaneNode(id) =>
      if id != target then Replacement(n, false)
      else Replacement(SplitNode(axis, 500, n, PaneNode(created)), true)
    case SplitNode(direction, ratio, first, second) =>
      var left := ReplacePaneWithSplit(first, target, created, axis);
      if left.replaced then Replacement(n.(first := left.layout), true)
      else
        var right := ReplacePaneWithSplit(second, target, created, axis);
        if right.replaced then Replacement(n.(second := right.layout), true) else Replacement(n, false)
  }

  /** A removal: the tree left, if any, the pane to focus, and whether it happened. */
  datatype Removal = Removal(layout: Option<LayoutNode>, focused: PaneId, removed: bool)

  /** `removePaneFromLayout`. */
  function RemovePaneFromLayout(n: LayoutNode, target: PaneId): Removal {
    match n
    case PaneNode(id) => if id == target then Removal(None, NONE, true) else Removal(Some(n), NONE, false)
    case SplitNode(_, _, first, second) =>
      var left := RemovePaneFromLayout(first, target);
      if left.removed then
        if left.layout.None? then Removal(Some(second), FirstPane(second), true)
        else Removal(Some(n.(first := left.layout.value)), left.focused, true)
      else
        var right := RemovePaneFromLayout(second, target);
        if right.removed then
          if right.layout.None? then Removal(Some(first), FirstPane(first), true)
          else Removal(Some(n.(second := right.layout.value)), right.focused, true)
        else Removal(Some(n), NONE, false)
  }

  /** Splitting adds the one pane, if the target is there; otherwise nothing changes. */
  lemma {:induction false} SplitAdds(n: LayoutNode, target: PaneId, created: PaneId, axis: Axis)
    ensures var r := ReplacePaneWithSplit(n, target, created, axis);
            && (r.replaced <==> HasPane(n, target))
            && (r.replaced ==> multiset(PaneIds(r.layout)) == multiset(PaneIds(n)) + multiset{created})
            && (!r.replaced ==> r.layout == n)
  {
    if n.SplitNode? {
      SplitAdds(n.first, target, created, axis);
      SplitAdds(n.second, target, created, axis);
    }
  }

  /** The splits of a tree, each between the panes on its two sides. */
  function Cuts(n: LayoutNode): (cuts: seq<(Axis, nat)>)
    ensures |cuts| == |PaneIds(n)| - 1
  {
    match n
    case PaneNode(_) => []
    case SplitNode(axis, ratio, first, second) => Cuts(first) + [(axis, ratio)] + Cuts(second)
  }

  function With<T>(all: seq<T>, at: nat, x: T): seq<T>
    requires at <= |all|
  {
    all[..at] + [x] + all[at..]
  }

  lemma {:induction false} WithLeft<T>(a: seq<T>, b: seq<T>, at: nat, x: T)
    requires at <= |a|
    ensures With(a + b, at, x) == With(a, at, x) + b
  {
    var all := a + b;
    assert all[..at] == a[..at];
    assert all[at..] == a[at..] + b;
    Regrouped(a[..at] + [x], a[at..], b);
  }

  lemma {:induction false} WithRight<T>(a: seq<T>, b: seq<T>, at: nat, x: T)
    requires |a| <= at <= |a| + |b|
    ensures With(a + b, at, x) == a + With(b, at - |a|, x)
  {
    var all, k := a + b, at - |a|;
    assert all[..at] == a + b[..k];
    assert all[at..] == b[k..];
    Regrouped(a, b[..k], [x]);
    Regrouped(a, b[..k] + [x], b[k..]);
  }

  lemma {:induction false} Regrouped<T>(a: seq<T>, b: seq<T>, c: seq<T>)
    ensures (a + b) + c == a + (b + c)
  {
  }

  /** The split pane, the new one right after it with an even split of the asked
      direction between them, and all else in its place. */
  ghost predicate PlacedAfter(n: LayoutNode, after: LayoutNode, target: PaneId, created: PaneId, axis: Axis)
    requires HasPane(n, target)
  {
    var i := IndexOf(PaneIds(n), target);
    PaneIds(after) == With(PaneIds(n), i + 1, created) && Cuts(after) == With(Cuts(n), i, (axis, 500))
  }

  lemma {:induction false} SplitInPlace(n: LayoutNode, target: PaneId, created: PaneId, axis: Axis)
    requires HasPane(n, target)
    ensures PlacedAfter(n, ReplacePaneWithSplit(n, target, created, axis).layout, target, created, axis)
  {
    if n.PaneNode? {
      assert IndexOf([n.id], target) == 0;
      var after := SplitNode(axis, 500, n, PaneNode(created));
      assert ReplacePaneWithSplit(n, target, created, axis).layout == after;
      assert PaneIds(after) == [n.id] + [created] && PaneIds(n) == [n.id] && With([n.id], 1, created) == [n.id] + [created];
      assert Cuts(n) == [] && Cuts(after) == [] + [(axis, 500)] + [] && With([], 0, (axis, 500)) == [(axis, 500)];
    } else if HasPane(n.first, target) {
      SplitInPlace(n.first, target, created, axis);
      LeftSplit(n, target, created, axis);
      var after := ReplacePaneWithSplit(n, target, created, axis).layout;
      hide PlacedAfter;
      PlacedLeft(n, ReplacePaneWithSplit(n.first, target, created, axis).layout, after, target, created, axis);
    } else {
      SplitInPlace(n.second, target, created, axis);
      RightSplit(n, target, created, axis);
      var after := ReplacePaneWithSplit(n, target, created, axis).layout;
      hide PlacedAfter;
      PlacedRight(n, ReplacePaneWithSplit(n.second, target, created, axis).layout, after, target, created, axis);
    }
  }

  lemma {:induction false} PlacedLeft(n: LayoutNode, first: LayoutNode, after: LayoutNode, target: PaneId, created: PaneId, axis: Axis)
    requires n.SplitNode? && HasPane(n.first, target) && HasPane(n, target) && PlacedAfter(n.first, first, target, created, axis)
    requires PaneIds(after) == PaneIds(first) + PaneIds(n.second) && Cuts(after) == Cuts(first) + [(n.axis, n.ratio)] + Cuts(n.second)
    ensures PlacedAfter(n, after, target, created, axis)
  {
    var a, b, cut, cuts, i := PaneIds(n.first), PaneIds(n.second), [(n.axis, n.ratio)], Cuts(n.first), IndexOf(PaneIds(n.first), target);
    assert PaneIds(n) == a + b && Cuts(n) == cuts + cut + Cuts(n.second);
    IndexInJoin(a, b, target);
    hide IndexOf, With, PaneIds, Cuts;
    WithLeft(a, b, i + 1, created);
    WithLeft(cuts + cut, Cuts(n.second), i, (axis, 500));
    WithLeft(cuts, cut, i, (axis, 500));
  }

  lemma {:induction false} PlacedRight(n: LayoutNode, second: LayoutNode, after: LayoutNode, target: PaneId, created: PaneId, axis: Axis)
    requires n.SplitNode? && !HasPane(n.first, target) && HasPane(n.second, target) && HasPane(n, target)
    requires PlacedAfter(n.second, second, target, created, axis)
    requires PaneIds(after) == PaneIds(n.first) + PaneIds(second) && Cuts(after) == Cuts(n.first) + [(n.axis, n.ratio)] + Cuts(second)
    ensures PlacedAfter(n, after, target, created, axis)
  {
    hide PaneIds, Cuts, IndexOf, With, HasPane;
    RightIdsOf(n, second, after, target, created, axis);
    RightCutsOf(n, second, after, target, created, axis);
  }

  lemma {:induction false} RightIdsOf(n: LayoutNode, second: LayoutNode, after: LayoutNode, target: PaneId, created: PaneId, axis: Axis)
    requires n.SplitNode? && !HasPane(n.first, target) && HasPane(n.second, target) && HasPane(n, target)
    requires PlacedAfter(n.second, second, target, created, axis) && PaneIds(after) == PaneIds(n.first) + PaneIds(second)
    ensures IndexOf(PaneIds(n), target) == |PaneIds(n.first)| + IndexOf(PaneIds(n.second), target)
    ensures PaneIds(after) == With(PaneIds(n), IndexOf(PaneIds(n), target) + 1, created)
  {
    hide IndexOf, With;
    RightIds(PaneIds(n.first), PaneIds(n.second), PaneIds(second), target, created);
  }

  lemma {:induction false} RightCutsOf(n: LayoutNode, second: LayoutNode, after: LayoutNode, target: PaneId, created: PaneId, axis: Axis)
    requires n.SplitNode? && HasPane(n.second, target)
    requires PlacedAfter(n.second, second, target, created, axis) && Cuts(after) == Cuts(n.first) + [(n.axis, n.ratio)] + Cuts(second)
    ensures |PaneIds(n.first)| + IndexOf(PaneIds(n.second), target) <= |Cuts(n)|
    ensures Cuts(after) == With(Cuts(n), |PaneIds(n.first)| + IndexOf(PaneIds(n.second), target), (axis, 500))
  {
    hide IndexOf, With;
    RightCuts(Cuts(n.first), n.axis, n.ratio, Cuts(n.second), Cuts(second), IndexOf(PaneIds(n.second), target), (axis, 500));
  }

  lemma {:induction false} RightIds(a: seq<PaneId>, b: seq<PaneId>, more: seq<PaneId>, target: PaneId, created: PaneId)
    requires target !in a && target in b && more == With(b, IndexOf(b, target) + 1, created)
    ensures IndexOf(a + b, target) == |a| + IndexOf(b, target)
    ensures a + more == With(a + b, IndexOf(a + b, target) + 1, created)
  {
    hide IndexOf, With;
    IndexInJoin(a, b, target);
    JoinedRight(a, b, more, IndexOf(b, target) + 1, created);
  }

  lemma {:induction false} RightCuts(a: seq<(Axis, nat)>, axis: Axis, ratio: nat, b: seq<(Axis, nat)>, more: seq<(Axis, nat)>, i: nat, x: (Axis, nat))
    requires i <= |b| && more == With(b, i, x)
    ensures a + [(axis, ratio)] + more == With(a + [(axis, ratio)] + b, |a| + 1 + i, x)
  {
    hide With;
    JoinedRight(a + [(axis, ratio)], b, more, i, x);
  }

  lemma {:induction false} JoinedRight<T>(a: seq<T>, b: seq<T>, more: seq<T>, at: nat, x: T)
    requires at <= |b| && more == With(b, at, x)
    ensures a + more == With(a + b, |a| + at, x)
  {
    WithRight(a, b, |a| + at, x);
  }

  lemma {:induction false} LeftSplit(n: LayoutNode, target: PaneId, created: PaneId, axis: Axis)
    requires n.SplitNode? && HasPane(n.first, target)
    ensures var first, after := ReplacePaneWithSplit(n.first, target, created, axis).layout, ReplacePaneWithSplit(n, target, created, axis).layout;
            PaneIds(after) == PaneIds(first) + PaneIds(n.second) && Cuts(after) == Cuts(first) + [(n.axis, n.ratio)] + Cuts(n.second)
  {
    SplitAdds(n.first, target, created, axis);
  }

  lemma {:induction false} RightSplit(n: LayoutNode, target: PaneId, created: PaneId, axis: Axis)
    requires n.SplitNode? && !HasPane(n.first, target) && HasPane(n.second, target)
    ensures var second, after := ReplacePaneWithSplit(n.second, target, created, axis).layout, ReplacePaneWithSplit(n, target, created, axis).layout;
            PaneIds(after) == PaneIds(n.first) + PaneIds(second) && Cuts(after) == Cuts(n.first) + [(n.axis, n.ratio)] + Cuts(second)
  {
    SplitAdds(n.first, target, created, axis);
    SplitAdds(n.second, target, created, axis);
  }

  lemma {:induction false} IndexInJoin(a: seq<PaneId>, b: seq<PaneId>, pane: PaneId)
    requires pane in a + b
    ensures IndexOf(a + b, pane) == if pane in a then IndexOf(a, pane) else |a| + IndexOf(b, pane)
    decreases |a|
  {
    if a == [] {
      assert a + b == b;
    } else if a[0] != pane {
      assert (a + b)[1..] == a[1..] + b;
      IndexInJoin(a[1..], b, pane);
    }
  }

  /** Without one pane: the panes left keep their order and every split but one its
      place, direction and ratio; the one that goes is beside that pane. */
  ghost predicate TakenOut(n: LayoutNode, left: LayoutNode, target: PaneId, cut: nat)
    requires HasPane(n, target)
  {
    TakenFrom(PaneIds(n), Cuts(n), PaneIds(left), Cuts(left), target, cut)
  }

  ghost predicate TakenFrom(ids: seq<PaneId>, cuts: seq<(Axis, nat)>, lessIds: seq<PaneId>, lessCuts: seq<(Axis, nat)>,
                            target: PaneId, cut: nat)
    requires target in ids
  {
    var i := IndexOf(ids, target);
    && cut < |cuts| && (cut == i || cut + 1 == i)
    && |lessIds| + 1 == |ids| && |lessCuts| + 1 == |cuts|
    && With(lessIds, i, target) == ids && With(lessCuts, cut, cuts[cut]) == cuts
  }

  lemma {:induction false} RemovalInPlace(n: LayoutNode, target: PaneId) returns (cut: nat)
    requires n.SplitNode? && HasPane(n, target)
    ensures RemovePaneFromLayout(n, target).layout.Some? && TakenOut(n, RemovePaneFromLayout(n, target).layout.value, target, cut)
  {
    hide TakenOut, IndexOf, RemovePaneFromLayout, Cuts;
    RemovalParts(n, target);
    if HasPane(n.first, target) {
      if n.first.PaneNode? {
        cut := 0;
        FirstTaken(n);
      } else {
        cut := RemovalInPlace(n.first, target);
        LeftTaken(n, RemovePaneFromLayout(n.first, target).layout.value, target, cut);
      }
    } else if n.second.PaneNode? {
      cut := |Cuts(n.first)|;
      SecondTaken(n);
    } else {
      cut := RemovalInPlace(n.second, target);
      RightTaken(n, RemovePaneFromLayout(n.second, target).layout.value, target, cut);
      cut := |Cuts(n.first)| + 1 + cut;
    }
  }

  lemma {:induction false} RemovalParts(n: LayoutNode, target: PaneId)
    requires n.SplitNode? && HasPane(n, target)
    ensures var left, right := RemovePaneFromLayout(n.first, target).layout, RemovePaneFromLayout(n.second, target).layout;
            RemovePaneFromLayout(n, target).layout ==
            if HasPane(n.first, target) then (if left.None? then Some(n.second) else Some(n.(first := left.value)))
            else if right.None? then Some(n.first) else Some(n.(second := right.value))
    ensures HasPane(n.first, target) ==> (n.first.PaneNode? <==> RemovePaneFromLayout(n.first, target).layout.None?)
    ensures !HasPane(n.first, target) ==> HasPane(n.second, target) && (n.second.PaneNode? <==> RemovePaneFromLayout(n.second, target).layout.None?)
  {
    RemovalHappens(n.first, target);
    RemovalHappens(n.second, target);
  }

  lemma {:induction false} FirstTaken(n: LayoutNode)
    requires n.SplitNode? && n.first.PaneNode?
    ensures HasPane(n, n.first.id) && TakenOut(n, n.second, n.first.id, 0)
  {
    assert PaneIds(n)[0] == n.first.id && IndexOf(PaneIds(n), PaneIds(n)[0]) == 0;
    assert Cuts(n) == [(n.axis, n.ratio)] + Cuts(n.second);
  }

  lemma {:induction false} SecondTaken(n: LayoutNode)
    requires n.SplitNode? && n.second.PaneNode? && !HasPane(n.first, n.second.id)
    ensures HasPane(n, n.second.id) && TakenOut(n, n.first, n.second.id, |Cuts(n.first)|)
  {
    IndexInJoin(PaneIds(n.first), PaneIds(n.second), n.second.id);
    LastTaken(PaneIds(n.first), n.second.id);
    LastTaken(Cuts(n.first), (n.axis, n.ratio));
    assert Cuts(n) == Cuts(n.first) + [(n.axis, n.ratio)];
    hide With;
  }

  lemma {:induction false} LastTaken<T>(all: seq<T>, x: T)
    ensures With(all, |all|, x) == all + [x]
  {
  }

  lemma {:induction false} LeftTaken(n: LayoutNode, first: LayoutNode, target: PaneId, cut: nat)
    requires n.SplitNode? && HasPane(n.first, target) && TakenOut(n.first, first, target, cut)
    ensures HasPane(n, target) && TakenOut(n, n.(first := first), target, cut)
  {
    hide With, IndexOf;
    IndexInJoin(PaneIds(n.first), PaneIds(n.second), target);
    WithLeft(PaneIds(first), PaneIds(n.second), IndexOf(PaneIds(n), target), target);
    WithLeft(Cuts(first), [(n.axis, n.ratio)], cut, Cuts(n.first)[cut]);
    WithLeft(Cuts(first) + [(n.axis, n.ratio)], Cuts(n.second), cut, Cuts(n.first)[cut]);
  }

  lemma {:induction false} RightTaken(n: LayoutNode, second: LayoutNode, target: PaneId, cut: nat)
    requires n.SplitNode? && !HasPane(n.first, target) && HasPane(n.second, target) && TakenOut(n.second, second, target, cut)
    ensures HasPane(n, target) && TakenOut(n, n.(second := second), target, |Cuts(n.first)| + 1 + cut)
  {
    hide TakenFrom;
    RightFrom(PaneIds(n.first), Cuts(n.first), (n.axis, n.ratio), PaneIds(n.second), Cuts(n.second),
              PaneIds(second), Cuts(second), target, cut);
  }

  lemma {:induction false} RightFrom(a: seq<PaneId>, cutsA: seq<(Axis, nat)>, x: (Axis, nat), b: seq<PaneId>, cutsB: seq<(Axis, nat)>,
                                     less: seq<PaneId>, lessCuts: seq<(Axis, nat)>, target: PaneId, cut: nat)
    requires |cutsA| + 1 == |a| && target !in a && target in b && TakenFrom(b, cutsB, less, lessCuts, target, cut)
    ensures TakenFrom(a + b, cutsA + [x] + cutsB, a + less, cutsA + [x] + lessCuts, target, |cutsA| + 1 + cut)
  {
    hide With, IndexOf;
    RightOrder(a, less, b, target);
    RightRest(cutsA, x, lessCuts, cutsB, cut);
  }

  lemma {:induction false} RightOrder(a: seq<PaneId>, less: seq<PaneId>, b: seq<PaneId>, target: PaneId)
    requires target !in a && target in b && |less| + 1 == |b| && With(less, IndexOf(b, target), target) == b
    ensures IndexOf(a + b, target) == |a| + IndexOf(b, target)
    ensures With(a + less, |a| + IndexOf(b, target), target) == a + b
  {
    hide With, IndexOf;
    IndexInJoin(a, b, target);
    JoinedRight(a, less, b, IndexOf(b, target), target);
  }

  lemma {:induction false} RightRest<T>(a: seq<T>, x: T, less: seq<T>, b: seq<T>, cut: nat)
    requires cut < |b| && cut <= |less| && With(less, cut, b[cut]) == b
    ensures (a + [x] + b)[|a| + 1 + cut] == b[cut]
    ensures With(a + [x] + less, |a| + 1 + cut, b[cut]) == a + [x] + b
  {
    hide With;
    JoinedRight(a + [x], less, b, cut, b[cut]);
  }

  predicate Within(part: LayoutNode, n: LayoutNode) {
    part == n || (n.SplitNode? && (Within(part, n.first) || Within(part, n.second)))
  }

  /** The focus goes to the first pane beside the removed one in the split that goes. */
  lemma {:induction false} RemovalFocuses(n: LayoutNode, target: PaneId) returns (gone: LayoutNode)
    requires n.SplitNode? && HasPane(n, target)
    ensures Within(gone, n) && gone.SplitNode?
    ensures var focused := RemovePaneFromLayout(n, target).focused;
            || (gone.first == PaneNode(target) && focused == PaneIds(gone.second)[0])
            || (gone.second == PaneNode(target) && focused == PaneIds(gone.first)[0])
  {
    RemovalHappens(n.first, target);
    RemovalHappens(n.second, target);
    gone := n;
    if HasPane(n.first, target) {
      if n.first.SplitNode? {
        gone := RemovalFocuses(n.first, target);
      }
    } else if n.second.SplitNode? {
      gone := RemovalFocuses(n.second, target);
    }
  }

  lemma {:induction false} RemovalHappens(n: LayoutNode, target: PaneId)
    ensures var r := RemovePaneFromLayout(n, target);
            && (r.removed <==> HasPane(n, target))
            && (!r.removed ==> r.layout == Some(n))
            && (r.removed && r.layout.None? ==> PaneIds(n) == [target])
            && (n.SplitNode? ==> r.layout.Some?)
  {
    if n.SplitNode? {
      RemovalHappens(n.first, target);
      RemovalHappens(n.second, target);
    }
  }

  lemma {:induction false} RemovalPanes(n: LayoutNode, target: PaneId)
    requires RemovePaneFromLayout(n, target).removed && RemovePaneFromLayout(n, target).layout.Some?
    ensures multiset(PaneIds(RemovePaneFromLayout(n, target).layout.value)) + multiset{target} == multiset(PaneIds(n))
  {
    RemovalHappens(n.first, target);
    RemovalHappens(n.second, target);
    var left, right := RemovePaneFromLayout(n.first, target), RemovePaneFromLayout(n.second, target);
    if left.removed {
      if left.layout.Some? {
        RemovalPanes(n.first, target);
      }
    } else if right.layout.Some? {
      RemovalPanes(n.second, target);
    }
  }

  lemma {:induction false} RemovalFocus(n: LayoutNode, target: PaneId)
    requires RemovePaneFromLayout(n, target).removed && RemovePaneFromLayout(n, target).layout.Some?
    ensures HasPane(RemovePaneFromLayout(n, target).layout.value, RemovePaneFromLayout(n, target).focused)
  {
    var left, right := RemovePaneFromLayout(n.first, target), RemovePaneFromLayout(n.second, target);
    if left.removed {
      if left.layout.Some? {
        RemovalFocus(n.first, target);
      }
    } else if right.layout.Some? {
      RemovalFocus(n.second, target);
    }
  }

  /** Removing takes out the one pane and focuses one that is left. */
  lemma {:induction false} RemovalTakes(n: LayoutNode, target: PaneId)
    ensures var r := RemovePaneFromLayout(n, target);
            && (r.removed <==> HasPane(n, target))
            && (!r.removed ==> r.layout == Some(n))
            && (r.removed && r.layout.Some? ==>
                  && multiset(PaneIds(r.layout.value)) + multiset{target} == multiset(PaneIds(n))
                  && HasPane(r.layout.value, r.focused))
            && (r.removed && r.layout.None? ==> PaneIds(n) == [target])
            && (|PaneIds(n)| > 1 ==> r.layout.Some?)
  {
    RemovalHappens(n, target);
    if RemovePaneFromLayout(n, target).removed && RemovePaneFromLayout(n, target).layout.Some? {
      RemovalPanes(n, target);
      RemovalFocus(n, target);
    }
  }

  /** Closing the pane just split off gives the tree back and focuses its neighbour. */
  lemma {:induction false} SplitThenRemove(n: LayoutNode, target: PaneId, created: PaneId, axis: Axis)
    requires HasPane(n, target) && !HasPane(n, created)
    ensures RemovePaneFromLayout(ReplacePaneWithSplit(n, target, created, axis).layout, created) == Removal(Some(n), target, true)
  {
    if n.SplitNode? {
      SplitAdds(n.first, target, created, axis);
      SplitAdds(n.second, target, created, axis);
      RemovalTakes(n.first, created);
      if HasPane(n.first, target) {
        SplitThenRemove(n.first, target, created, axis);
      } else {
        SplitThenRemove(n.second, target, created, axis);
      }
    } else {
      assert RemovePaneFromLayout(n, created) == Removal(Some(n), NONE, false);
    }
  }

  function IndexOf(ids: seq<PaneId>, pane: PaneId): (i: nat)
    requires pane in ids
    ensures i < |ids| && ids[i] == pane && pane !in ids[..i]
    decreases |ids|
  {
    if ids[0] == pane then 0 else 1 + IndexOf(ids[1..], pane)
  }

  /** Another pane in one leaf. */
  function SetLeaf(n: LayoutNode, i: nat, pane: PaneId): (out: LayoutNode)
    requires i < |PaneIds(n)|
    ensures PaneIds(out) == PaneIds(n)[i := pane]
  {
    match n
    case PaneNode(_) => PaneNode(pane)
    case SplitNode(_, _, first, second) =>
      if i < |PaneIds(first)| then n.(first := SetLeaf(first, i, pane))
      else n.(second := SetLeaf(second, i - |PaneIds(first)|, pane))
  }

  /** `swapLayoutPanes`: the leaves the two panes are found in exchange them. */
  function SwapLayoutPanes(n: LayoutNode, a: PaneId, b: PaneId): Replacement {
    if HasPane(n, a) && HasPane(n, b) && a != b then
      var i, j := IndexOf(PaneIds(n), a), IndexOf(PaneIds(n), b);
      Replacement(SetLeaf(SetLeaf(n, i, b), j, a), true)
    else Replacement(n, false)
  }

  /** Setting two leaves back, in either order. */
  lemma {:induction false} SetLeaves(n: LayoutNode, i: nat, j: nat, k: nat, l: nat, x: PaneId, y: PaneId)
    requires i < |PaneIds(n)| && j < |PaneIds(n)| && {k, l} == {i, j}
    ensures SetLeaf(SetLeaf(SetLeaf(SetLeaf(n, i, x), j, y), k, PaneIds(n)[k]), l, PaneIds(n)[l]) == n
  {
    hide PaneIds, SetLeaf, Shape;
    assert k in {i, j} && l in {i, j} && i in {k, l} && j in {k, l};
    var one := SetLeaf(n, i, x);
    var two := SetLeaf(one, j, y);
    var three := SetLeaf(two, k, PaneIds(n)[k]);
    SameShape(n, i, x);
    SameShape(one, j, y);
    SameShape(two, k, PaneIds(n)[k]);
    SameShape(three, l, PaneIds(n)[l]);
    assert PaneIds(SetLeaf(three, l, PaneIds(n)[l])) == PaneIds(n);
    SameTree(n, SetLeaf(three, l, PaneIds(n)[l]));
  }

  function Shape(n: LayoutNode): LayoutNode {
    match n
    case PaneNode(_) => PaneNode(NONE)
    case SplitNode(_, _, first, second) => n.(first := Shape(first), second := Shape(second))
  }

  lemma {:induction false} SameShape(n: LayoutNode, i: nat, pane: PaneId)
    requires i < |PaneIds(n)|
    ensures Shape(SetLeaf(n, i, pane)) == Shape(n)
  {
    if n.SplitNode? {
      if i < |PaneIds(n.first)| {
        SameShape(n.first, i, pane);
      } else {
        SameShape(n.second, i - |PaneIds(n.first)|, pane);
      }
    }
  }

  /** A tree is its shape and its panes. */
  lemma {:induction false} SameTree(a: LayoutNode, b: LayoutNode)
    ensures Shape(a) == Shape(b) && PaneIds(a) == PaneIds(b) ==> a == b
  {
    if Shape(a) == Shape(b) && PaneIds(a) == PaneIds(b) && a.SplitNode? {
      ShapeSize(a.first, b.first);
      var k := |PaneIds(a.first)|;
      assert PaneIds(a)[..k] == PaneIds(a.first) && PaneIds(b)[..k] == PaneIds(b.first);
      assert PaneIds(a)[k..] == PaneIds(a.second) && PaneIds(b)[k..] == PaneIds(b.second);
      SameTree(a.first, b.first);
      SameTree(a.second, b.second);
    }
  }

  lemma {:induction false} ShapeSize(a: LayoutNode, b: LayoutNode)
    requires Shape(a) == Shape(b)
    ensures |PaneIds(a)| == |PaneIds(b)|
  {
    if a.SplitNode? {
      ShapeSize(a.first, b.first);
      ShapeSize(a.second, b.second);
    }
  }

  /** The same panes after a swap, two of them exchanged; again, and all is as before. */
  lemma {:induction false} SwapTwice(n: LayoutNode, a: PaneId, b: PaneId)
    requires DistinctPanes(n)
    ensures var r := SwapLayoutPanes(n, a, b);
            && (r.replaced <==> HasPane(n, a) && HasPane(n, b) && a != b)
            && (!r.replaced ==> r.layout == n)
            && DistinctPanes(r.layout) && (forall p :: HasPane(r.layout, p) <==> HasPane(n, p))
            && (r.replaced ==>
                  && |PaneIds(r.layout)| == |PaneIds(n)|
                  && (forall k :: 0 <= k < |PaneIds(n)| ==>
                        PaneIds(r.layout)[k] == if PaneIds(n)[k] == a then b else if PaneIds(n)[k] == b then a else PaneIds(n)[k])
                  && SwapLayoutPanes(r.layout, a, b) == Replacement(n, true))
  {
    hide PaneIds, SetLeaf, Distinct, IndexOf;
    if HasPane(n, a) && HasPane(n, b) && a != b {
      var ids := PaneIds(n);
      var i, j := IndexOf(ids, a), IndexOf(ids, b);
      SwappedIds(ids, i, j);
      SetLeaves(n, i, j, j, i, b, a);
    }
  }

  lemma {:induction false} SwappedIds(ids: seq<PaneId>, i: nat, j: nat)
    requires Distinct(ids) && i < |ids| && j < |ids| && i != j
    ensures var swapped := ids[i := ids[j]][j := ids[i]];
            && Distinct(swapped) && (forall p :: p in swapped <==> p in ids)
            && IndexOf(swapped, ids[i]) == j && IndexOf(swapped, ids[j]) == i
            && forall k :: 0 <= k < |ids| ==> swapped[k] == if ids[k] == ids[i] then ids[j] else if ids[k] == ids[j] then ids[i] else ids[k]
  {
    hide IndexOf;
    var swapped := ids[i := ids[j]][j := ids[i]];
    forall p | p in ids ensures p in swapped {
      var k :| 0 <= k < |ids| && ids[k] == p;
      assert swapped[if k == i then j else if k == j then i else k] == p;
    }
  }

  // ------------------------------------------------------------ session views

  /** What a session sees of a window: its focused pane, its zoomed pane (zero for
      none), and the panes focused before, oldest first. */
  datatype View = View(focused: PaneId, zoomed: PaneId, history: seq<PaneId>)

  function Kept(history: seq<PaneId>, drop: PaneId): seq<PaneId> {
    if history == [] then []
    else Kept(history[..|history| - 1], drop) + if history[|history| - 1] == drop then [] else [history[|history| - 1]]
  }

  function KeptIn(history: seq<PaneId>, drop: PaneId, layout: LayoutNode): seq<PaneId> {
    if history == [] then []
    else
      var last := history[|history| - 1];
      KeptIn(history[..|history| - 1], drop, layout) + if last != drop && HasPane(layout, last) then [last] else []
  }

  lemma {:induction false} KeptMembers(history: seq<PaneId>, drop: PaneId, layout: LayoutNode)
    ensures |Kept(history, drop)| <= |history| && |KeptIn(history, drop, layout)| <= |history|
    ensures forall p :: p in Kept(history, drop) <==> p in history && p != drop
    ensures forall p :: p in KeptIn(history, drop, layout) <==> p in history && p != drop && HasPane(layout, p)
    ensures Distinct(history) ==> Distinct(Kept(history, drop)) && Distinct(KeptIn(history, drop, layout))
    decreases |history|
  {
    if history != [] {
      var init, last := history[..|history| - 1], history[|history| - 1];
      assert history == init + [last];
      KeptMembers(init, drop, layout);
      if Distinct(history) {
        PartsDistinct(init, [last]);
        DistinctApart(init, [last], last);
        OneMore(Kept(init, drop), last);
        OneMore(KeptIn(init, drop, layout), last);
      }
    }
  }

  /** Dropping keeps the order. */
  lemma {:induction false} KeptJoin(a: seq<PaneId>, b: seq<PaneId>, drop: PaneId, layout: LayoutNode)
    ensures Kept(a + b, drop) == Kept(a, drop) + Kept(b, drop)
    ensures KeptIn(a + b, drop, layout) == KeptIn(a, drop, layout) + KeptIn(b, drop, layout)
    decreases |b|
  {
    if b == [] {
      assert a + b == a;
    } else {
      var init, last := b[..|b| - 1], b[|b| - 1];
      assert (a + b)[..|a + b| - 1] == a + init && (a + b)[|a + b| - 1] == last;
      KeptJoin(a, init, drop, layout);
    }
  }

  lemma {:induction false} KeptTwice(history: seq<PaneId>, drop: PaneId, layout: LayoutNode)
    ensures KeptIn(Kept(history, drop), drop, layout) == KeptIn(history, drop, layout)
    ensures drop !in history ==> Kept(history, drop) == history
    decreases |history|
  {
    if history != [] {
      var init, last := history[..|history| - 1], history[|history| - 1];
      assert history == init + [last];
      KeptTwice(init, drop, layout);
      KeptJoin(init, [last], drop, layout);
      OneKept(last, drop, layout);
      hide Kept, KeptIn, HasPane;
      if last != drop {
        KeptJoin(Kept(init, drop), [last], drop, layout);
      } else {
        assert Kept(init, drop) + [] == Kept(init, drop) && KeptIn(init, drop, layout) + [] == KeptIn(init, drop, layout);
      }
    } else {
      assert Kept(history, drop) == [];
    }
  }

  /** Focus comes back to the pane it left when the newly focused one goes, and what
      was remembered is remembered still: all of it if there was room, else all but
      the oldest. */
  lemma {:induction false} FocusReturns(v: View, pane: PaneId, layout: LayoutNode, fallback: PaneId)
    requires ViewOk(v) && pane != v.focused && HasPane(layout, v.focused) && !HasPane(layout, pane)
    ensures var back := Unfocused(Focused(v, pane), layout, pane, fallback);
            && back.focused == v.focused && back.zoomed == v.zoomed
            && (|v.history| < HISTORY || pane in v.history ==> back.history == KeptIn(v.history, pane, layout))
            && (|v.history| == HISTORY && pane !in v.history ==> back.history == KeptIn(v.history[1..], pane, layout))
  {
    hide HasPane, Distinct;
    var kept := Kept(v.history, pane);
    KeptMembers(v.history, pane, layout);
    KeptTwice(v.history, pane, layout);
    KeptFewer(v.history, pane);
    var room := if |kept| == HISTORY then kept[1..] else kept;
    KeptJoin(room, [v.focused], pane, layout);
    OneKept(v.focused, pane, layout);
  }

  lemma {:induction false} OneKept(p: PaneId, pane: PaneId, layout: LayoutNode)
    ensures KeptIn([p], pane, layout) == if p != pane && HasPane(layout, p) then [p] else []
    ensures Kept([p], pane) == if p != pane then [p] else []
  {
    hide HasPane;
    assert [p][..0] == [];
    assert KeptIn([p][..0], pane, layout) == [] && Kept([p][..0], pane) == [];
  }

  lemma {:induction false} KeptFewer(history: seq<PaneId>, drop: PaneId)
    ensures drop in history ==> |Kept(history, drop)| < |history|
    decreases |history|
  {
    if history != [] {
      var init, last := history[..|history| - 1], history[|history| - 1];
      assert history == init + [last];
      KeptMembers(init, drop, PaneNode(drop));
      KeptFewer(init, drop);
    }
  }

  lemma {:induction false} OneMore(ids: seq<PaneId>, id: PaneId)
    ensures Distinct(ids) && id !in ids ==> Distinct(ids + [id])
  {
  }

  /** The history holds distinct panes, not the focused one, and at most eight. */
  ghost predicate ViewOk(v: View) {
    |v.history| <= HISTORY && Distinct(v.history) && v.focused !in v.history
  }

  function Focused(v: View, pane: PaneId): View {
    if v.focused == pane then v
    else
      var kept := Kept(v.history, pane);
      var room := if |kept| == HISTORY then kept[1..] else kept;
      v.(focused := pane, history := room + [v.focused])
  }

  /** The part of the fixed history array in use. */
  method Compact(history: seq<PaneId>, drop: PaneId) returns (slots: array<PaneId>, depth: nat)
    requires |history| <= HISTORY
    ensures fresh(slots) && slots.Length == HISTORY && depth <= |history| && slots[..depth] == Kept(history, drop)
  {
    slots := new PaneId[HISTORY](_ => NONE);
    depth := 0;
    var i := 0;
    assert history[..0] == [];
    while i < |history|
      invariant 0 <= i <= |history| && depth <= i && slots.Length == HISTORY
      invariant slots[..depth] == Kept(history[..i], drop)
    {
      assert history[..i + 1][..i] == history[..i];
      if history[i] != drop {
        slots[depth] := history[i];
        assert slots[..depth + 1] == slots[..depth] + [history[i]];
        depth := depth + 1;
      }
      i := i + 1;
    }
    assert history[..i] == history;
  }

  /** A full history forgets its oldest pane. */
  method DropOldest(slots: array<PaneId>)
    requires slots.Length == HISTORY
    modifies slots
    ensures slots[..HISTORY - 1] == old(slots[1..])
  {
    ghost var was := slots[..];
    var j := 0;
    while j < HISTORY - 1
      invariant 0 <= j <= HISTORY - 1
      invariant forall k :: 0 <= k < j ==> slots[k] == was[k + 1]
      invariant forall k :: j <= k < HISTORY ==> slots[k] == was[k]
    {
      slots[j] := slots[j + 1];
      j := j + 1;
    }
  }

  /** `focusPane`: compacts the fixed history and remembers the pane left. */
  method FocusPane(v: View, pane: PaneId) returns (out: View)
    requires ViewOk(v)
    ensures out == Focused(v, pane) && ViewOk(out)
  {
    hide Kept, Distinct;
    FocusedOk(v, pane);
    if v.focused == pane {
      return v;
    }
    var slots, depth := Compact(v.history, pane);
    ghost var kept := Kept(v.history, pane);
    if depth == HISTORY {
      assert slots[..] == kept;
      DropOldest(slots);
      depth := depth - 1;
      assert slots[..depth] == kept[1..];
    }
    slots[depth] := v.focused;
    assert slots[..depth + 1] == slots[..depth] + [v.focused];
    out := v.(focused := pane, history := slots[..depth + 1]);
  }

  lemma {:induction false} FocusedOk(v: View, pane: PaneId)
    requires ViewOk(v)
    ensures ViewOk(Focused(v, pane))
  {
    if v.focused != pane {
      KeptMembers(v.history, pane, PaneNode(pane));
      var kept := Kept(v.history, pane);
      var room := if |kept| == HISTORY then kept[1..] else kept;
      assert forall p :: p in room ==> p in kept;
      assert Distinct(room);
      OneMore(room, v.focused);
      assert pane !in room + [v.focused];
    }
  }

  function Unfocused(v: View, layout: LayoutNode, pane: PaneId, fallback: PaneId): View {
    var kept := KeptIn(v.history, pane, layout);
    if v.focused != pane && HasPane(layout, v.focused) then v.(history := kept)
    else if |kept| > 0 then v.(focused := kept[|kept| - 1], history := kept[..|kept| - 1])
    else v.(focused := fallback, history := kept)
  }

  method StillThere(history: seq<PaneId>, layout: LayoutNode, pane: PaneId) returns (kept: seq<PaneId>)
    ensures kept == KeptIn(history, pane, layout)
  {
    hide HasPane;
    kept := [];
    var i := 0;
    assert history[..0] == [];
    while i < |history|
      invariant 0 <= i <= |history| && kept == KeptIn(history[..i], pane, layout)
    {
      assert history[..i + 1][..i] == history[..i];
      if history[i] != pane && HasPane(layout, history[i]) {
        kept := kept + [history[i]];
      }
      i := i + 1;
    }
    assert history[..i] == history;
  }

  /** `removePane`: focus falls back to the pane focused last that is still there. */
  method RemovePaneFromView(v: View, layout: LayoutNode, pane: PaneId, fallback: PaneId) returns (out: View)
    requires ViewOk(v) && !HasPane(layout, pane) && HasPane(layout, fallback)
    ensures out == Unfocused(v, layout, pane, fallback)
    ensures ViewOk(out) && HasPane(layout, out.focused) && out.zoomed == v.zoomed
  {
    hide HasPane, Distinct, KeptIn;
    UnfocusedOk(v, layout, pane, fallback);
    var history := StillThere(v.history, layout, pane);
    if v.focused != pane && HasPane(layout, v.focused) {
      return v.(history := history);
    }
    if |history| > 0 {
      return v.(focused := history[|history| - 1], history := history[..|history| - 1]);
    }
    return v.(focused := fallback, history := history);
  }

  lemma {:induction false} UnfocusedOk(v: View, layout: LayoutNode, pane: PaneId, fallback: PaneId)
    requires ViewOk(v) && HasPane(layout, fallback)
    ensures ViewOk(Unfocused(v, layout, pane, fallback)) && HasPane(layout, Unfocused(v, layout, pane, fallback).focused)
    ensures Unfocused(v, layout, pane, fallback).zoomed == v.zoomed
  {
    hide HasPane, Distinct, KeptIn;
    KeptMembers(v.history, pane, layout);
    var kept := KeptIn(v.history, pane, layout);
    if kept == [] {
      assert fallback !in kept;
    } else {
      LastApart(kept);
    }
  }

  lemma {:induction false} LastApart(ids: seq<PaneId>)
    requires Distinct(ids) && ids != []
    ensures Distinct(ids[..|ids| - 1]) && ids[|ids| - 1] !in ids[..|ids| - 1] && ids[|ids| - 1] in ids
  {
  }

  // ------------------------------------------------------------------ the graph

  datatype Window = Window(layout: LayoutNode, activePane: PaneId)

  /** One session of the group: its mirror of the maps and its own views. */
  datatype Member = Member(windows: set<WindowId>, panes: set<PaneId>, views: map<WindowId, View>)

  /** Panes are distinct in each layout, and the layouts partition the group's panes. */
  ghost predicate LayoutsPartition(windows: map<WindowId, Window>, panes: map<PaneId, WindowId>) {
    && (forall w :: w in windows ==> DistinctPanes(windows[w].layout) && HasPane(windows[w].layout, windows[w].activePane))
    && (forall p :: p in panes ==> p != NONE && panes[p] in windows && HasPane(windows[panes[p]].layout, p))
    && (forall w, p :: w in windows && HasPane(windows[w].layout, p) ==> p in panes && panes[p] == w)
  }

  ghost predicate ViewFits(v: View, layout: LayoutNode) {
    ViewOk(v) && HasPane(layout, v.focused) && (v.zoomed == NONE || HasPane(layout, v.zoomed))
  }

  /** A member mirrors the group, and sees in each window only panes of that window. */
  ghost predicate Mirrors(m: Member, windows: map<WindowId, Window>, panes: map<PaneId, WindowId>) {
    && m.windows == windows.Keys && m.panes == panes.Keys && m.views.Keys == windows.Keys
    && forall w :: w in windows ==> ViewFits(m.views[w], windows[w].layout)
  }

  datatype Graph = Graph(windows: map<WindowId, Window>, panes: map<PaneId, WindowId>, members: map<SessionId, Member>)

  ghost predicate GraphOk(g: Graph) {
    LayoutsPartition(g.windows, g.panes) && forall s :: s in g.members ==> Mirrors(g.members[s], g.windows, g.panes)
  }

  /** A view after its window lost a pane: zoom ends when it was the pane's or only
      one pane is left, and focus falls back through the history. */
  function ViewAfter(view: View, layout: LayoutNode, pane: PaneId, fallback: PaneId): View {
    Unfocused(if |PaneIds(layout)| <= 1 || view.zoomed == pane then view.(zoomed := NONE) else view, layout, pane, fallback)
  }

  /** What a member sees of a window that lost a pane: its focus and zoom stay unless
      they were on it, or one pane is left; the other windows look as before. */
  lemma {:induction false} RemovalViews(g: Graph, pane: PaneId, s: SessionId)
    requires GraphOk(g) && pane in g.panes && s in g.members && |PaneIds(g.windows[g.panes[pane]].layout)| > 1
    ensures var w, h := g.panes[pane], WithoutPane(g, pane);
            && s in h.members && w in g.members[s].views && w in h.members[s].views && w in h.windows
            && ViewShrinks(g.members[s].views[w], h.members[s].views[w], h.windows[w], pane)
  {
    hide GraphOk, RemovePaneFromLayout, ViewAfter, PaneIds, HasPane, ViewFits, ViewShrinks, LayoutsPartition;
    PaneViewed(g, pane, s);
    var layout := g.windows[g.panes[pane]].layout;
    RemovalTakes(layout, pane);
    RemovalView(g.members[s].views[g.panes[pane]], layout, RemovePaneFromLayout(layout, pane), pane);
  }

  lemma {:induction false} PaneViewed(g: Graph, pane: PaneId, s: SessionId)
    requires GraphOk(g) && pane in g.panes && s in g.members
    ensures var w := g.panes[pane];
            && w in g.windows && g.members[s].views.Keys == g.windows.Keys
            && HasPane(g.windows[w].layout, pane) && ViewFits(g.members[s].views[w], g.windows[w].layout)
  {
    hide HasPane, ViewFits, DistinctPanes;
    assert Mirrors(g.members[s], g.windows, g.panes);
  }

  /** Every other window, and what a member sees of it, is left alone. */
  lemma {:induction false} OtherViews(g: Graph, pane: PaneId, s: SessionId, v: WindowId)
    requires GraphOk(g) && pane in g.panes && s in g.members && v in g.windows && v != g.panes[pane]
    ensures var h := WithoutPane(g, pane);
            && s in h.members && v in h.windows && h.windows[v] == g.windows[v]
            && v in g.members[s].views && v in h.members[s].views && h.members[s].views[v] == g.members[s].views[v]
  {
    hide GraphOk, RemovePaneFromLayout, ViewAfter, PaneIds, HasPane, ViewFits, LayoutsPartition;
    PaneViewed(g, pane, s);
  }

  ghost predicate ViewShrinks(view: View, seen: View, left: Window, pane: PaneId) {
    && (view.focused != pane ==> seen.focused == view.focused)
    && (view.focused == pane && view.history == [] ==> seen.focused == left.activePane)
    && (view.focused == pane && view.history != [] && view.history[|view.history| - 1] in PaneIds(left.layout) ==>
          seen.focused == view.history[|view.history| - 1])
    && seen.zoomed == (if view.zoomed == pane || |PaneIds(left.layout)| <= 1 then NONE else view.zoomed)
  }

  lemma {:induction false} RemovalView(view: View, layout: LayoutNode, removal: Removal, pane: PaneId)
    requires ViewFits(view, layout) && removal.layout.Some?
    requires multiset(PaneIds(removal.layout.value)) + multiset{pane} == multiset(PaneIds(layout))
    ensures ViewShrinks(view, ViewAfter(view, removal.layout.value, pane, removal.focused), Window(removal.layout.value, removal.focused), pane)
  {
    var left := removal.layout.value;
    hide KeptIn, PaneIds;
    if view.focused != pane {
      assert view.focused in multiset(PaneIds(left)) + multiset{pane};
    } else {
      LastKept(view.history, pane, left);
    }
  }

  lemma {:induction false} LastKept(history: seq<PaneId>, drop: PaneId, layout: LayoutNode)
    ensures history == [] ==> KeptIn(history, drop, layout) == []
    ensures history != [] && history[|history| - 1] != drop && HasPane(layout, history[|history| - 1]) ==>
              var kept := KeptIn(history, drop, layout); kept != [] && kept[|kept| - 1] == history[|history| - 1]
  {
  }

  lemma {:induction false} FocusedPane(v: View, pane: PaneId)
    ensures Focused(v, pane).focused == pane && Focused(v, pane).zoomed == v.zoomed
  {
  }

  lemma {:induction false} SplitGraph(windows: map<WindowId, Window>, panes: map<PaneId, WindowId>, w: WindowId,
                                             target: PaneId, pane: PaneId, axis: Axis)
    requires LayoutsPartition(windows, panes) && w in windows && pane !in panes && pane != NONE && HasPane(windows[w].layout, target)
    ensures var split := ReplacePaneWithSplit(windows[w].layout, target, pane, axis);
            && split.replaced && LayoutsPartition(windows[w := Window(split.layout, pane)], panes[pane := w])
            && (forall p :: HasPane(split.layout, p) <==> HasPane(windows[w].layout, p) || p == pane)
            && RemovePaneFromLayout(split.layout, pane) == Removal(Some(windows[w].layout), target, true)
  {
    hide Distinct, PaneIds, ReplacePaneWithSplit, RemovePaneFromLayout;
    var layout := windows[w].layout;
    SplitAdds(layout, target, pane, axis);
    var split := ReplacePaneWithSplit(layout, target, pane, axis);
    assert !HasPane(layout, pane);
    SplitThenRemove(layout, target, pane, axis);
    forall p ensures HasPane(split.layout, p) <==> HasPane(layout, p) || p == pane {
      assert p in multiset(PaneIds(split.layout)) <==> p in multiset(PaneIds(layout)) || p == pane;
    }
    StillDistinct(PaneIds(layout), PaneIds(split.layout), pane);
  }

  lemma {:induction false} StillDistinct(ids: seq<PaneId>, more: seq<PaneId>, pane: PaneId)
    requires Distinct(ids) && pane !in ids && multiset(more) == multiset(ids) + multiset{pane}
    ensures Distinct(more)
  {
    OneMore(ids, pane);
    assert multiset(ids + [pane]) == multiset(more);
    DistinctPermuted(ids + [pane], more);
  }

  /** A member whose window only gained a pane still mirrors the group. */
  lemma {:induction false} MirrorsGrow(m: Member, windows: map<WindowId, Window>, panes: map<PaneId, WindowId>, w: WindowId,
                                              window: Window, pane: PaneId)
    requires Mirrors(m, windows, panes) && w in windows
    requires forall p :: HasPane(windows[w].layout, p) ==> HasPane(window.layout, p)
    ensures Mirrors(m.(panes := m.panes + {pane}), windows[w := window], panes[pane := w])
  {
    hide HasPane, ViewOk;
  }

  lemma {:induction false} SameHistory(a: View, b: View)
    requires ViewOk(a) && a.history == b.history && a.focused == b.focused
    ensures ViewOk(b)
  {
  }

  lemma {:induction false} OnlyPane(windows: map<WindowId, Window>, panes: map<PaneId, WindowId>, w: WindowId, pane: PaneId)
    requires LayoutsPartition(windows, panes) && pane in panes && panes[pane] == w && |PaneIds(windows[w].layout)| <= 1
    ensures (set p | p in panes && panes[p] == w) == {pane}
  {
    hide Distinct;
    forall p | p in panes && panes[p] == w ensures p == pane {
      assert HasPane(windows[w].layout, p) && HasPane(windows[w].layout, pane);
    }
  }

  lemma {:induction false} RemovalGraph(windows: map<WindowId, Window>, panes: map<PaneId, WindowId>, w: WindowId, pane: PaneId)
    requires LayoutsPartition(windows, panes) && pane in panes && panes[pane] == w && |PaneIds(windows[w].layout)| > 1
    ensures var removal := RemovePaneFromLayout(windows[w].layout, pane);
            && removal.removed && removal.layout.Some?
            && LayoutsPartition(windows[w := Window(removal.layout.value, removal.focused)], panes - {pane})
            && HasPane(removal.layout.value, removal.focused)
            && (forall p :: HasPane(removal.layout.value, p) <==> HasPane(windows[w].layout, p) && p != pane)
  {
    hide Distinct, PaneIds, RemovePaneFromLayout;
    var layout := windows[w].layout;
    RemovalTakes(layout, pane);
    var left := RemovePaneFromLayout(layout, pane).layout.value;
    FewerDistinct(PaneIds(layout), PaneIds(left), pane);
    forall p ensures HasPane(left, p) <==> HasPane(layout, p) && p != pane {
      assert p in PaneIds(left) <==> p in PaneIds(layout) && p != pane;
    }
  }

  lemma {:induction false} FewerDistinct(ids: seq<PaneId>, left: seq<PaneId>, pane: PaneId)
    requires Distinct(ids) && multiset(left) + multiset{pane} == multiset(ids)
    ensures Distinct(left) && forall p :: p in left <==> p in ids && p != pane
  {
    assert multiset(left + [pane]) == multiset(ids);
    DistinctPermuted(ids, left + [pane]);
    PartsDistinct(left, [pane]);
    DistinctApart(left, [pane], pane);
    forall p ensures p in left <==> p in ids && p != pane {
      assert p in multiset(left) + multiset{pane} <==> p in multiset(ids);
    }
  }

  lemma {:induction false} MirrorsShrink(m: Member, windows: map<WindowId, Window>, panes: map<PaneId, WindowId>, w: WindowId,
                                                window: Window, pane: PaneId, view: View)
    requires Mirrors(m, windows, panes) && w in windows && ViewFits(view, window.layout)
    ensures Mirrors(m.(panes := m.panes - {pane}, views := m.views[w := view]), windows[w := window], panes - {pane})
  {
    hide HasPane, ViewOk;
  }

  // ------------------------------------------------- what each operation leaves

  function Joined(g: Graph, s: SessionId): Graph {
    var views := map w | w in g.windows :: View(g.windows[w].activePane, NONE, []);
    g.(members := g.members[s := Member(g.windows.Keys, g.panes.Keys, views)])
  }

  function WithWindow(m: Member, w: WindowId, pane: PaneId): Member {
    Member(m.windows + {w}, m.panes + {pane}, m.views[w := View(pane, NONE, [])])
  }

  function Created(g: Graph, w: WindowId, pane: PaneId): Graph {
    Graph(g.windows[w := Window(PaneNode(pane), pane)], g.panes[pane := w],
          map s | s in g.members :: WithWindow(g.members[s], w, pane))
  }

  function WithoutWindow(g: Graph, w: WindowId): Graph {
    var gone := set p | p in g.panes && g.panes[p] == w;
    Graph(g.windows - {w}, g.panes - gone,
          map s | s in g.members :: Member(g.members[s].windows - {w}, g.members[s].panes - gone, g.members[s].views - {w}))
  }

  function SplitAt(g: Graph, s: SessionId, w: WindowId, pane: PaneId, axis: Axis): Graph
    requires s in g.members && w in g.windows && w in g.members[s].views
  {
    var view := g.members[s].views[w];
    var layout := ReplacePaneWithSplit(g.windows[w].layout, view.focused, pane, axis).layout;
    Graph(g.windows[w := Window(layout, pane)], g.panes[pane := w],
          map t | t in g.members ::
            g.members[t].(panes := g.members[t].panes + {pane},
                          views := if t == s then g.members[t].views[w := Focused(view.(zoomed := NONE), pane)] else g.members[t].views))
  }

  function WithView(g: Graph, s: SessionId, w: WindowId, view: View): Graph
    requires s in g.members
  {
    g.(members := g.members[s := g.members[s].(views := g.members[s].views[w := view])])
  }

  function Unzoomed(view: View, pane: PaneId): View {
    if view.zoomed != NONE && view.zoomed != pane then view.(zoomed := NONE) else view
  }

  /** A session focuses a pane; outside a group the window remembers it too. */
  function FocusedIn(g: Graph, s: SessionId, w: WindowId, pane: PaneId, grouped: bool): Graph
    requires s in g.members && w in g.windows && w in g.members[s].views
  {
    var seen := WithView(g, s, w, Focused(Unzoomed(g.members[s].views[w], pane), pane));
    if grouped then seen else seen.(windows := seen.windows[w := seen.windows[w].(activePane := pane)])
  }

  /** The pane before or after the focused one, in the order the panes are placed. */
  function SwapTarget(order: seq<PaneId>, focused: PaneId, next: bool): (target: Option<PaneId>)
    ensures target.Some? ==> target.value in order
  {
    if |order| < 2 || focused !in order then None
    else Some(order[(IndexOf(order, focused) + if next then 1 else |order| - 1) % |order|])
  }

  /** The neighbour after a pane or before it, the ends of the order being neighbours
      too; and going on and back is staying. */
  lemma {:induction false} SwapNeighbours(order: seq<PaneId>, c: nat)
    requires Distinct(order) && |order| >= 2 && c < |order|
    ensures SwapTarget(order, order[c], true) == Some(if c + 1 < |order| then order[c + 1] else order[0])
    ensures SwapTarget(order, order[c], false) == Some(if c > 0 then order[c - 1] else order[|order| - 1])
    ensures SwapTarget(order, SwapTarget(order, order[c], true).value, false) == Some(order[c])
  {
    var next := if c + 1 < |order| then c + 1 else 0;
    assert IndexOf(order, order[c]) == c && IndexOf(order, order[next]) == next;
    hide IndexOf, Distinct;
    Wrapped(c, |order|);
    Wrapped(next, |order|);
  }

  lemma {:induction false} Wrapped(c: nat, n: nat)
    requires c < n
    ensures (c + 1) % n == (if c + 1 < n then c + 1 else 0) && (c + (n - 1)) % n == if c > 0 then c - 1 else n - 1
  {
    assert c > 0 ==> c + (n - 1) == (c - 1) + n;
  }

  /** A session's zoom ends, and its focused pane changes places with a neighbour. */
  function Swapped(g: Graph, s: SessionId, w: WindowId, order: seq<PaneId>, next: bool): Graph
    requires s in g.members && w in g.windows && w in g.members[s].views
  {
    var view := g.members[s].views[w].(zoomed := NONE);
    var calm := WithView(g, s, w, view);
    match SwapTarget(order, view.focused, next)
    case None => calm
    case Some(target) => WithLayout(calm, w, SwapLayoutPanes(g.windows[w].layout, view.focused, target).layout)
  }

  function WithLayout(g: Graph, w: WindowId, layout: LayoutNode): Graph
    requires w in g.windows
  {
    g.(windows := g.windows[w := g.windows[w].(layout := layout)])
  }

  function ShrunkMember(m: Member, w: WindowId, pane: PaneId, layout: LayoutNode, fallback: PaneId): Member {
    m.(panes := m.panes - {pane},
       views := if w in m.views then m.views[w := ViewAfter(m.views[w], layout, pane, fallback)] else m.views)
  }

  function WithoutPane(g: Graph, pane: PaneId): Graph
    requires pane in g.panes && g.panes[pane] in g.windows
  {
    var w := g.panes[pane];
    var removal := RemovePaneFromLayout(g.windows[w].layout, pane);
    if |PaneIds(g.windows[w].layout)| <= 1 || removal.layout.None? then WithoutWindow(g, w)
    else
      Graph(g.windows[w := Window(removal.layout.value, removal.focused)], g.panes - {pane},
            map s | s in g.members :: ShrunkMember(g.members[s], w, pane, removal.layout.value, removal.focused))
  }

  // ----------------------------------------------------- and that it is sound

  lemma {:induction false} FreshView(pane: PaneId, layout: LayoutNode)
    requires HasPane(layout, pane)
    ensures ViewFits(View(pane, NONE, []), layout)
  {
  }

  lemma {:induction false} JoinKeeps(g: Graph, s: SessionId)
    requires GraphOk(g)
    ensures GraphOk(Joined(g, s))
  {
    hide HasPane, Distinct, ViewOk, ViewFits;
    var after := Joined(g, s);
    forall w | w in g.windows ensures ViewFits(after.members[s].views[w], g.windows[w].layout) {
      FreshView(g.windows[w].activePane, g.windows[w].layout);
    }
    forall t | t in after.members && t != s ensures Mirrors(after.members[t], after.windows, after.panes) {
      assert Mirrors(g.members[t], g.windows, g.panes);
    }
  }

  lemma {:induction false} CreateKeeps(g: Graph, w: WindowId, pane: PaneId)
    requires GraphOk(g) && w !in g.windows && pane !in g.panes && pane != NONE
    ensures GraphOk(Created(g, w, pane))
  {
    hide ViewOk, ViewFits, Distinct, LayoutsPartition;
    var after := Created(g, w, pane);
    CreatedLayouts(g.windows, g.panes, w, pane);
    FreshView(pane, PaneNode(pane));
    forall s | s in after.members ensures Mirrors(after.members[s], after.windows, after.panes) {
      assert Mirrors(g.members[s], g.windows, g.panes);
    }
  }

  lemma {:induction false} CreatedLayouts(windows: map<WindowId, Window>, panes: map<PaneId, WindowId>, w: WindowId, pane: PaneId)
    requires LayoutsPartition(windows, panes) && w !in windows && pane !in panes && pane != NONE
    ensures LayoutsPartition(windows[w := Window(PaneNode(pane), pane)], panes[pane := w])
  {
    assert PaneIds(PaneNode(pane)) == [pane];
    hide PaneIds;
  }

  lemma {:induction false} RemoveWindowKeeps(g: Graph, w: WindowId)
    requires GraphOk(g)
    ensures GraphOk(WithoutWindow(g, w))
  {
    hide HasPane, Distinct, ViewOk;
    var after := WithoutWindow(g, w);
    forall s | s in after.members ensures Mirrors(after.members[s], after.windows, after.panes) {
      assert Mirrors(g.members[s], g.windows, g.panes);
    }
  }

  lemma {:induction false} SplitKeeps(g: Graph, s: SessionId, w: WindowId, pane: PaneId, axis: Axis)
    requires GraphOk(g) && s in g.members && w in g.windows && pane !in g.panes && pane != NONE
    ensures w in g.members[s].views && GraphOk(SplitAt(g, s, w, pane, axis))
    ensures var target := g.members[s].views[w].focused;
            RemovePaneFromLayout(SplitAt(g, s, w, pane, axis).windows[w].layout, pane) == Removal(Some(g.windows[w].layout), target, true)
  {
    hide PaneIds, HasPane, Distinct, Focused, ReplacePaneWithSplit, RemovePaneFromLayout, ViewOk, LayoutsPartition;
    assert Mirrors(g.members[s], g.windows, g.panes);
    var view := g.members[s].views[w];
    assert ViewFits(view, g.windows[w].layout);
    SplitGraph(g.windows, g.panes, w, view.focused, pane, axis);
    var layout := ReplacePaneWithSplit(g.windows[w].layout, view.focused, pane, axis).layout;
    var after := SplitAt(g, s, w, pane, axis);
    SameHistory(view, view.(zoomed := NONE));
    FocusedOk(view.(zoomed := NONE), pane);
    FocusedPane(view.(zoomed := NONE), pane);
    forall t | t in after.members ensures Mirrors(after.members[t], after.windows, after.panes) {
      assert Mirrors(g.members[t], g.windows, g.panes);
      MirrorsGrow(g.members[t], g.windows, g.panes, w, Window(layout, pane), pane);
      if t == s {
        MirrorsView(g.members[t].(panes := g.members[t].panes + {pane}), after.windows, after.panes, w, Focused(view.(zoomed := NONE), pane));
      }
    }
  }

  lemma {:induction false} MirrorsView(m: Member, windows: map<WindowId, Window>, panes: map<PaneId, WindowId>, w: WindowId, view: View)
    requires Mirrors(m, windows, panes) && w in windows && ViewFits(view, windows[w].layout)
    ensures Mirrors(m.(views := m.views[w := view]), windows, panes)
  {
    hide ViewFits;
  }

  lemma {:induction false} ViewKeeps(g: Graph, s: SessionId, w: WindowId, view: View)
    requires GraphOk(g) && s in g.members && w in g.windows && ViewFits(view, g.windows[w].layout)
    ensures GraphOk(WithView(g, s, w, view))
  {
    hide ViewFits, LayoutsPartition;
    MirrorsView(g.members[s], g.windows, g.panes, w, view);
  }

  lemma {:induction false} RemovePaneKeeps(g: Graph, pane: PaneId)
    requires GraphOk(g) && pane in g.panes
    ensures g.panes[pane] in g.windows && GraphOk(WithoutPane(g, pane)) && WithoutPane(g, pane).panes == g.panes - {pane}
  {
    hide PaneIds, HasPane, Distinct, ViewOk, RemovePaneFromLayout, ViewAfter;
    var w := g.panes[pane];
    if |PaneIds(g.windows[w].layout)| <= 1 {
      OnlyPane(g.windows, g.panes, w, pane);
      RemoveWindowKeeps(g, w);
    } else {
      RemovalGraph(g.windows, g.panes, w, pane);
      var removal := RemovePaneFromLayout(g.windows[w].layout, pane);
      var after := WithoutPane(g, pane);
      forall s | s in after.members ensures Mirrors(after.members[s], after.windows, after.panes) {
        MemberShrinks(g, s, w, pane, removal);
      }
    }
  }

  lemma {:induction false} MemberShrinks(g: Graph, s: SessionId, w: WindowId, pane: PaneId, removal: Removal)
    requires GraphOk(g) && s in g.members && w in g.windows && removal.layout.Some?
    requires HasPane(removal.layout.value, removal.focused)
    requires forall p :: HasPane(removal.layout.value, p) <==> HasPane(g.windows[w].layout, p) && p != pane
    ensures Mirrors(ShrunkMember(g.members[s], w, pane, removal.layout.value, removal.focused),
                    g.windows[w := Window(removal.layout.value, removal.focused)], g.panes - {pane})
  {
    hide PaneIds, HasPane, Distinct, ViewOk, ViewAfter, LayoutsPartition;
    var m := g.members[s];
    assert Mirrors(m, g.windows, g.panes);
    assert ViewFits(m.views[w], g.windows[w].layout);
    RepairedFits(m.views[w], g.windows[w].layout, removal.layout.value, pane, removal.focused);
    MirrorsShrink(m, g.windows, g.panes, w, Window(removal.layout.value, removal.focused), pane,
                  ViewAfter(m.views[w], removal.layout.value, pane, removal.focused));
  }

  lemma {:induction false} RepairedFits(view: View, before: LayoutNode, layout: LayoutNode, pane: PaneId, fallback: PaneId)
    requires ViewFits(view, before) && HasPane(layout, fallback)
    requires forall p :: HasPane(layout, p) <==> HasPane(before, p) && p != pane
    ensures ViewFits(ViewAfter(view, layout, pane, fallback), layout)
  {
    hide PaneIds, HasPane, Distinct, ViewOk, Unfocused;
    var unzoomed := if |PaneIds(layout)| <= 1 || view.zoomed == pane then view.(zoomed := NONE) else view;
    SameHistory(view, unzoomed);
    UnfocusedOk(unzoomed, layout, pane, fallback);
  }

  // ------------------------------------------------------------------ every run

  datatype GraphEvent =
    | Join(session: SessionId)
    | Create(window: WindowId, pane: PaneId)
    | SplitPane(session: SessionId, window: WindowId, pane: PaneId, axis: Axis)
    | Focus(session: SessionId, window: WindowId, pane: PaneId, grouped: bool)
    | Swap(session: SessionId, window: WindowId, order: seq<PaneId>, next: bool)
    | Zoom(session: SessionId, window: WindowId)
    | ClosePane(pane: PaneId)
    | CloseWindow(window: WindowId)

  function Toggled(view: View): View {
    view.(zoomed := if view.zoomed != NONE then NONE else view.focused)
  }

  /** One operation; refused, it changes nothing. */
  function Applied(g: Graph, e: GraphEvent): Graph {
    match e
    case Join(s) => if s in g.members then g else Joined(g, s)
    case Create(w, pane) => if w in g.windows || pane in g.panes || pane == NONE then g else Created(g, w, pane)
    case SplitPane(s, w, pane, axis) =>
      if s !in g.members || w !in g.windows || w !in g.members[s].views || pane in g.panes || pane == NONE
         || |PaneIds(g.windows[w].layout)| >= MAX_VISIBLE_PANES then g
      else SplitAt(g, s, w, pane, axis)
    case Focus(s, w, pane, grouped) =>
      if s !in g.members || w !in g.windows || w !in g.members[s].views || !HasPane(g.windows[w].layout, pane) then g
      else FocusedIn(g, s, w, pane, grouped)
    case Swap(s, w, order, next) =>
      if s !in g.members || w !in g.windows || w !in g.members[s].views then g else Swapped(g, s, w, order, next)
    case Zoom(s, w) =>
      if s !in g.members || w !in g.windows || w !in g.members[s].views || |PaneIds(g.windows[w].layout)| <= 1 then g
      else WithView(g, s, w, Toggled(g.members[s].views[w]))
    case ClosePane(pane) => if pane !in g.panes || g.panes[pane] !in g.windows then g else WithoutPane(g, pane)
    case CloseWindow(w) => WithoutWindow(g, w)
  }

  lemma {:induction false} FocusKeeps(g: Graph, s: SessionId, w: WindowId, pane: PaneId, grouped: bool)
    requires GraphOk(g) && s in g.members && w in g.windows && HasPane(g.windows[w].layout, pane)
    ensures w in g.members[s].views && GraphOk(FocusedIn(g, s, w, pane, grouped))
  {
    hide GraphOk, HasPane, PaneIds, ViewOk, Focused;
    Group.SplitView(g, s, w);
    var view := g.members[s].views[w];
    SameHistory(view, Unzoomed(view, pane));
    FocusedOk(Unzoomed(view, pane), pane);
    FocusedPane(Unzoomed(view, pane), pane);
    ViewKeeps(g, s, w, Focused(Unzoomed(view, pane), pane));
    WindowKeeps(WithView(g, s, w, Focused(Unzoomed(view, pane), pane)), w, g.windows[w].(activePane := pane));
  }

  /** A window whose panes are the same, in another order or with another one active. */
  lemma {:induction false} WindowKeeps(g: Graph, w: WindowId, window: Window)
    requires GraphOk(g) && w in g.windows
    requires window.layout == g.windows[w].layout || DistinctPanes(window.layout)
    requires forall p :: HasPane(window.layout, p) <==> HasPane(g.windows[w].layout, p)
    requires HasPane(window.layout, window.activePane)
    ensures GraphOk(g.(windows := g.windows[w := window]))
  {
    hide HasPane, Distinct, ViewOk;
    var after := g.(windows := g.windows[w := window]);
    forall s | s in after.members ensures Mirrors(after.members[s], after.windows, after.panes) {
      assert Mirrors(g.members[s], g.windows, g.panes);
    }
  }

  lemma {:induction false} SwapKeeps(g: Graph, s: SessionId, w: WindowId, order: seq<PaneId>, next: bool)
    requires GraphOk(g) && s in g.members && w in g.windows
    ensures w in g.members[s].views && GraphOk(Swapped(g, s, w, order, next))
  {
    hide GraphOk, HasPane, PaneIds, ViewOk, SwapTarget, SwapLayoutPanes, Distinct;
    Group.SplitView(g, s, w);
    var view := g.members[s].views[w].(zoomed := NONE);
    SameHistory(g.members[s].views[w], view);
    ViewKeeps(g, s, w, view);
    var target := SwapTarget(order, view.focused, next);
    if target.Some? {
      Group.GraphLayouts(g);
      SwapTwice(g.windows[w].layout, view.focused, target.value);
      var layout := SwapLayoutPanes(g.windows[w].layout, view.focused, target.value).layout;
      WindowKeeps(WithView(g, s, w, view), w, g.windows[w].(layout := layout));
    }
  }

  lemma {:induction false} ViewEventKeeps(g: Graph, e: GraphEvent)
    requires GraphOk(g) && (e.Focus? || e.Zoom? || e.Swap?)
    ensures GraphOk(Applied(g, e))
  {
    hide GraphOk, HasPane, PaneIds, ViewOk, Focused, Swapped, FocusedIn;
    if e.session in g.members && e.window in g.windows {
      if e.Zoom? {
        Group.SplitView(g, e.session, e.window);
        var view := g.members[e.session].views[e.window];
        SameHistory(view, Toggled(view));
        ViewKeeps(g, e.session, e.window, Toggled(view));
      } else if e.Swap? {
        SwapKeeps(g, e.session, e.window, e.order, e.next);
      } else if HasPane(g.windows[e.window].layout, e.pane) {
        FocusKeeps(g, e.session, e.window, e.pane, e.grouped);
      }
    }
  }

  lemma {:induction false} EventKeeps(g: Graph, e: GraphEvent)
    requires GraphOk(g)
    ensures GraphOk(Applied(g, e))
  {
    hide GraphOk, Joined, Created, SplitAt, WithoutPane, WithoutWindow, WithView, FocusedIn, Swapped, HasPane, PaneIds;
    match e
    case Join(s) => JoinKeeps(g, s);
    case Create(w, pane) => if w !in g.windows && pane !in g.panes && pane != NONE { CreateKeeps(g, w, pane); }
    case SplitPane(s, w, pane, axis) =>
      if s in g.members && w in g.windows && pane !in g.panes && pane != NONE { SplitKeeps(g, s, w, pane, axis); }
    case ClosePane(pane) => if pane in g.panes { RemovePaneKeeps(g, pane); }
    case CloseWindow(w) => RemoveWindowKeeps(g, w);
    case _ => ViewEventKeeps(g, e);
  }

  function Run(events: seq<GraphEvent>): Graph {
    if events == [] then Graph(map[], map[], map[])
    else Applied(Run(events[..|events| - 1]), events[|events| - 1])
  }

  /** In every run the layouts partition the group's panes, and every member mirrors
      the group and looks only at panes that are there. */
  lemma {:induction false} RunKeepsGraph(events: seq<GraphEvent>)
    ensures GraphOk(Run(events))
    decreases |events|
  {
    hide Applied;
    if events != [] {
      RunKeepsGraph(events[..|events| - 1]);
      EventKeeps(Run(events[..|events| - 1]), events[|events| - 1]);
    }
  }

  /** The daemon's group: its maps, changed in place. */
  class Group {
    var windows: map<WindowId, Window>
    var panes: map<PaneId, WindowId>
    var members: map<SessionId, Member>

    function State(): Graph
      reads this
    {
      Graph(windows, panes, members)
    }

    ghost predicate Valid()
      reads this
    {
      GraphOk(State())
    }

    constructor ()
      ensures Valid() && State() == Graph(map[], map[], map[])
    {
      windows, panes, members := map[], map[], map[];
    }

    /** `addSession`: a new member mirrors the group and sees each window's active pane. */
    method AddSession(s: SessionId)
      requires Valid() && s !in members
      modifies this
      ensures Valid() && State() == Joined(old(State()), s)
      ensures s in members && members[s].views.Keys == windows.Keys
      ensures forall w :: w in windows ==> members[s].views[w] == View(windows[w].activePane, NONE, [])
    {
      hide GraphOk;
      JoinKeeps(State(), s);
      var views := map w | w in windows :: View(windows[w].activePane, NONE, []);
      members := members[s := Member(windows.Keys, panes.Keys, views)];
    }

    /** `createWindowNow` with `addWindowToGroupNow`. */
    method CreateWindow(w: WindowId, pane: PaneId) returns (ok: bool)
      requires Valid() && w !in windows && pane != NONE
      modifies this
      ensures Valid() && (ok <==> pane !in old(panes))
      ensures State() == if ok then Created(old(State()), w, pane) else old(State())
    {
      hide GraphOk;
      if pane in panes {
        return false;
      }
      CreateKeeps(State(), w, pane);
      windows := windows[w := Window(PaneNode(pane), pane)];
      panes := panes[pane := w];
      members := map s | s in members :: WithWindow(members[s], w, pane);
      ok := true;
    }

    /** `splitFocusedPaneNow` on a session's active window: the new pane stands beside
        the focused one and takes this session's focus; closing it would give the
        layout and the focus back. */
    method SplitFocusedPane(s: SessionId, w: WindowId, pane: PaneId, axis: Axis) returns (ok: bool)
      requires Valid() && s in members && pane != NONE && pane !in panes
      modifies this
      ensures Valid()
      ensures ok <==> w in old(windows) && |PaneIds(old(windows)[w].layout)| < MAX_VISIBLE_PANES
      ensures !ok ==> State() == old(State())
      ensures ok ==> w in old(members)[s].views && State() == SplitAt(old(State()), s, w, pane, axis)
      ensures ok ==>
                && s in members && w in members[s].views && members[s].views[w].focused == pane && members[s].views[w].zoomed == NONE
                && (forall t :: t in members && t != s ==> members[t].views == old(members)[t].views)
                && w in windows && windows[w].activePane == pane && HasPane(old(windows)[w].layout, old(members)[s].views[w].focused)
                && PlacedAfter(old(windows)[w].layout, windows[w].layout, old(members)[s].views[w].focused, pane, axis)
      ensures ok ==> w in windows
                     && RemovePaneFromLayout(windows[w].layout, pane)
                        == Removal(Some(old(windows)[w].layout), old(members)[s].views[w].focused, true)
    {
      hide GraphOk, PaneIds, Focused, ReplacePaneWithSplit, RemovePaneFromLayout, ViewOk, PlacedAfter, HasPane;
      if w !in windows || |PaneIds(windows[w].layout)| >= MAX_VISIBLE_PANES {
        return false;
      }
      SplitKeeps(State(), s, w, pane, axis);
      SplitView(State(), s, w);
      var view := members[s].views[w];
      SplitInPlace(windows[w].layout, view.focused, pane, axis);
      FocusedPane(view.(zoomed := NONE), pane);
      var split := ReplacePaneWithSplit(windows[w].layout, view.focused, pane, axis);
      var focused := FocusPane(view.(zoomed := NONE), pane);
      windows := windows[w := Window(split.layout, pane)];
      panes := panes[pane := w];
      members := map t | t in members ::
        members[t].(panes := members[t].panes + {pane}, views := if t == s then members[t].views[w := focused] else members[t].views);
      assert State() == SplitAt(old(State()), s, w, pane, axis);
      ok := true;
    }

    static lemma {:induction false} SplitView(g: Graph, s: SessionId, w: WindowId)
      requires GraphOk(g) && s in g.members && w in g.windows
      ensures w in g.members[s].views && ViewFits(g.members[s].views[w], g.windows[w].layout)
      ensures ViewOk(g.members[s].views[w]) && ViewOk(g.members[s].views[w].(zoomed := NONE))
    {
      assert Mirrors(g.members[s], g.windows, g.panes);
    }

    /** `focusPaneNow` on a session's active window; a session outside any group also
        sets the window's own active pane. */
    method FocusPaneIn(s: SessionId, w: WindowId, pane: PaneId, grouped: bool) returns (ok: bool)
      requires Valid() && s in members
      modifies `members, `windows
      ensures Valid()
      ensures ok <==> w in old(windows) && HasPane(old(windows)[w].layout, pane)
      ensures !ok ==> State() == old(State())
      ensures ok ==> w in old(members)[s].views && State() == FocusedIn(old(State()), s, w, pane, grouped)
    {
      hide GraphOk, HasPane, Focused, ViewOk;
      if w !in windows || !HasPane(windows[w].layout, pane) {
        return false;
      }
      FocusKeeps(State(), s, w, pane, grouped);
      SplitView(State(), s, w);
      var view := members[s].views[w];
      if view.zoomed != NONE && view.zoomed != pane {
        view := view.(zoomed := NONE);
      }
      var focused := FocusPane(view, pane);
      members := members[s := members[s].(views := members[s].views[w := focused])];
      if !grouped {
        windows := windows[w := windows[w].(activePane := pane)];
      }
      ok := true;
    }

    /** `swapFocusedPaneNow` on a session's active window: its zoom ends even when there
        is nothing to swap with. */
    method SwapFocusedPane(s: SessionId, w: WindowId, order: seq<PaneId>, next: bool) returns (swapped: bool)
      requires Valid() && s in members && w in windows
      modifies `members, `windows
      ensures Valid()
      ensures w in old(members)[s].views && State() == Swapped(old(State()), s, w, order, next)
      ensures swapped ==>
                && w in windows
                && var before, view := old(windows)[w].layout, old(members)[s].views[w];
                   exists target :: target in order && SwapLayoutPanes(before, view.focused, target) == Replacement(windows[w].layout, true)
    {
      hide GraphOk, HasPane, PaneIds, SwapLayoutPanes, ViewOk;
      SwapKeeps(State(), s, w, order, next);
      var view := members[s].views[w].(zoomed := NONE);
      members := members[s := members[s].(views := members[s].views[w := view])];
      var target := SwapTarget(order, view.focused, next);
      if target.None? {
        return false;
      }
      var swap := SwapLayoutPanes(windows[w].layout, view.focused, target.value);
      windows := windows[w := windows[w].(layout := swap.layout)];
      swapped := swap.replaced;
    }

    /** `toggleZoomNow` on a session's active window: zooms the focused pane or none. */
    method ToggleZoom(s: SessionId, w: WindowId) returns (ok: bool)
      requires Valid() && s in members && w in windows
      modifies `members
      ensures Valid()
      ensures ok <==> |PaneIds(windows[w].layout)| > 1
      ensures !ok ==> State() == old(State())
      ensures ok ==>
                w in old(members)[s].views &&
                var view := old(members)[s].views[w];
                State() == WithView(old(State()), s, w, view.(zoomed := if view.zoomed != NONE then NONE else view.focused))
    {
      hide GraphOk, HasPane, PaneIds, ViewOk;
      if |PaneIds(windows[w].layout)| <= 1 {
        return false;
      }
      SplitView(State(), s, w);
      var view := members[s].views[w];
      var toggled := view.(zoomed := if view.zoomed != NONE then NONE else view.focused);
      SameHistory(view, toggled);
      ViewKeeps(State(), s, w, toggled);
      members := members[s := members[s].(views := members[s].views[w := toggled])];
      ok := true;
    }

    /** `removeGroupWindowNow`: the window, its panes, and every member's view of it. */
    method RemoveWindow(w: WindowId) returns (gone: set<PaneId>)
      requires Valid()
      modifies this
      ensures Valid() && State() == WithoutWindow(old(State()), w)
      ensures gone == set p | p in old(panes) && old(panes)[p] == w
    {
      hide GraphOk;
      RemoveWindowKeeps(State(), w);
      gone := set p | p in panes && panes[p] == w;
      members := map s | s in members :: Member(members[s].windows - {w}, members[s].panes - gone, members[s].views - {w});
      panes := panes - gone;
      windows := windows - {w};
    }

    /** `removeGroupPaneNow`: the last pane of a window takes the window with it;
        otherwise every member's focus and zoom stay in what is left. */
    method RemovePane(pane: PaneId) returns (ok: bool)
      requires Valid()
      modifies this
      ensures Valid() && (ok <==> pane in old(panes))
      ensures !ok ==> State() == old(State())
      ensures ok ==> old(panes)[pane] in old(windows) && State() == WithoutPane(old(State()), pane) && panes == old(panes) - {pane}
    {
      hide GraphOk, PaneIds, RemovePaneFromLayout, ViewAfter;
      if pane !in panes {
        return false;
      }
      RemovePaneKeeps(State(), pane);
      ok := true;
      var w := panes[pane];
      var removal := RemovePaneFromLayout(windows[w].layout, pane);
      if |PaneIds(windows[w].layout)| <= 1 || removal.layout.None? {
        var gone := RemoveWindow(w);
        return;
      }
      var repaired := RepairMembers(w, pane, removal);
      members := repaired;
      panes := panes - {pane};
      windows := windows[w := Window(removal.layout.value, removal.focused)];
      assert State() == WithoutPane(old(State()), pane);
    }

    /** Every member, in any order. */
    method RepairMembers(w: WindowId, pane: PaneId, removal: Removal) returns (repaired: map<SessionId, Member>)
      requires Valid() && w in windows && pane in panes && panes[pane] == w && |PaneIds(windows[w].layout)| > 1
      requires removal == RemovePaneFromLayout(windows[w].layout, pane) && removal.layout.Some?
      ensures repaired == map s | s in members :: ShrunkMember(members[s], w, pane, removal.layout.value, removal.focused)
    {
      hide GraphOk, PaneIds, HasPane, RemovePaneFromLayout, ViewAfter, ViewOk, LayoutsPartition;
      var layout := removal.layout.value;
      assert LayoutsPartition(windows, panes) by { GraphLayouts(State()); }
      RemovalGraph(windows, panes, w, pane);
      var todo := members.Keys;
      repaired := map[];
      while todo != {}
        invariant todo <= members.Keys && repaired.Keys == members.Keys - todo
        invariant forall s :: s in repaired ==> repaired[s] == ShrunkMember(members[s], w, pane, layout, removal.focused)
        decreases |todo|
      {
        var s :| s in todo;
        todo := todo - {s};
        SplitView(State(), s, w);
        var m := members[s];
        var view := RepairView(m.views[w], layout, pane, removal.focused);
        repaired := repaired[s := m.(panes := m.panes - {pane}, views := m.views[w := view])];
      }
    }

    static lemma {:induction false} GraphLayouts(g: Graph)
      requires GraphOk(g)
      ensures LayoutsPartition(g.windows, g.panes)
    {
    }

    /** One member's view of a window that lost a pane. */
    static method RepairView(view: View, layout: LayoutNode, pane: PaneId, fallback: PaneId) returns (out: View)
      requires ViewOk(view) && !HasPane(layout, pane) && HasPane(layout, fallback)
      ensures out == ViewAfter(view, layout, pane, fallback)
    {
      hide PaneIds, HasPane, Unfocused, ViewOk;
      var unzoomed := view;
      if |PaneIds(layout)| <= 1 || view.zoomed == pane {
        unzoomed := view.(zoomed := NONE);
      }
      SameHistory(view, unzoomed);
      out := RemovePaneFromView(unzoomed, layout, pane, fallback);
    }
  }
}
