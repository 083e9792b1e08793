/** Joining one control stream and many frame streams by layout revision: frames
    wait for their layout, a layout waits for its frames, and every order of
    arrival ends in the same place. */
module Activation {
  import opened Display

  datatype Rect = Rect(x: int, y: int, width: int, height: int)

  datatype Placement = Placement(paneId: nat, slot: nat, rect: Rect)

  datatype ClientLayout = ClientLayout(windowId: nat, revision: nat, panes: seq<Placement>, focused: nat)

  const NO_LAYOUT := ClientLayout(0, 0, [], 0)

  /** A decoded frame; `cols` is zero when its grid is unspecified. */
  datatype Frame<C> = Frame(revision: nat, cols: int, rows: int, content: C)

  predicate Matches<C>(frame: Frame<C>, rect: Rect) {
    frame.cols == 0 || (frame.cols == rect.width && frame.rows == rect.height)
  }

  function PlacementFor(panes: seq<Placement>, slot: nat): Option<Placement> {
    if panes == [] then None
    else if panes[0].slot == slot then Some(panes[0])
    else PlacementFor(panes[1..], slot)
  }

  ghost predicate DistinctSlots(panes: seq<Placement>) {
    forall i, j :: 0 <= i < j < |panes| ==> panes[i].slot != panes[j].slot
  }

  lemma {:induction false} PlacementOf(panes: seq<Placement>, i: nat)
    requires DistinctSlots(panes) && i < |panes|
    ensures PlacementFor(panes, panes[i].slot) == Some(panes[i])
    decreases i
  {
    if i > 0 {
      assert panes[1..][i - 1] == panes[i];
      PlacementOf(panes[1..], i - 1);
    }
  }

  lemma {:induction false} PlacementFound(panes: seq<Placement>, slot: nat)
    ensures var found := PlacementFor(panes, slot);
            if found.Some? then found.value in panes && found.value.slot == slot
            else forall i :: 0 <= i < |panes| ==> panes[i].slot != slot
    decreases |panes|
  {
    if panes != [] && panes[0].slot != slot {
      PlacementFound(panes[1..], slot);
      assert forall i :: 0 < i < |panes| ==> panes[i] == panes[1..][i - 1];
    }
  }

  // -------------------------------------------------------------- the effects

  /** What a slot shows: `empty` makes an empty cache for a placement, `apply` is
      `emitFrame` on it. */
  datatype Effects<!C, !V> = Effects(empty: Rect -> V, apply: (V, C) -> V)

  /** The frames of a slot that fit its placement, in order. */
  function Fitting<C>(frames: seq<Frame<C>>, rect: Rect): seq<Frame<C>> {
    if frames == [] then []
    else Fitting(frames[..|frames| - 1], rect)
           + if Matches(frames[|frames| - 1], rect) then [frames[|frames| - 1]] else []
  }

  lemma {:induction false} FittingAppend<C>(frames: seq<Frame<C>>, frame: Frame<C>, rect: Rect)
    ensures Fitting(frames + [frame], rect) == if Matches(frame, rect) then Fitting(frames, rect) + [frame] else Fitting(frames, rect)
  {
    assert (frames + [frame])[..|frames|] == frames;
  }

  function Emitted<C, V>(effects: Effects<C, V>, view: V, frames: seq<Frame<C>>): V {
    if frames == [] then view
    else effects.apply(Emitted(effects, view, frames[..|frames| - 1]), frames[|frames| - 1].content)
  }

  lemma {:induction false} EmittedAppend<C, V>(effects: Effects<C, V>, view: V, frames: seq<Frame<C>>, frame: Frame<C>)
    ensures Emitted(effects, view, frames + [frame]) == effects.apply(Emitted(effects, view, frames), frame.content)
  {
    assert (frames + [frame])[..|frames|] == frames;
  }

  /** A slot's view once activated with these frames. */
  function SlotView<C, V>(effects: Effects<C, V>, rect: Rect, frames: seq<Frame<C>>): V {
    Emitted(effects, effects.empty(rect), Fitting(frames, rect))
  }

  // ---------------------------------------------------------------- the state

  type SlotFrames<C> = map<nat, seq<Frame<C>>>

  datatype Scanout<C, V> = Scanout(
    layout: ClientLayout, views: map<nat, V>,
    pendingLayouts: map<nat, ClientLayout>, pendingFrames: map<nat, SlotFrames<C>>)

  datatype Outcome<C, V> = Accepted(state: Scanout<C, V>) | Dropped(state: Scanout<C, V>) | Refused

  function FramesAt<C, V>(s: Scanout<C, V>, revision: nat, slot: nat): seq<Frame<C>> {
    if revision in s.pendingFrames && slot in s.pendingFrames[revision] then s.pendingFrames[revision][slot] else []
  }

  predicate AllFitted<C, V>(s: Scanout<C, V>, layout: ClientLayout) {
    forall i :: 0 <= i < |layout.panes| ==>
      Fitting(FramesAt(s, layout.revision, layout.panes[i].slot), layout.panes[i].rect) != []
  }

  function Views<C, V>(effects: Effects<C, V>, s: Scanout<C, V>, layout: ClientLayout): map<nat, V> {
    map slot: nat | slot in SlotsOf(layout.panes) && PlacementFor(layout.panes, slot).Some? ::
      SlotView(effects, PlacementFor(layout.panes, slot).value.rect, FramesAt(s, layout.revision, slot))
  }

  function SlotsOf(panes: seq<Placement>): set<nat> {
    set i | 0 <= i < |panes| :: panes[i].slot
  }

  function Above<T>(m: map<nat, T>, revision: nat): map<nat, T> {
    map r | r in m && r > revision :: m[r]
  }

  /** `tryActivate`. */
  function TryActivate<C, V>(effects: Effects<C, V>, s: Scanout<C, V>, revision: nat): Outcome<C, V> {
    if revision !in s.pendingLayouts then Dropped(s)
    else
      var layout := s.pendingLayouts[revision];
      if !AllFitted(s, layout) then Dropped(s)
      else Accepted(Scanout(layout, Views(effects, s, layout),
                            Above(s.pendingLayouts, revision), Above(s.pendingFrames, revision)))
  }

  predicate SameGeometry(a: ClientLayout, b: ClientLayout) {
    a.windowId == b.windowId && a.panes == b.panes
  }

  /** The same revision and placements; the focus may differ. */
  predicate Alike(a: ClientLayout, b: ClientLayout) {
    a.revision == b.revision && SameGeometry(a, b)
  }

  /** `acceptLayout`. */
  function AcceptLayout<C, V>(effects: Effects<C, V>, s: Scanout<C, V>, layout: ClientLayout): Outcome<C, V> {
    if layout.revision < s.layout.revision then Dropped(s)
    else if layout.revision == s.layout.revision && s.layout.revision != 0 then
      if SameGeometry(s.layout, layout) then Accepted(s.(layout := layout)) else Refused
    else TryActivate(effects, s.(pendingLayouts := s.pendingLayouts[layout.revision := layout]), layout.revision)
  }

  function WithFrame<C, V>(s: Scanout<C, V>, slot: nat, frame: Frame<C>): Scanout<C, V> {
    var bySlot := if frame.revision in s.pendingFrames then s.pendingFrames[frame.revision] else map[];
    s.(pendingFrames := s.pendingFrames[frame.revision := bySlot[slot := FramesAt(s, frame.revision, slot) + [frame]]])
  }

  /** `acceptFrame`. */
  function AcceptFrame<C, V>(effects: Effects<C, V>, s: Scanout<C, V>, slot: nat, frame: Frame<C>): Outcome<C, V> {
    if frame.revision < s.layout.revision then Dropped(s)
    else if frame.revision == s.layout.revision && s.layout.revision != 0 then
      var placement := PlacementFor(s.layout.panes, slot);
      if placement.None? then Refused
      else if !Matches(frame, placement.value.rect) then Dropped(s)
      else if slot !in s.views then Refused
      else Accepted(s.(views := s.views[slot := effects.apply(s.views[slot], frame.content)]))
    else
      var placement := if frame.revision in s.pendingLayouts then PlacementFor(s.pendingLayouts[frame.revision].panes, slot) else None;
      if placement.Some? && !Matches(frame, placement.value.rect) then Dropped(s)
      else TryActivate(effects, WithFrame(s, slot, frame), frame.revision)
  }

  // ------------------------------------------------------------- run invariants

  function After<C, V>(o: Outcome<C, V>, s: Scanout<C, V>): Scanout<C, V> {
    if o.Refused? then s else o.state
  }

  datatype Message<C> = LayoutMessage(layout: ClientLayout) | FrameMessage(slot: nat, frame: Frame<C>)

  function Handle<C, V>(effects: Effects<C, V>, s: Scanout<C, V>, m: Message<C>): Scanout<C, V> {
    match m
    case LayoutMessage(layout) => After(AcceptLayout(effects, s, layout), s)
    case FrameMessage(slot, frame) => After(AcceptFrame(effects, s, slot, frame), s)
  }

  function HandleAll<C, V>(effects: Effects<C, V>, s: Scanout<C, V>, messages: seq<Message<C>>): Scanout<C, V>
    decreases |messages|
  {
    if messages == [] then s
    else Handle(effects, HandleAll(effects, s, messages[..|messages| - 1]), messages[|messages| - 1])
  }

  /** Nothing at or below the active revision is pending (before the first layout
      the active revision is zero), and each pending layout is under its own. */
  ghost predicate NothingStale<C, V>(s: Scanout<C, V>) {
    && (forall r :: r in s.pendingLayouts ==> s.layout.revision <= r && s.pendingLayouts[r].revision == r)
    && (forall r :: r in s.pendingFrames ==> s.layout.revision <= r)
    && (s.layout.revision != 0 ==> s.layout.revision !in s.pendingLayouts && s.layout.revision !in s.pendingFrames)
  }

  lemma {:induction false} HandleKeeps<C, V>(effects: Effects<C, V>, s: Scanout<C, V>, m: Message<C>)
    requires NothingStale(s)
    ensures NothingStale(Handle(effects, s, m))
    ensures s.layout.revision <= Handle(effects, s, m).layout.revision
  {
    hide Views, AllFitted, Fitting, FramesAt;
  }

  function RevisionOf<C>(m: Message<C>): nat {
    match m
    case LayoutMessage(layout) => layout.revision
    case FrameMessage(_, frame) => frame.revision
  }

  /** A message of an earlier revision changes nothing. One of a later revision changes
      what is shown only by activating its own revision. One of the active revision
      leaves the geometry and everything pending alone; a layout then leaves every view
      alone, and a frame the layout and every view but its slot's. */
  lemma {:induction false} MessageReach<C, V>(effects: Effects<C, V>, s: Scanout<C, V>, m: Message<C>)
    requires NothingStale(s) && s.layout.revision != 0
    ensures var t := Handle(effects, s, m);
            && (RevisionOf(m) < s.layout.revision ==> t == s)
            && (RevisionOf(m) > s.layout.revision ==>
                  || (t.layout == s.layout && t.views == s.views)
                  || (t.layout.revision == RevisionOf(m) && RevisionOf(m) !in t.pendingLayouts))
            && (RevisionOf(m) == s.layout.revision ==>
                  && t.layout.revision == s.layout.revision && t.layout.windowId == s.layout.windowId && t.layout.panes == s.layout.panes
                  && t.pendingLayouts == s.pendingLayouts && t.pendingFrames == s.pendingFrames
                  && (m.LayoutMessage? ==> t.views == s.views)
                  && (m.FrameMessage? ==> t.layout == s.layout && t.views.Keys == s.views.Keys
                                          && forall slot :: slot in s.views && slot != m.slot ==> t.views[slot] == s.views[slot]))
  {
    hide Views, AllFitted, Fitting, FramesAt, PlacementFor;
  }

  /** In every run the active revision never decreases and nothing it has passed
      stays pending. */
  lemma {:induction false} RunKeeps<C, V>(effects: Effects<C, V>, s: Scanout<C, V>, messages: seq<Message<C>>)
    requires NothingStale(s)
    ensures NothingStale(HandleAll(effects, s, messages))
    ensures s.layout.revision <= HandleAll(effects, s, messages).layout.revision
    decreases |messages|
  {
    hide Handle, NothingStale;
    if messages != [] {
      RunKeeps(effects, s, messages[..|messages| - 1]);
      HandleKeeps(effects, HandleAll(effects, s, messages[..|messages| - 1]), messages[|messages| - 1]);
    }
  }

  // --------------------------------------------------------------- confluence

  /** The frames of one slot, in the order they came. */
  function FramesOf<C>(messages: seq<Message<C>>, slot: nat): seq<Frame<C>>
    decreases |messages|
  {
    if messages == [] then []
    else
      var last := messages[|messages| - 1];
      FramesOf(messages[..|messages| - 1], slot) + if last.FrameMessage? && last.slot == slot then [last.frame] else []
  }

  predicate Bound(layout: ClientLayout, slot: nat) {
    PlacementFor(layout.panes, slot).Some?
  }

  /** The layouts of the control stream, in the order they came. */
  function LayoutsOf<C>(messages: seq<Message<C>>): seq<ClientLayout>
    decreases |messages|
  {
    if messages == [] then []
    else
      var last := messages[|messages| - 1];
      LayoutsOf(messages[..|messages| - 1]) + if last.LayoutMessage? then [last.layout] else []
  }

  function Latest<C>(messages: seq<Message<C>>): ClientLayout
    requires LayoutSeen(messages)
  {
    LayoutsOf(messages)[|LayoutsOf(messages)| - 1]
  }

  /** Messages of one layout revision: its layout, with the focus anywhere and any
      number of times, and frames on its slots. */
  ghost predicate ForLayout<C>(messages: seq<Message<C>>, layout: ClientLayout) {
    forall i :: 0 <= i < |messages| ==>
      match messages[i]
      case LayoutMessage(l) => Alike(l, layout)
      case FrameMessage(slot, frame) => frame.revision == layout.revision && Bound(layout, slot)
  }

  predicate LayoutSeen<C>(messages: seq<Message<C>>) {
    LayoutsOf(messages) != []
  }

  ghost predicate AllFit<C>(messages: seq<Message<C>>, layout: ClientLayout) {
    forall i :: 0 <= i < |layout.panes| ==> Fitting(FramesOf(messages, layout.panes[i].slot), layout.panes[i].rect) != []
  }

  /** The layout has come, and for every pane a frame that fits it. */
  ghost predicate Ready<C>(messages: seq<Message<C>>, layout: ClientLayout) {
    LayoutSeen(messages) && AllFit(messages, layout)
  }

  /** A state that has not heard of the revision yet. */
  predicate Before<C, V>(s: Scanout<C, V>, revision: nat) {
    s.layout.revision < revision && revision !in s.pendingLayouts && revision !in s.pendingFrames
  }

  /** Every bound slot shows its fitting frames, in order, over an empty cache. */
  ghost predicate Shown<C, V>(effects: Effects<C, V>, s: Scanout<C, V>, messages: seq<Message<C>>, layout: ClientLayout) {
    && LayoutSeen(messages) && Alike(Latest(messages), layout) && s.layout == Latest(messages)
    && (forall slot :: slot in s.views <==> Bound(layout, slot))
    && (forall slot :: Bound(layout, slot) && slot in s.views ==>
          s.views[slot] == SlotView(effects, PlacementFor(layout.panes, slot).value.rect, FramesOf(messages, slot)))
  }

  /** Still waiting: the old layout stands, and what is kept of each slot fits as
      what came of it fits. */
  ghost predicate Waiting<C, V>(start: Scanout<C, V>, s: Scanout<C, V>, messages: seq<Message<C>>, layout: ClientLayout) {
    && s.layout == start.layout && s.views == start.views
    && (LayoutSeen(messages) ==> Alike(Latest(messages), layout))
    && s.pendingLayouts == (if LayoutSeen(messages) then start.pendingLayouts[layout.revision := Latest(messages)] else start.pendingLayouts)
    && (forall r :: r != layout.revision ==> (r in s.pendingFrames <==> r in start.pendingFrames))
    && (forall r :: r != layout.revision && r in start.pendingFrames ==> s.pendingFrames[r] == start.pendingFrames[r])
    && (forall slot :: Bound(layout, slot) ==>
          Fitting(FramesAt(s, layout.revision, slot), PlacementFor(layout.panes, slot).value.rect)
          == Fitting(FramesOf(messages, slot), PlacementFor(layout.panes, slot).value.rect))
  }

  /** Where any order of these messages has got to. */
  ghost predicate Reached<C, V>(effects: Effects<C, V>, start: Scanout<C, V>, s: Scanout<C, V>, messages: seq<Message<C>>, layout: ClientLayout) {
    if Ready(messages, layout) then
      && Shown(effects, s, messages, layout)
      && s.pendingLayouts == Above(start.pendingLayouts, layout.revision)
      && s.pendingFrames == Above(start.pendingFrames, layout.revision)
    else Waiting(start, s, messages, layout)
  }

  lemma {:induction false} SlotBound(layout: ClientLayout, i: nat)
    requires DistinctSlots(layout.panes) && i < |layout.panes|
    ensures Bound(layout, layout.panes[i].slot) && PlacementFor(layout.panes, layout.panes[i].slot).value == layout.panes[i]
  {
    PlacementOf(layout.panes, i);
  }

  /** Activation is due exactly when every pane has a fitting frame. */
  lemma {:induction false} FitsWhenReady<C, V>(s: Scanout<C, V>, messages: seq<Message<C>>, layout: ClientLayout)
    requires DistinctSlots(layout.panes)
    requires forall slot :: Bound(layout, slot) ==>
               Fitting(FramesAt(s, layout.revision, slot), PlacementFor(layout.panes, slot).value.rect)
               == Fitting(FramesOf(messages, slot), PlacementFor(layout.panes, slot).value.rect)
    ensures AllFitted(s, layout) <==> AllFit(messages, layout)
  {
    hide Fitting, FramesOf, FramesAt, PlacementFor;
    forall i | 0 <= i < |layout.panes|
      ensures Fitting(FramesAt(s, layout.revision, layout.panes[i].slot), layout.panes[i].rect)
           == Fitting(FramesOf(messages, layout.panes[i].slot), layout.panes[i].rect)
    {
      SlotBound(layout, i);
    }
  }

  /** The activation itself. */
  lemma {:induction false} ActivationShows<C, V>(effects: Effects<C, V>, s: Scanout<C, V>, messages: seq<Message<C>>, layout: ClientLayout)
    requires DistinctSlots(layout.panes)
    requires forall slot :: Bound(layout, slot) ==>
               Fitting(FramesAt(s, layout.revision, slot), PlacementFor(layout.panes, slot).value.rect)
               == Fitting(FramesOf(messages, slot), PlacementFor(layout.panes, slot).value.rect)
    requires LayoutSeen(messages) && Alike(Latest(messages), layout)
    ensures Shown(effects, Scanout(Latest(messages), Views(effects, s, layout), s.pendingLayouts, s.pendingFrames), messages, layout)
  {
    hide Fitting, FramesOf, FramesAt, PlacementFor, Emitted, LayoutsOf;
    forall slot ensures Bound(layout, slot) ==> slot in SlotsOf(layout.panes) {
      PlacementFound(layout.panes, slot);
    }
  }

  /** One more message, while waiting. */
  lemma {:induction false} WaitingStep<C, V>(effects: Effects<C, V>, start: Scanout<C, V>, s: Scanout<C, V>, messages: seq<Message<C>>,
                                             m: Message<C>, layout: ClientLayout)
    requires DistinctSlots(layout.panes) && Before(start, layout.revision)
    requires Waiting(start, s, messages, layout) && !Ready(messages, layout)
    requires ForLayout([m], layout)
    ensures Reached(effects, start, Handle(effects, s, m), messages + [m], layout)
  {
    hide Fitting, FramesOf, PlacementFor, SlotView, LayoutsOf;
    assert ForLayout([m], layout) && [m][0] == m;
    var more := messages + [m];
    SeenAppend(messages, m);
    if m.LayoutMessage? {
      var kept := s.(pendingLayouts := s.pendingLayouts[layout.revision := m.layout]);
      forall slot ensures FramesOf(more, slot) == FramesOf(messages, slot) { FramesOfAppend(messages, m, slot); }
      KeptStep(effects, start, kept, more, layout);
    } else {
      FrameStep(effects, start, s, messages, m.slot, m.frame, layout);
    }
  }

  lemma {:induction false} SeenAppend<C>(messages: seq<Message<C>>, m: Message<C>)
    ensures LayoutsOf(messages + [m]) == if m.LayoutMessage? then LayoutsOf(messages) + [m.layout] else LayoutsOf(messages)
    ensures LayoutSeen(messages + [m]) <==> LayoutSeen(messages) || m.LayoutMessage?
    ensures m.LayoutMessage? ==> Latest(messages + [m]) == m.layout
    ensures !m.LayoutMessage? && LayoutSeen(messages) ==> Latest(messages + [m]) == Latest(messages)
  {
    assert (messages + [m])[..|messages|] == messages;
  }

  lemma {:induction false} FramesOfAppend<C>(messages: seq<Message<C>>, m: Message<C>, slot: nat)
    ensures FramesOf(messages + [m], slot) ==
            if m.FrameMessage? && m.slot == slot then FramesOf(messages, slot) + [m.frame] else FramesOf(messages, slot)
  {
    assert (messages + [m])[..|messages|] == messages;
  }

  /** With the message stored, the revision is tried. */
  lemma {:induction false} KeptStep<C, V>(effects: Effects<C, V>, start: Scanout<C, V>, kept: Scanout<C, V>, messages: seq<Message<C>>, layout: ClientLayout)
    requires DistinctSlots(layout.panes) && Before(start, layout.revision) && Waiting(start, kept, messages, layout)
    ensures Reached(effects, start, After(TryActivate(effects, kept, layout.revision), kept), messages, layout)
  {
    hide Fitting, FramesOf, FramesAt, PlacementFor, SlotView, Views, AllFitted, AllFit, LayoutsOf;
    FitsWhenReady(kept, messages, layout);
    if LayoutSeen(messages) {
      ActivationShows(effects, kept, messages, layout);
      AlikeActivates(effects, kept, Latest(messages), layout);
      assert kept.pendingLayouts[layout.revision] == Latest(messages);
      assert Above(kept.pendingLayouts, layout.revision) == Above(start.pendingLayouts, layout.revision);
      assert Above(kept.pendingFrames, layout.revision) == Above(start.pendingFrames, layout.revision);
    }
  }

  /** Where the focus is makes no difference to activation. */
  lemma {:induction false} AlikeActivates<C, V>(effects: Effects<C, V>, s: Scanout<C, V>, a: ClientLayout, b: ClientLayout)
    requires Alike(a, b)
    ensures (AllFitted(s, a) <==> AllFitted(s, b)) && Views(effects, s, a) == Views(effects, s, b)
  {
    hide Fitting, FramesAt, PlacementFor, SlotView, SlotsOf;
  }

  lemma {:induction false} FrameStep<C, V>(effects: Effects<C, V>, start: Scanout<C, V>, s: Scanout<C, V>, messages: seq<Message<C>>,
                                           slot: nat, frame: Frame<C>, layout: ClientLayout)
    requires DistinctSlots(layout.panes) && Before(start, layout.revision)
    requires Waiting(start, s, messages, layout) && !Ready(messages, layout)
    requires frame.revision == layout.revision && Bound(layout, slot)
    ensures Reached(effects, start, After(AcceptFrame(effects, s, slot, frame), s), messages + [FrameMessage(slot, frame)], layout)
  {
    hide Fitting, FramesOf, PlacementFor, SlotView, TryActivate, LayoutsOf;
    var m := FrameMessage(slot, frame);
    var more := messages + [m];
    var rect := PlacementFor(layout.panes, slot).value.rect;
    SeenAppend(messages, m);
    forall other ensures FramesOf(more, other) == if other == slot then FramesOf(messages, other) + [frame] else FramesOf(messages, other) {
      FramesOfAppend(messages, m, other);
    }
    FittingAppend(FramesOf(messages, slot), frame, rect);
    if LayoutSeen(messages) && !Matches(frame, rect) {
      assert AcceptFrame(effects, s, slot, frame) == Dropped(s);
      NotReadyStill(messages, more, layout, slot, rect);
    } else {
      var kept := WithFrame(s, slot, frame);
      assert AcceptFrame(effects, s, slot, frame) == TryActivate(effects, kept, layout.revision);
      FittingAppend(FramesAt(s, layout.revision, slot), frame, rect);
      forall other ensures FramesAt(kept, layout.revision, other) ==
                           if other == slot then FramesAt(s, layout.revision, other) + [frame] else FramesAt(s, layout.revision, other) {
      }
      KeptStep(effects, start, kept, more, layout);
      TriedOrKept(effects, kept, layout.revision, s);
    }
  }

  lemma {:induction false} TriedOrKept<C, V>(effects: Effects<C, V>, kept: Scanout<C, V>, revision: nat, s: Scanout<C, V>)
    ensures After(TryActivate(effects, kept, revision), kept) == After(TryActivate(effects, kept, revision), s)
  {
  }

  lemma {:induction false} NotReadyStill<C>(messages: seq<Message<C>>, more: seq<Message<C>>, layout: ClientLayout, slot: nat, rect: Rect)
    requires DistinctSlots(layout.panes) && Bound(layout, slot) && PlacementFor(layout.panes, slot).value.rect == rect
    requires LayoutSeen(messages) && !Ready(messages, layout)
    requires Fitting(FramesOf(more, slot), rect) == Fitting(FramesOf(messages, slot), rect)
    requires forall other :: other != slot ==> FramesOf(more, other) == FramesOf(messages, other)
    ensures !AllFit(more, layout)
  {
    hide Fitting, FramesOf, PlacementFor;
    var i :| 0 <= i < |layout.panes| && Fitting(FramesOf(messages, layout.panes[i].slot), layout.panes[i].rect) == [];
    SlotBound(layout, i);
  }

  /** One more message, once activated. */
  lemma {:induction false} ShownStep<C, V>(effects: Effects<C, V>, start: Scanout<C, V>, s: Scanout<C, V>, messages: seq<Message<C>>,
                                           m: Message<C>, layout: ClientLayout)
    requires DistinctSlots(layout.panes) && Before(start, layout.revision)
    requires Ready(messages, layout) && Reached(effects, start, s, messages, layout)
    requires ForLayout([m], layout)
    ensures Reached(effects, start, Handle(effects, s, m), messages + [m], layout)
  {
    hide Fitting, FramesOf, PlacementFor, Emitted, TryActivate, LayoutsOf;
    assert [m][0] == m;
    var more := messages + [m];
    SeenAppend(messages, m);
    forall slot ensures FramesOf(more, slot) ==
                        if m.FrameMessage? && m.slot == slot then FramesOf(messages, slot) + [m.frame] else FramesOf(messages, slot) {
      FramesOfAppend(messages, m, slot);
    }
    StillReady(messages, m, layout);
    if m.FrameMessage? {
      var rect := PlacementFor(layout.panes, m.slot).value.rect;
      FittingAppend(FramesOf(messages, m.slot), m.frame, rect);
      EmittedAppend(effects, effects.empty(rect), Fitting(FramesOf(messages, m.slot), rect), m.frame);
    }
  }

  lemma {:induction false} StillReady<C>(messages: seq<Message<C>>, m: Message<C>, layout: ClientLayout)
    requires Ready(messages, layout)
    ensures Ready(messages + [m], layout)
  {
    hide Fitting, FramesOf;
    SeenAppend(messages, m);
    forall i | 0 <= i < |layout.panes| ensures Fitting(FramesOf(messages + [m], layout.panes[i].slot), layout.panes[i].rect) != [] {
      FramesOfAppend(messages, m, layout.panes[i].slot);
      if m.FrameMessage? {
        FittingAppend(FramesOf(messages, layout.panes[i].slot), m.frame, layout.panes[i].rect);
      }
    }
  }

  lemma {:induction false} ReachedBy<C, V>(effects: Effects<C, V>, start: Scanout<C, V>, messages: seq<Message<C>>, layout: ClientLayout)
    requires DistinctSlots(layout.panes) && Before(start, layout.revision) && ForLayout(messages, layout)
    ensures Reached(effects, start, HandleAll(effects, start, messages), messages, layout)
    decreases |messages|
  {
    hide Handle, Reached, ForLayout;
    if messages == [] {
      NothingReached(effects, start, layout);
    } else {
      var init, last := messages[..|messages| - 1], messages[|messages| - 1];
      assert messages == init + [last];
      PrefixForLayout(init, last, layout);
      ReachedBy(effects, start, init, layout);
      var s := HandleAll(effects, start, init);
      if Ready(init, layout) {
        ShownStep(effects, start, s, init, last, layout);
      } else {
        ReachedWaiting(effects, start, s, init, layout);
        WaitingStep(effects, start, s, init, last, layout);
      }
    }
  }

  lemma {:induction false} PrefixForLayout<C>(init: seq<Message<C>>, last: Message<C>, layout: ClientLayout)
    requires ForLayout(init + [last], layout)
    ensures ForLayout(init, layout) && ForLayout([last], layout)
  {
    assert (init + [last])[|init|] == last;
    forall i | 0 <= i < |init| ensures init[i] == (init + [last])[i] {
    }
  }

  lemma {:induction false} ReachedWaiting<C, V>(effects: Effects<C, V>, start: Scanout<C, V>, s: Scanout<C, V>, messages: seq<Message<C>>, layout: ClientLayout)
    requires Reached(effects, start, s, messages, layout) && !Ready(messages, layout)
    ensures Waiting(start, s, messages, layout)
  {
  }

  lemma {:induction false} NothingReached<C, V>(effects: Effects<C, V>, start: Scanout<C, V>, layout: ClientLayout)
    requires Before(start, layout.revision)
    ensures Reached(effects, start, start, [], layout)
  {
  }

  /** Confluence: two arrival orders that keep the control stream's and every slot's
      own order end with the same layout and the same view in every slot; once active,
      the layout is the last of the control stream, and the same messages are pending. */
  lemma {:induction false} Confluence<C, V>(effects: Effects<C, V>, start: Scanout<C, V>, a: seq<Message<C>>, b: seq<Message<C>>, layout: ClientLayout)
    requires DistinctSlots(layout.panes) && Before(start, layout.revision)
    requires ForLayout(a, layout) && ForLayout(b, layout) && LayoutSeen(a) && LayoutSeen(b)
    requires LayoutsOf(a) == LayoutsOf(b) && forall slot :: FramesOf(a, slot) == FramesOf(b, slot)
    ensures var s, t := HandleAll(effects, start, a), HandleAll(effects, start, b);
            && s.layout == t.layout && s.views == t.views && s.pendingLayouts == t.pendingLayouts
            && (Ready(a, layout) ==> s == t && s.layout == Latest(a))
  {
    hide Fitting, FramesOf, PlacementFor, SlotView, HandleAll, ForLayout, LayoutsOf;
    ReachedBy(effects, start, a, layout);
    ReachedBy(effects, start, b, layout);
    assert AllFit(a, layout) <==> AllFit(b, layout);
    var s, t := HandleAll(effects, start, a), HandleAll(effects, start, b);
    if Ready(a, layout) {
      assert s.views == t.views;
    }
  }

  // ------------------------------------------------------------ the client's maps

  datatype Verdict = Taken | Ignored | Failed

  function VerdictOf<C, V>(o: Outcome<C, V>): Verdict {
    match o
    case Accepted(_) => Taken
    case Dropped(_) => Ignored
    case Refused => Failed
  }

  /** `scanoutState`: the same, as maps changed in place. */
  class ScanoutState<C, V> {
    var layout: ClientLayout
    var views: map<nat, V>
    var pendingLayouts: map<nat, ClientLayout>
    var pendingFrames: map<nat, SlotFrames<C>>
    const effects: Effects<C, V>

    function State(): Scanout<C, V>
      reads this
    {
      Scanout(layout, views, pendingLayouts, pendingFrames)
    }

    constructor (effects: Effects<C, V>)
      ensures State() == Scanout(NO_LAYOUT, map[], map[], map[]) && this.effects == effects && NothingStale(State())
    {
      layout, views, pendingLayouts, pendingFrames, this.effects := NO_LAYOUT, map[], map[], map[], effects;
    }

    function QueuedFor(slot: nat, revision: nat): seq<Frame<C>>
      reads this
    {
      FramesAt(State(), revision, slot)
    }

    method HasFitting(frames: seq<Frame<C>>, rect: Rect) returns (found: bool)
      ensures found <==> Fitting(frames, rect) != []
    {
      found := false;
      var i := 0;
      assert frames[..0] == [];
      while i < |frames| && !found
        invariant 0 <= i <= |frames| && (found <==> Fitting(frames[..i], rect) != [])
      {
        assert frames[..i + 1] == frames[..i] + [frames[i]];
        FittingAppend(frames[..i], frames[i], rect);
        found := Matches(frames[i], rect);
        i := i + 1;
      }
      if found {
        StaysFitting(frames, i, rect);
      } else {
        assert frames[..i] == frames;
      }
    }

    static lemma {:induction false} StaysFitting(frames: seq<Frame<C>>, k: nat, rect: Rect)
      requires k <= |frames| && Fitting(frames[..k], rect) != []
      ensures Fitting(frames, rect) != []
      decreases |frames| - k
    {
      if k < |frames| {
        assert frames[..k + 1] == frames[..k] + [frames[k]];
        FittingAppend(frames[..k], frames[k], rect);
        StaysFitting(frames, k + 1, rect);
      } else {
        assert frames[..k] == frames;
      }
    }

    method EmitFitting(view: V, frames: seq<Frame<C>>, rect: Rect) returns (out: V)
      ensures out == Emitted(effects, view, Fitting(frames, rect))
    {
      out := view;
      var i := 0;
      assert frames[..0] == [];
      while i < |frames|
        invariant 0 <= i <= |frames| && out == Emitted(effects, view, Fitting(frames[..i], rect))
      {
        assert frames[..i + 1] == frames[..i] + [frames[i]];
        FittingAppend(frames[..i], frames[i], rect);
        if Matches(frames[i], rect) {
          EmittedAppend(effects, view, Fitting(frames[..i], rect), frames[i]);
          out := effects.apply(out, frames[i].content);
        }
        i := i + 1;
      }
      assert frames[..i] == frames;
    }

    /** Activates the layout once every pane has a fitting frame. */
    method TryActivateNow(revision: nat) returns (verdict: Verdict)
      requires revision in pendingLayouts ==> DistinctSlots(pendingLayouts[revision].panes)
      requires revision in pendingLayouts ==> pendingLayouts[revision].revision == revision
      modifies this
      ensures State() == After(TryActivate(effects, old(State()), revision), old(State()))
      ensures verdict == VerdictOf(TryActivate(effects, old(State()), revision))
    {
      hide Fitting, Emitted, PlacementFor;
      if revision !in pendingLayouts {
        return Ignored;
      }
      ghost var s := State();
      var next := pendingLayouts[revision];
      var i := 0;
      while i < |next.panes|
        invariant 0 <= i <= |next.panes| && State() == s
        invariant forall k :: 0 <= k < i ==> Fitting(FramesAt(s, revision, next.panes[k].slot), next.panes[k].rect) != []
      {
        var matching := HasFitting(QueuedFor(next.panes[i].slot, revision), next.panes[i].rect);
        if !matching {
          return Ignored;
        }
        i := i + 1;
      }
      var shown := ActivatedViews(next, revision);
      layout, views := next, shown;
      pendingLayouts, pendingFrames := Above(pendingLayouts, revision), Above(pendingFrames, revision);
      verdict := Taken;
    }

    method ActivatedViews(next: ClientLayout, revision: nat) returns (shown: map<nat, V>)
      requires DistinctSlots(next.panes) && next.revision == revision
      ensures shown == Views(effects, State(), next)
    {
      hide Fitting, Emitted, PlacementFor;
      shown := map[];
      var i := 0;
      while i < |next.panes|
        invariant 0 <= i <= |next.panes|
        invariant forall slot :: slot in shown <==> exists k :: 0 <= k < i && next.panes[k].slot == slot
        invariant forall k :: 0 <= k < i ==>
                    shown[next.panes[k].slot] == SlotView(effects, next.panes[k].rect, FramesAt(State(), revision, next.panes[k].slot))
      {
        var placement := next.panes[i];
        var view := EmitFitting(effects.empty(placement.rect), QueuedFor(placement.slot, revision), placement.rect);
        shown := shown[placement.slot := view];
        i := i + 1;
      }
      forall slot ensures slot in shown <==> slot in Views(effects, State(), next) {
        PlacementFound(next.panes, slot);
        if slot in shown {
          var k :| 0 <= k < |next.panes| && next.panes[k].slot == slot;
          PlacementOf(next.panes, k);
        }
      }
      forall slot | slot in shown ensures shown[slot] == Views(effects, State(), next)[slot] {
        var k :| 0 <= k < |next.panes| && next.panes[k].slot == slot;
        PlacementOf(next.panes, k);
      }
    }

    method AcceptLayoutMessage(next: ClientLayout) returns (verdict: Verdict)
      requires DistinctSlots(next.panes)
      modifies this
      ensures verdict == VerdictOf(AcceptLayout(effects, old(State()), next))
      ensures State() == Handle(effects, old(State()), LayoutMessage(next))
    {
      if next.revision < layout.revision {
        return Ignored;
      }
      if next.revision == layout.revision && layout.revision != 0 {
        if !SameGeometry(layout, next) {
          return Failed;
        }
        layout := next;
        return Taken;
      }
      pendingLayouts := pendingLayouts[next.revision := next];
      verdict := TryActivateNow(next.revision);
    }

    method AcceptFrameMessage(slot: nat, frame: Frame<C>) returns (verdict: Verdict)
      requires frame.revision in pendingLayouts ==>
                 DistinctSlots(pendingLayouts[frame.revision].panes) && pendingLayouts[frame.revision].revision == frame.revision
      modifies this
      ensures State() == Handle(effects, old(State()), FrameMessage(slot, frame))
      ensures verdict == VerdictOf(AcceptFrame(effects, old(State()), slot, frame))
    {
      hide Fitting, Emitted;
      if frame.revision < layout.revision {
        return Ignored;
      }
      if frame.revision == layout.revision && layout.revision != 0 {
        var placement := PlacementFor(layout.panes, slot);
        if placement.None? {
          return Failed;
        }
        if !Matches(frame, placement.value.rect) {
          return Ignored;
        }
        if slot !in views {
          return Failed;
        }
        views := views[slot := effects.apply(views[slot], frame.content)];
        return Taken;
      }
      if frame.revision in pendingLayouts {
        var placement := PlacementFor(pendingLayouts[frame.revision].panes, slot);
        if placement.Some? && !Matches(frame, placement.value.rect) {
          return Ignored;
        }
      }
      var bySlot := if frame.revision in pendingFrames then pendingFrames[frame.revision] else map[];
      bySlot := bySlot[slot := (if slot in bySlot then bySlot[slot] else []) + [frame]];
      ghost var kept := WithFrame(State(), slot, frame);
      pendingFrames := pendingFrames[frame.revision := bySlot];
      assert State() == kept;
      verdict := TryActivateNow(frame.revision);
    }
  }
}
