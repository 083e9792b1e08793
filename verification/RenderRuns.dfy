/** Every run of one pane's renderer: attach, damage, invalidate, prepare, hand off
    and detach in any order. The publications handed to a lease always continue its
    version chain, and a client that takes them all shows the terminal. */
module RenderRuns {
  import opened Display
  import opened Damage
  import opened DisplayInterpreter
  import opened Painting
  import opened Publication
  import opened FrameCompiler
  import opened PublicationRun
  import opened RenderPipeline

  datatype Event =
    | Mutate(update: Update, screen: Terminal)
    | Attach(layoutRevision: nat, screen: Terminal, used: Base)
    | Detach
    | Invalidate(barrier: bool)
    | Prepare
    | HandOff
    | Resize(screen: Terminal)

  /** The renderer, the terminal it shows, the confirmer's version chain, and every
      publication handed off since the last attach with what it shows; `revision` is
      the layout revision that attach named. A lease keeps its confirmer from pane to
      pane, so an attach may find any chain at all. */
  datatype System = System(phase: Phase, terminal: Terminal, chain: Base, log: seq<Submission>, revision: nat)

  const NEW_CHAIN := Base(false, 0, 0)

  function Advanced(p: Publication): Base { Base(true, p.epoch, p.targetVersion) }

  function Logged(a: System): System {
    match a.phase.pending
    case None => a
    case Some(pending) =>
      a.(phase := HandedOff(a.phase), chain := Advanced(pending.publication), log := a.log + [pending])
  }

  ghost predicate Step(a: System, e: Event, b: System) {
    match e
    case Mutate(u, screen) =>
      && UpdateCovers(u, a.terminal, screen)
      && (a.phase.attached ==> ScrollFits(u.scroll, |a.phase.dirty|))
      && b == a.(terminal := screen, phase := if a.phase.attached then Merged(a.phase, u, screen.cols) else a.phase)
    case Attach(revision, screen, used) =>
      && !a.phase.attached && TerminalOk(screen)
      && b == System(Attached(a.phase, revision, screen), screen, used, [], revision)
    case Detach => b == a.(phase := Detached(a.phase))
    case Invalidate(barrier) => b == a.(phase := Invalidated(a.phase, barrier, a.terminal))
    case Prepare => Prepared(a.phase, a.terminal, b.phase) && b == a.(phase := b.phase)
    case HandOff => b == Logged(a)
    case Resize(screen) =>
      && !a.phase.attached && TerminalOk(screen)
      && b == a.(terminal := screen, phase := Invalidated(a.phase, false, screen))
  }

  predicate Fresh(s: System) {
    s.phase == Phase(false, 0, 1, 0, None, None, [], None, false, false, false) && s.chain == NEW_CHAIN && s.log == []
  }

  /** States and the events between them. */
  ghost predicate Run(states: seq<System>, events: seq<Event>) {
    && |states| == |events| + 1 && Fresh(states[0]) && TerminalOk(states[0].terminal)
    && forall i :: 0 <= i < |events| ==> Step(states[i], events[i], states[i + 1])
  }

  // -------------------------------------------------------------- invariant

  function LastShot(log: seq<Submission>): Option<Shot> {
    if log == [] then None else Some(log[|log| - 1].shot)
  }

  function ChainAfter(log: seq<Submission>): Base {
    if log == [] then NEW_CHAIN else Advanced(log[|log| - 1].publication)
  }

  /** One logged publication continues the ones before it. */
  ghost predicate Continues(log: seq<Submission>, next: Submission) {
    && FollowsBase(ChainAfter(log), next.publication)
    && (log == [] ==> next.publication.barrier)
    && (log != [] ==> next.publication.revision == log[0].publication.revision)
    && (next.publication.targetVersion % ANCHOR_INTERVAL == 0 ==> next.publication.kind.Keyframe?)
    && (log != [] ==> next.publication.cols == log[0].publication.cols && next.publication.rows == log[0].publication.rows)
    && PublicationOf(LastShot(log), next.publication, next.shot)
  }

  ghost predicate LogOk(log: seq<Submission>) {
    forall k :: 0 <= k < |log| ==> Continues(log[..k], log[k])
  }

  ghost predicate SystemOk(s: System) {
    && PhaseOk(s.phase, s.terminal) && LogOk(s.log)
    && (s.phase.attached ==>
          && s.phase.layoutRevision == s.revision
          && (s.phase.pending.Some? ==> s.phase.pending.value.publication.revision == s.revision)
          && (s.log != [] ==> s.log[0].publication.revision == s.revision)
          && (s.log != [] ==> s.chain == ChainAfter(s.log))
          && (s.log != [] ==> s.log[0].publication.cols == s.terminal.cols && s.log[0].publication.rows == s.terminal.rows)
          && (s.phase.barrier ==> s.phase.version == 0)
          && (s.phase.pending.Some? ==> !s.phase.barrier && Continues(s.log, s.phase.pending.value))
          && (s.log == [] ==> s.phase.version == 0 && (s.phase.pending.None? ==> s.phase.barrier))
          && (s.log != [] ==> s.chain.epoch <= s.phase.epoch
                              && (if s.chain.epoch == s.phase.epoch
                                  then s.phase.version == s.chain.version && s.phase.snapshot == LastShot(s.log)
                                  else s.phase.version == 0)))
  }

  // ------------------------------------------------------- each event keeps it

  lemma {:induction false} MutateKeeps(a: System, u: Update, screen: Terminal, b: System)
    requires SystemOk(a) && Step(a, Mutate(u, screen), b)
    ensures SystemOk(b)
  {
    hide Continues, LogOk, PublicationOf, Merged, Covers;
    if a.phase.attached {
      hide UpdateCovers, PhaseOk;
      MergeKeeps(a.phase, u, a.terminal, screen);
      MergedRest(a.phase, u, screen.cols);
      SameSize(u, a.terminal, screen);
    } else {
      IdleScreen(a.phase, u, a.terminal, screen);
    }
  }

  lemma {:induction false} MergedRest(s: Phase, u: Update, cols: nat)
    requires s.attached && ScrollFits(u.scroll, |s.dirty|)
    ensures var m := Merged(s, u, cols);
            && m.attached && m.layoutRevision == s.layoutRevision && m.epoch == s.epoch && m.version == s.version && m.barrier == s.barrier
            && m.pending == s.pending && m.snapshot == s.snapshot
  {
  }

  lemma {:induction false} SameSize(u: Update, before: Terminal, after: Terminal)
    requires UpdateCovers(u, before, after)
    ensures before.cols == after.cols && before.rows == after.rows
  {
  }

  lemma {:induction false} IdleScreen(s: Phase, u: Update, before: Terminal, after: Terminal)
    requires PhaseOk(s, before) && !s.attached && UpdateCovers(u, before, after)
    ensures PhaseOk(s, after)
  {
    hide PublicationOf, DamageSound;
  }

  lemma {:induction false} ControlKeeps(a: System, e: Event, b: System)
    requires SystemOk(a) && Step(a, e, b) && (e.Attach? || e.Detach? || e.Invalidate? || e.Resize?)
    ensures SystemOk(b)
  {
    hide Continues, PublicationOf, DamageSound, LogOk;
    if e.Detach? {
      PhaseTerminal(a.phase, a.terminal);
      DetachKeeps(a.phase, a.terminal);
    } else if e.Invalidate? {
      PhaseTerminal(a.phase, a.terminal);
      InvalidateKeeps(a.phase, e.barrier, a.terminal);
      CancelOwes(a);
    } else if e.Attach? {
      AttachKeeps(a.phase, e.layoutRevision, e.screen);
      assert LogOk([]) by { NoLog(); }
    } else {
      InvalidateKeeps(a.phase, false, e.screen);
    }
  }

  lemma {:induction false} NoLog()
    ensures LogOk([])
  {
  }

  lemma {:induction false} PhaseTerminal(s: Phase, t: Terminal)
    requires PhaseOk(s, t)
    ensures TerminalOk(t)
  {
    hide TerminalOk;
  }

  /** Cancelling never loses the barrier a new lease is owed. */
  lemma {:induction false} CancelOwes(a: System)
    requires SystemOk(a)
    ensures a.phase.attached && a.log == [] ==> Cancelled(a.phase).barrier
  {
    hide PublicationOf, PhaseOk;
  }

  /** Over nothing shown, a publication is a keyframe with its cursor, and so is
      good over anything. */
  lemma {:induction false} OverAnything(p: Publication, shot: Shot, base: Option<Shot>)
    requires PublicationOf(None, p, shot)
    ensures p.kind.Keyframe? && PublicationOf(base, p, shot)
  {
    hide OrderedRuns, RunShowsGrid, KeyframeRuns, DeltaRuns, WellFormed, GridOk;
  }

  /** What `prepare` publishes continues the chain of the lease. */
  lemma {:induction false} PreparedContinues(a: System, after: Phase)
    requires SystemOk(a) && PreparedNow(a.phase, a.terminal, after) && after.pending.Some?
    ensures Continues(a.log, after.pending.value)
  {
    var s, p, shot := a.phase, after.pending.value.publication, after.pending.value.shot;
    hide CandidateCells, DirtyCount, LogOk, DamageSound, SemanticRuns;
    assert HeaderOf(s, a.terminal, p) && PublicationOf(s.snapshot, p, shot) by { hide PublicationOf; }
    hide PublicationOf;
    if s.snapshot.None? {
      OverAnything(p, shot, LastShot(a.log));
    }
  }

  lemma {:induction false} PrepareStepKeeps(a: System, b: System)
    requires SystemOk(a) && Step(a, Prepare, b)
    ensures SystemOk(b)
  {
    hide PublicationOf, DamageSound, LogOk, Continues, CandidateCells, DirtyCount, SendsKeyframe;
    if b.phase != a.phase {
      PublicationRun.PrepareKeeps(a.phase, a.terminal, b.phase);
      if b.phase.pending.Some? {
        PreparedContinues(a, b.phase);
      }
      BarrierSent(a.phase, a.terminal, b.phase);
    }
  }

  /** A barrier is never dropped as nothing to send. */
  lemma {:induction false} BarrierSent(s: Phase, t: Terminal, after: Phase)
    requires PreparedNow(s, t, after)
    ensures s.barrier ==> after.pending.Some?
  {
    hide PublicationOf, CandidateCells;
  }

  lemma {:induction false} HandOffStepKeeps(a: System, b: System)
    requires SystemOk(a) && Step(a, HandOff, b)
    ensures SystemOk(b)
  {
    hide PublicationOf, DamageSound, Continues, LogOk;
    HandOffKeeps(a.phase, a.terminal);
    if a.phase.pending.Some? {
      AttachedPending(a.phase, a.terminal);
      ContinuesSize(a.log, a.phase.pending.value);
      LogAppend(a.log, a.phase.pending.value);
      assert b.log[|b.log| - 1] == a.phase.pending.value;
      assert a.log != [] ==> b.log[0] == a.log[0];
    }
  }

  lemma {:induction false} AttachedPending(s: Phase, t: Terminal)
    requires PhaseOk(s, t) && s.pending.Some?
    ensures s.attached && s.pending.value.publication.targetVersion == s.version + 1 && s.pending.value.publication.epoch == s.epoch
    ensures s.pending.value.publication.cols == t.cols && s.pending.value.publication.rows == t.rows
  {
    hide PublicationOf, DamageSound, TerminalOk;
  }

  lemma {:induction false} ContinuesSize(log: seq<Submission>, next: Submission)
    requires Continues(log, next)
    ensures log != [] ==> next.publication.cols == log[0].publication.cols && next.publication.rows == log[0].publication.rows
  {
    hide PublicationOf;
  }

  lemma {:induction false} LogAppend(log: seq<Submission>, next: Submission)
    requires LogOk(log) && Continues(log, next)
    ensures LogOk(log + [next])
  {
    hide Continues;
    var more := log + [next];
    forall k | 0 <= k < |more| ensures Continues(more[..k], more[k]) {
      if k < |log| {
        assert more[..k] == log[..k];
      } else {
        assert more[..k] == log;
      }
    }
  }

  lemma {:induction false} StepKeeps(a: System, e: Event, b: System)
    requires SystemOk(a) && Step(a, e, b)
    ensures SystemOk(b)
  {
    hide SystemOk, Step;
    if e.Mutate? {
      MutateKeeps(a, e.update, e.screen, b);
    } else if e.Prepare? {
      PrepareStepKeeps(a, b);
    } else if e.HandOff? {
      HandOffStepKeeps(a, b);
    } else {
      ControlKeeps(a, e, b);
    }
  }

  lemma {:induction false} RunKeeps(states: seq<System>, events: seq<Event>, i: nat)
    requires Run(states, events) && i < |states|
    ensures SystemOk(states[i])
    decreases i
  {
    hide Step, SystemOk;
    if i == 0 {
      FreshOk(states[0]);
    } else {
      RunKeeps(states, events, i - 1);
      StepKeeps(states[i - 1], events[i - 1], states[i]);
    }
  }

  lemma {:induction false} FreshOk(s: System)
    requires Fresh(s) && TerminalOk(s.terminal)
    ensures SystemOk(s)
  {
  }

  // ------------------------------------------------------------- run theorems

  /** The layout revision the last attach named. */
  function LastAttach(events: seq<Event>): Option<nat> {
    if events == [] then None
    else if events[|events| - 1].Attach? then Some(events[|events| - 1].layoutRevision)
    else LastAttach(events[..|events| - 1])
  }

  lemma {:induction false} RevisionAttached(states: seq<System>, events: seq<Event>, i: nat)
    requires Run(states, events) && i < |states|
    ensures LastAttach(events[..i]).Some? ==> LastAttach(events[..i]).value == states[i].revision
    ensures states[i].phase.attached ==> LastAttach(events[..i]).Some?
    decreases i
  {
    if i > 0 {
      RevisionAttached(states, events, i - 1);
      assert events[..i][..i - 1] == events[..i - 1];
      assert Step(states[i - 1], events[i - 1], states[i]);
      StillAttached(states[i - 1], events[i - 1], states[i]);
    }
  }

  lemma {:induction false} StillAttached(a: System, e: Event, b: System)
    requires Step(a, e, b)
    ensures e.Attach? ==> b.revision == e.layoutRevision
    ensures !e.Attach? ==> b.revision == a.revision && (b.phase.attached ==> a.phase.attached)
  {
    hide PublicationOf, UpdateCovers, TerminalOk, NothingToSend, HeaderOf;
  }

  /** A barrier that starts a new stream follows whatever came before it. */
  lemma {:induction false} BarrierFollows(p: Publication, used: Base)
    requires p.barrier && FollowsBase(NEW_CHAIN, p)
    ensures FollowsBase(used, p)
  {
  }

  /** In every run, whatever is handed to a lease passes its confirmer's epoch and
      version check, and the first publication after an attach carries the barrier,
      cancelled predecessors or not. */
  lemma {:induction false} VersionChain(states: seq<System>, events: seq<Event>, i: nat)
    requires Run(states, events) && i < |events| && events[i].HandOff? && states[i].phase.pending.Some?
    ensures var p := states[i].phase.pending.value.publication;
            && FollowsBase(states[i].chain, p)
            && (states[i].log == [] ==> p.barrier)
            && (p.targetVersion % 256 == 0 ==> p.kind.Keyframe?)
            && p.revision == states[i].revision && LastAttach(events[..i]) == Some(states[i].revision)
            && states[i + 1].chain == Advanced(p)
  {
    hide PublicationOf, DamageSound, LogOk, TerminalOk, FollowsBase, GridOk;
    RunKeeps(states, events, i);
    RevisionAttached(states, events, i);
    AttachedPending(states[i].phase, states[i].terminal);
    if states[i].log == [] {
      BarrierFollows(states[i].phase.pending.value.publication, states[i].chain);
    }
  }

  /** In every run, a pane with nothing pending and no mutation has published its
      terminal: the last publication of the lease shows exactly it. */
  lemma {:induction false} QuietPaneIsPublished(states: seq<System>, events: seq<Event>, i: nat)
    requires Run(states, events) && i < |states|
    requires states[i].phase.attached && states[i].phase.pending.None? && !HasMutation(states[i].phase)
    ensures states[i].log != [] && LastShot(states[i].log) == Some(TerminalShot(states[i].terminal))
  {
    var s := states[i];
    RunKeeps(states, events, i);
    QuietMeansShown(s.phase, s.terminal);
    hide LogOk, DamageSound, TerminalOk;
  }

  /** The spans of an update, as far as they lie on the screen. */
  function OnScreen(spans: seq<DirtySpan>, cols: int): (out: seq<DirtySpan>)
    ensures |out| == |spans| && forall r :: 0 <= r < |spans| ==> out[r] == Clipped(spans[r], cols)
  {
    seq(|spans|, r requires 0 <= r < |spans| => Clipped(spans[r], cols))
  }

  /** An update small enough to send as it is: not redrawn whole, its scroll leaving
      something of its region, and under half of the screen dirty. */
  predicate SmallUpdate(u: Update, rows: nat, cols: nat) {
    && !u.fullRedraw
    && (u.scroll.Some? ==> u.scroll.value.top - u.scroll.value.bottom < u.scroll.value.delta < u.scroll.value.bottom - u.scroll.value.top)
    && CandidateCells(OnScreen(u.dirtySpans, cols)) * 2 < rows * cols
  }

  /** From a pane with nothing owed, a small update goes out as a delta over the last
      publication, with its own scroll, unless it is time for an anchor. */
  lemma {:induction false} SmallUpdateIsDelta(states: seq<System>, events: seq<Event>, i: nat)
    requires Run(states, events) && i + 1 < |events| && events[i].Mutate? && events[i + 1].Prepare?
    requires states[i].phase.attached && states[i].phase.pending.None? && !HasMutation(states[i].phase)
    requires SmallUpdate(events[i].update, states[i].terminal.rows, states[i].terminal.cols)
    requires (states[i].phase.version + 1) % ANCHOR_INTERVAL != 0
    ensures states[i + 2].phase.pending.Some? ==>
              var p := states[i + 2].phase.pending.value.publication;
              && p.kind.Delta? && !p.barrier && p.scroll == events[i].update.scroll
              && p.baseVersion == states[i].phase.version && p.targetVersion == states[i].phase.version + 1
  {
    RunKeeps(states, events, i);
    assert Step(states[i], events[i], states[i + 1]) && Step(states[i + 1], events[i + 1], states[i + 2]);
    QuietStep(states[i], events[i].update, events[i].screen, states[i + 1]);
    hide SystemOk, SmallUpdate, HasMutation, PublicationOf, CandidateCells, UpdateCovers, Merged;
  }

  lemma {:induction false} QuietStep(a: System, u: Update, screen: Terminal, b: System)
    requires SystemOk(a) && Step(a, Mutate(u, screen), b)
    requires a.phase.attached && a.phase.pending.None? && !HasMutation(a.phase) && (a.phase.version + 1) % ANCHOR_INTERVAL != 0
    requires SmallUpdate(u, a.terminal.rows, a.terminal.cols)
    ensures b.phase.pending.None? && b.phase.version == a.phase.version && b.phase.scroll == u.scroll && !b.phase.barrier
    ensures !SendsKeyframe(b.phase, screen)
  {
    hide LogOk, PublicationOf, Continues, CandidateCells, Covers, DirtyCount;
    var s := a.phase;
    NoneDirty(s.dirty);
    var moved := MovedBy(s, u);
    assert !moved.keyframe && moved.scroll == u.scroll;
    assert forall r :: 0 <= r < |moved.dirty| ==> !Dirty(moved.dirty[r]);
    SameWidths(MergedSpans(moved.dirty, u.dirtySpans, screen.cols), OnScreen(u.dirtySpans, screen.cols));
  }

  lemma {:induction false} SameWidths(a: seq<DirtySpan>, b: seq<DirtySpan>)
    requires |b| <= |a|
    requires forall r :: 0 <= r < |a| ==> if r < |b| && Dirty(b[r]) then a[r] == b[r] else !Dirty(a[r])
    ensures CandidateCells(a) == CandidateCells(b)
    decreases |a|
  {
    if a != [] {
      if |b| == |a| {
        SameWidths(a[..|a| - 1], b[..|b| - 1]);
      } else {
        SameWidths(a[..|a| - 1], b);
      }
    }
  }

  // ---------------------------------------------------------- the other side

  datatype Wire = Wire(ids: map<Style, nat>, next: nat)

  /** What the confirmer guarantees of a frame it compiled for a client. */
  ghost predicate CompiledFor(client: DisplayState, p: Publication, before: Wire, frame: seq<Command<Text>>, after: Wire) {
    p.barrier || InSync(client, p, before.ids, before.next) ==> FrameDenotes(client, frame, p, after.ids, after.next)
  }

  /** The log, compiled publication by publication and delivered to one client. */
  ghost predicate DeliveredLog(log: seq<Submission>, frames: seq<seq<Command<Text>>>, wires: seq<Wire>, clients: seq<Client>) {
    && |frames| == |log| && |wires| == |clients| == |log| + 1
    && forall k :: 0 <= k < |log| ==>
         && CompiledFor(clients[k].stream, log[k].publication, wires[k], frames[k], wires[k + 1])
         && (Deliver(clients[k], frames[k]).Some? ==> clients[k + 1] == Deliver(clients[k], frames[k]).value)
  }

  /** A client's slot before any frame of the lease: any cache of the pane's size
      made of whole pairs, and at least the default style. */
  ghost predicate Ready(c: Client, rows: nat, cols: nat) {
    CacheOk(c, rows, cols) && TableCovers(c.table, DEFAULT_STYLES)
  }

  lemma {:induction false} TableKeepsDefault(c: Client, shot: Shot)
    requires ClientShows(c, shot)
    ensures TableCovers(c.table, DEFAULT_STYLES) && TableCovers(c.table, c.stream.styles) && c.stream.cursor == shot.cursor
  {
    hide GridShows;
  }

  /** One more publication of the log. */
  lemma {:induction false} NextShown(log: seq<Submission>, next: Submission, c: Client, frame: seq<Command<Text>>, before: Wire, after: Wire)
    requires Continues(log, next) && CompiledFor(c.stream, next.publication, before, frame, after)
    requires Ready(c, next.publication.rows, next.publication.cols)
    requires log != [] ==> ClientShows(c, log[|log| - 1].shot) && InSync(c.stream, next.publication, before.ids, before.next)
    requires log != [] ==> c.stream.revision == log[0].publication.revision
    ensures Deliver(c, frame).Some?
    ensures Deliver(c, frame).value.stream.revision == next.publication.revision
    ensures log != [] ==> next.publication.revision == log[0].publication.revision
    ensures var d := Deliver(c, frame).value;
            && Ready(d, next.publication.rows, next.publication.cols) && ClientShows(d, next.shot)
            && InSync(d.stream, next.publication, after.ids, after.next)
  {
    hide PublicationOf, ClientShows, InSync, CacheOk, FrameDenotes, Deliver;
    var p, base := next.publication, LastShot(log);
    if log != [] {
      TableKeepsDefault(c, base.value);
    }
    assert p.kind.Delta? ==> log != [] && !p.barrier;
    CursorOf(base, p, next.shot);
    DeliveryShows(c, base, p, next.shot, frame, after.ids, after.next);
    TableKeepsDefault(Deliver(c, frame).value, next.shot);
  }

  /** Every frame of the log is accepted, and after each the client shows what
      that publication shows. */
  lemma {:induction false} LogShows(log: seq<Submission>, frames: seq<seq<Command<Text>>>, wires: seq<Wire>, clients: seq<Client>,
                                    rows: nat, cols: nat, k: nat)
    requires LogOk(log) && DeliveredLog(log, frames, wires, clients) && k < |log|
    requires log[0].publication.rows == rows && log[0].publication.cols == cols && Ready(clients[0], rows, cols)
    ensures Deliver(clients[k], frames[k]) == Some(clients[k + 1])
    ensures Ready(clients[k + 1], rows, cols) && ClientShows(clients[k + 1], log[k].shot)
    ensures InSync(clients[k + 1].stream, log[k].publication, wires[k + 1].ids, wires[k + 1].next)
    ensures clients[k + 1].stream.revision == log[k].publication.revision == log[0].publication.revision
    ensures log[k].publication.rows == rows && log[k].publication.cols == cols
    decreases k
  {
    hide PublicationOf, ClientShows, CompiledFor, Ready, Deliver, FollowsBase, Continues;
    assert Continues(log[..k], log[k]);
    ContinuesSize(log[..k], log[k]);
    if k > 0 {
      LogShows(log, frames, wires, clients, rows, cols, k - 1);
      assert log[..k][|log[..k]| - 1] == log[k - 1];
      assert log[..k][0] == log[0];
      hide InSync;
      SameSync(clients[k].stream, log[k - 1].publication, log[k].publication, wires[k]);
      NextShown(log[..k], log[k], clients[k], frames[k], wires[k], wires[k + 1]);
    } else {
      NextShown(log[..k], log[k], clients[k], frames[k], wires[k], wires[k + 1]);
    }
  }

  lemma {:induction false} SameSync(client: DisplayState, p: Publication, q: Publication, wire: Wire)
    requires InSync(client, p, wire.ids, wire.next) && p.cols == q.cols && p.rows == q.rows
    ensures InSync(client, q, wire.ids, wire.next)
  {
  }

  /** End to end. In every run, once a pane is quiet, a client that has taken every
      frame of the lease shows the terminal's grid and cursor. */
  lemma {:induction false} ClientShowsTerminal(states: seq<System>, events: seq<Event>, i: nat,
                                               frames: seq<seq<Command<Text>>>, wires: seq<Wire>, clients: seq<Client>)
    requires Run(states, events) && i < |states|
    requires states[i].phase.attached && states[i].phase.pending.None? && !HasMutation(states[i].phase)
    requires DeliveredLog(states[i].log, frames, wires, clients)
    requires Ready(clients[0], states[i].terminal.rows, states[i].terminal.cols)
    ensures ClientShows(clients[|states[i].log|], TerminalShot(states[i].terminal))
    ensures LastAttach(events[..i]) == Some(clients[|states[i].log|].stream.revision)
  {
    hide Run, DeliveredLog, Ready, ClientShows, HasMutation, TerminalOk, DamageSound, PublicationOf, LogOk, Continues;
    var s := states[i];
    RunKeeps(states, events, i);
    RevisionAttached(states, events, i);
    QuietPaneIsPublished(states, events, i);
    LogShows(s.log, frames, wires, clients, s.terminal.rows, s.terminal.cols, |s.log| - 1);
  }

  /** So every cell of the client looks like the terminal's, exactly unless it is a
      blank with the one default ground for the other. */
  lemma {:induction false} ClientLooksLikeTerminal(states: seq<System>, events: seq<Event>, i: nat,
                                                   frames: seq<seq<Command<Text>>>, wires: seq<Wire>, clients: seq<Client>, r: nat, c: nat)
    requires Run(states, events) && i < |states|
    requires states[i].phase.attached && states[i].phase.pending.None? && !HasMutation(states[i].phase)
    requires DeliveredLog(states[i].log, frames, wires, clients)
    requires Ready(clients[0], states[i].terminal.rows, states[i].terminal.cols)
    requires r < |states[i].terminal.grid| && c < |states[i].terminal.grid[r]| && !states[i].terminal.grid[r][c].glyph.Continuation?
    ensures var client, cell := clients[|states[i].log|], states[i].terminal.grid[r][c];
            && r < |client.cache| && c < |client.cache[r]|
            && client.cache[r][c].styleId in client.stream.styles
            && (ScanLook(client.cache[r][c], client.stream.styles) == CellLook(cell) <==> !Mixed(client.cache[r][c], client.stream.styles, cell))
  {
    assert |clients| == |states[i].log| + 1;
    hide Run, DeliveredLog, Ready, HasMutation, LastAttach, TableCovers, Shows, ScanLook, Mixed;
    ClientShowsTerminal(states, events, i, frames, wires, clients);
    var client := clients[|states[i].log|];
    ShownLooks(client.cache[r][c], client.stream.styles, states[i].terminal.grid[r][c]);
  }

  // ------------------------------------------------- the confirmer over a log

  lemma {:induction false} LoggedWellFormed(log: seq<Submission>, k: nat)
    requires LogOk(log) && k < |log|
    ensures WellFormed(log[k].publication) && (k == 0 ==> log[k].publication.barrier)
    ensures forall used :: (k > 0 ==> used == Advanced(log[k - 1].publication)) ==> FollowsBase(used, log[k].publication)
    ensures log[k].publication.cols == log[0].publication.cols && log[k].publication.rows == log[0].publication.rows
  {
    assert Continues(log[..k], log[k]);
    hide KeyframeRuns, DeltaRuns, RunShowsGrid, OrderedRuns, WellFormed;
    if k == 0 {
      forall used ensures FollowsBase(used, log[0].publication) {
        BarrierFollows(log[0].publication, used);
      }
    } else {
      assert log[..k][|log[..k]| - 1] == log[k - 1] && log[..k][0] == log[0];
    }
  }

  lemma {:induction false} LogPrefix(log: seq<Submission>, k: nat)
    requires LogOk(log) && k <= |log|
    ensures LogOk(log[..k])
  {
    hide Continues;
    forall j | 0 <= j < k ensures Continues(log[..k][..j], log[..k][j]) {
      assert log[..k][..j] == log[..j];
    }
  }

  /** Between two frames, client and confirmer agree on the stream's state. */
  lemma {:induction false} SyncedBetween(log: seq<Submission>, k: nat, frames: seq<seq<Command<Text>>>, wires: seq<Wire>, clients: seq<Client>)
    requires LogOk(log) && 0 < k < |log| && DeliveredLog(log[..k], frames, wires, clients) && |wires| == |clients| == k + 1
    requires Ready(clients[0], log[0].publication.rows, log[0].publication.cols)
    ensures InSync(clients[k].stream, log[k].publication, wires[k].ids, wires[k].next)
  {
    hide DeliveredLog, LogOk, InSync, Ready, Continues;
    LogPrefix(log, k);
    assert log[..k][0] == log[0];
    LogShows(log[..k], frames, wires, clients, log[0].publication.rows, log[0].publication.cols, k - 1);
    LoggedWellFormed(log, k);
    LoggedWellFormed(log, k - 1);
    assert log[..k][k - 1] == log[k - 1];
    SameSync(clients[k].stream, log[k - 1].publication, log[k].publication, wires[k]);
  }

  function NextClient(c: Client, frame: seq<Command<Text>>): Client {
    match Deliver(c, frame)
    case Some(d) => d
    case None => c
  }

  lemma {:induction false} OneMoreDelivered(log: seq<Submission>, k: nat, frames: seq<seq<Command<Text>>>, wires: seq<Wire>, clients: seq<Client>,
                                            frame: seq<Command<Text>>, wire: Wire)
    requires k < |log| && DeliveredLog(log[..k], frames, wires, clients)
    requires CompiledFor(clients[k].stream, log[k].publication, wires[k], frame, wire)
    ensures DeliveredLog(log[..k + 1], frames + [frame], wires + [wire], clients + [NextClient(clients[k], frame)])
  {
    hide CompiledFor, Deliver;
    var some, more := log[..k], log[..k + 1];
    var allFrames, allWires, allClients := frames + [frame], wires + [wire], clients + [NextClient(clients[k], frame)];
    forall j | 0 <= j < |more|
      ensures CompiledFor(allClients[j].stream, more[j].publication, allWires[j], allFrames[j], allWires[j + 1])
      ensures Deliver(allClients[j], allFrames[j]).Some? ==> allClients[j + 1] == Deliver(allClients[j], allFrames[j]).value
    {
      if j < k {
        assert some[j] == more[j];
      }
    }
  }

  lemma {:induction false} NothingDelivered(log: seq<Submission>, wire: Wire, c: Client)
    ensures DeliveredLog(log[..0], [], [wire], [c])
  {
  }

  /** The publications of a lease compiled one after another, by a confirmer in any
      state, for a client in any ready state. Whatever has been compiled the client
      shows; compilation stops only at a publication that cannot be compiled. */
  method ConfirmLog(confirmer: PaneConfirmer, log: seq<Submission>, ghost first: Client)
    returns (frames: seq<seq<Command<Text>>>, failure: Option<Failure>, ghost wires: seq<Wire>, ghost clients: seq<Client>)
    requires LogOk(log)
    requires log != [] ==> Ready(first, log[0].publication.rows, log[0].publication.cols)
    modifies confirmer
    ensures |frames| <= |log| && (failure.None? <==> |frames| == |log|)
    ensures DeliveredLog(log[..|frames|], frames, wires, clients) && clients[0] == first
    ensures |frames| > 0 ==> ClientShows(clients[|frames|], log[|frames| - 1].shot)
    ensures failure.Some? ==>
              var p := log[|frames|].publication; !Compilable(p, if p.barrier then 1 else wires[|frames|].next)
  {
    hide *;
    frames, failure, wires, clients := [], None, [Wire(confirmer.styleIds, confirmer.nextStyleId)], [first];
    NothingDelivered(log, wires[0], first);
    while |frames| < |log|
      invariant |frames| <= |log| && failure.None? && |wires| == |clients| == |frames| + 1
      invariant DeliveredLog(log[..|frames|], frames, wires, clients) && clients[0] == first
      invariant wires[|frames|] == Wire(confirmer.styleIds, confirmer.nextStyleId)
      invariant |frames| > 0 ==> confirmer.Chain() == Advanced(log[|frames| - 1].publication) && confirmer.styleIds != map[]
      invariant |frames| > 0 ==> ClientShows(clients[|frames|], log[|frames| - 1].shot)
      decreases |log| - |frames|
    {
      ghost var k := |frames|;
      var result := ConfirmNext(confirmer, log, |frames|, frames, wires, clients);
      if result.Failed? {
        failure := Some(result.failure);
        return;
      }
      ghost var wire := Wire(confirmer.styleIds, confirmer.nextStyleId);
      OneMoreDelivered(log, k, frames, wires, clients, result.frame, wire);
      frames, wires, clients := frames + [result.frame], wires + [wire], clients + [NextClient(clients[k], result.frame)];
      LastShown(log, k, frames, wires, clients);
    }
  }

  /** The next publication of the log. */
  method ConfirmNext(confirmer: PaneConfirmer, log: seq<Submission>, k: nat,
                     ghost frames: seq<seq<Command<Text>>>, ghost wires: seq<Wire>, ghost clients: seq<Client>)
    returns (result: CompileResult)
    requires LogOk(log) && k < |log| && DeliveredLog(log[..k], frames, wires, clients) && |wires| == |clients| == k + 1
    requires Ready(clients[0], log[0].publication.rows, log[0].publication.cols)
    requires wires[k] == Wire(confirmer.styleIds, confirmer.nextStyleId)
    requires k > 0 ==> confirmer.Chain() == Advanced(log[k - 1].publication) && confirmer.styleIds != map[]
    modifies confirmer
    ensures var p := log[k].publication;
            && (result.Failed? ==> !Compilable(p, if p.barrier then 1 else wires[k].next))
            && (result.Compiled? ==>
                  && confirmer.Chain() == Advanced(p) && confirmer.styleIds != map[]
                  && CompiledFor(clients[k].stream, p, wires[k], result.frame, Wire(confirmer.styleIds, confirmer.nextStyleId)))
  {
    hide LogOk, DeliveredLog, Ready, ClientShows, InSync, Compilable, FailureExplained, CompiledFor, FrameDenotes, WellFormed, Continues, FollowsBase;
    var p := log[k].publication;
    LoggedWellFormed(log, k);
    if k > 0 {
      SyncedBetween(log, k, frames, wires, clients);
    }
    result := confirmer.Compile(p, clients[k].stream);
    if result.Failed? {
      Refusal(p, if p.barrier then 1 else wires[k].next, result.failure);
    } else {
      Compiles(clients[k].stream, p, wires[k], result.frame, Wire(confirmer.styleIds, confirmer.nextStyleId));
    }
  }

  lemma {:induction false} Refusal(p: Publication, start: nat, failure: Failure)
    requires WellFormed(p) && FailureExplained(p, start, failure)
    ensures !Compilable(p, start)
  {
    CompilableSends(p, start, failure);
  }

  lemma {:induction false} Compiles(client: DisplayState, p: Publication, before: Wire, frame: seq<Command<Text>>, after: Wire)
    requires FrameDenotes(client, frame, p, after.ids, after.next)
    ensures CompiledFor(client, p, before, frame, after)
  {
    hide FrameDenotes;
  }

  lemma {:induction false} LastShown(log: seq<Submission>, k: nat, frames: seq<seq<Command<Text>>>, wires: seq<Wire>, clients: seq<Client>)
    requires LogOk(log) && k < |log| && DeliveredLog(log[..k + 1], frames, wires, clients)
    requires Ready(clients[0], log[0].publication.rows, log[0].publication.cols)
    ensures ClientShows(clients[k + 1], log[k].shot)
  {
    hide LogOk, DeliveredLog, Ready, ClientShows, Continues, InSync;
    LogPrefix(log, k + 1);
    assert log[..k + 1][0] == log[0] && log[..k + 1][k] == log[k];
    LogShows(log[..k + 1], frames, wires, clients, log[0].publication.rows, log[0].publication.cols, k);
  }
}
