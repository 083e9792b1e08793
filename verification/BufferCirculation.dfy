/** The two publication buffers of a pane, circulating between its render loop and
    the workers of its output leases. Every interleaving of their steps keeps each
    buffer in exactly one place. */
module BufferCirculation {
  import opened Display

  const BUFFER_COUNT: nat := 2
  const FIFO_CAP: nat := 1

  type Buffer = nat

  const ALL_BUFFERS: multiset<Buffer> := multiset{0, 1}

  /** What a lease's queue holds: a publication in one of this pane's buffers, a sync
      request, or the publication of another pane the lease has been with. */
  datatype Message = Publish(buffer: Buffer) | Sync | Foreign

  /** One output lease: its queue, the publication its worker is writing, whether
      the worker has failed and whether it has exited. */
  datatype Lease = Lease(fifo: seq<Message>, held: Option<Buffer>, failed: bool, exited: bool)

  const NEW_LEASE := Lease([], None, false, false)

  /** The render loop's own state and every lease there has been. A lease outlives
      its attachments: it may come back, or go to other panes in between. */
  datatype Pane = Pane(free: seq<Buffer>, pending: Option<Buffer>, attached: Option<nat>, leases: seq<Lease>)

  const NEW_PANE := Pane([0, 1], None, None, [])

  datatype Event =
    | AttachTo
    | Reattach(lease: nat)
    | Prepare(publishes: bool)
    | CancelPending
    | HandOff
    | Detach
    | RequestSync(lease: nat)
    | Receive(lease: nat)
    | Finish(lease: nat, fails: bool)
    | Exit(lease: nat)
    | OtherHandOff(lease: nat)
    | OtherReclaim(lease: nat)

  function BufferOf(m: Message): seq<Buffer> {
    if m.Publish? then [m.buffer] else []
  }

  function Queued(fifo: seq<Message>): seq<Buffer> {
    if fifo == [] then []
    else Queued(fifo[..|fifo| - 1]) + BufferOf(fifo[|fifo| - 1])
  }

  /** `reclaimAbandoned`: takes what an exited worker's queue still holds. */
  function Reclaimed(p: Pane): Pane {
    if p.attached.Some? && p.attached.value < |p.leases| && p.leases[p.attached.value].exited then
      var lease := p.leases[p.attached.value];
      p.(free := p.free + Queued(lease.fifo), leases := p.leases[p.attached.value := lease.(fifo := [])])
    else p
  }

  function Cancelled(p: Pane): Pane {
    if p.pending.Some? then p.(free := p.free + [p.pending.value], pending := None) else p
  }

  /** The worker took the first message of its queue. A failed worker only releases. */
  ghost predicate Received(p: Pane, l: nat, m: Message, rest: Lease, q: Pane)
    requires l < |p.leases|
  {
    match m
    case Sync => q == p.(leases := p.leases[l := rest])
    case Foreign => q == p.(leases := p.leases[l := rest]) || q == p.(leases := p.leases[l := rest.(failed := true)])
    case Publish(b) =>
      q == if rest.failed then p.(free := p.free + [b], leases := p.leases[l := rest])
           else p.(leases := p.leases[l := rest.(held := Some(b))])
  }

  /** Each step of either goroutine, when it can be taken, and what it leaves. */
  ghost predicate Step(p: Pane, e: Event, q: Pane) {
    match e
    case AttachTo => p.attached.None? && q == p.(attached := Some(|p.leases|), leases := p.leases + [NEW_LEASE])
    case Reattach(l) => p.attached.None? && l < |p.leases| && q == p.(attached := Some(l))
    case Prepare(publishes) =>
      && p.attached.Some? && p.pending.None? && p.free != []
      && q == (if publishes then p.(free := p.free[1..], pending := Some(p.free[0])) else p.(free := p.free[1..] + [p.free[0]]))
    case CancelPending => q == Cancelled(p)
    case HandOff =>
      && p.attached.Some? && p.pending.Some? && p.attached.value < |p.leases|
      && var lease := p.leases[p.attached.value];
         && |lease.fifo| < FIFO_CAP
         && q == p.(pending := None, leases := p.leases[p.attached.value := lease.(fifo := lease.fifo + [Publish(p.pending.value)])])
    case Detach => q == Reclaimed(Cancelled(p)).(attached := None)
    case RequestSync(l) =>
      && l < |p.leases| && |p.leases[l].fifo| < FIFO_CAP
      && q == p.(leases := p.leases[l := p.leases[l].(fifo := p.leases[l].fifo + [Sync])])
    case Receive(l) =>
      && l < |p.leases|
      && var lease := p.leases[l];
         && !lease.exited && lease.held.None? && lease.fifo != []
         && Received(p, l, lease.fifo[0], lease.(fifo := lease.fifo[1..]), q)
    case Finish(l, fails) =>
      && l < |p.leases| && p.leases[l].held.Some?
      && q == p.(free := p.free + [p.leases[l].held.value],
                 leases := p.leases[l := p.leases[l].(held := None, failed := p.leases[l].failed || fails)])
    case Exit(l) =>
      && l < |p.leases| && !p.leases[l].exited && p.leases[l].held.None?
      && q == p.(free := p.free + Queued(p.leases[l].fifo), leases := p.leases[l := p.leases[l].(fifo := [], exited := true)])
    case OtherHandOff(l) =>
      && l < |p.leases| && p.attached != Some(l) && |p.leases[l].fifo| < FIFO_CAP
      && q == p.(leases := p.leases[l := p.leases[l].(fifo := p.leases[l].fifo + [Foreign])])
    case OtherReclaim(l) =>
      && l < |p.leases| && p.attached != Some(l) && p.leases[l].exited
      && q == p.(free := p.free + Queued(p.leases[l].fifo), leases := p.leases[l := p.leases[l].(fifo := [])])
  }

  // --------------------------------------------------------------- conservation

  function Times(buffers: seq<Buffer>, b: Buffer): nat {
    multiset(buffers)[b]
  }

  function Own(held: Option<Buffer>, b: Buffer): nat {
    if held == Some(b) then 1 else 0
  }

  /** How often a buffer is in a lease: queued or held. */
  function InLease(lease: Lease, b: Buffer): nat {
    Times(Queued(lease.fifo), b) + Own(lease.held, b)
  }

  function InLeases(leases: seq<Lease>, b: Buffer): nat {
    if leases == [] then 0 else InLeases(leases[..|leases| - 1], b) + InLease(leases[|leases| - 1], b)
  }

  /** In how many places a buffer is. */
  function Places(p: Pane, b: Buffer): nat {
    Times(p.free, b) + Own(p.pending, b) + InLeases(p.leases, b)
  }

  /** Each buffer is in exactly one place; a lease let go of by an exited worker and
      the render loop alike holds none. */
  ghost predicate Conserved(p: Pane) {
    && (forall b: Buffer :: Places(p, b) == if b < BUFFER_COUNT then 1 else 0)
    && Shape(p)
  }

  lemma {:induction false} TimesAppend(x: seq<Buffer>, y: seq<Buffer>, b: Buffer)
    ensures Times(x + y, b) == Times(x, b) + Times(y, b)
    ensures Times([], b) == 0
    ensures forall c: Buffer :: Times([c], b) == if c == b then 1 else 0
  {
  }

  lemma {:induction false} QueuedAppend(fifo: seq<Message>, m: Message)
    ensures Queued(fifo + [m]) == Queued(fifo) + BufferOf(m)
  {
    assert (fifo + [m])[..|fifo|] == fifo;
  }

  lemma {:induction false} QueuedFirst(fifo: seq<Message>)
    requires fifo != []
    ensures Queued(fifo) == BufferOf(fifo[0]) + Queued(fifo[1..])
    decreases |fifo|
  {
    if |fifo| == 1 {
      assert fifo == [] + [fifo[0]];
      QueuedAppend([], fifo[0]);
    } else {
      QueuedFirst(fifo[..|fifo| - 1]);
      assert fifo[1..][..|fifo| - 2] == fifo[..|fifo| - 1][1..];
    }
  }

  /** Changing one lease changes the sum by that lease. */
  lemma {:induction false} InLeasesUpdate(leases: seq<Lease>, l: nat, lease: Lease, b: Buffer)
    requires l < |leases|
    ensures InLeases(leases[l := lease], b) == InLeases(leases, b) - InLease(leases[l], b) + InLease(lease, b)
    decreases |leases|
  {
    hide InLease;
    var init := leases[..|leases| - 1];
    if l < |init| {
      assert leases[l := lease][..|init|] == init[l := lease];
      InLeasesUpdate(init, l, lease, b);
    } else {
      assert leases[l := lease][..|init|] == init;
    }
  }

  lemma {:induction false} InLeasesAppend(leases: seq<Lease>, lease: Lease, b: Buffer)
    ensures InLeases(leases + [lease], b) == InLeases(leases, b) + InLease(lease, b)
  {
    assert (leases + [lease])[..|leases|] == leases;
  }

  lemma {:induction false} NoneQueued()
    ensures Queued([]) == []
  {
  }

  /** The count of every buffer survives a cancellation. */
  lemma {:induction false} CancelPlaces(p: Pane, b: Buffer)
    ensures Places(Cancelled(p), b) == Places(p, b)
  {
    hide InLeases, Times;
    if p.pending.Some? {
      TimesAppend(p.free, [p.pending.value], b);
    }
  }

  lemma {:induction false} ReclaimPlaces(p: Pane, b: Buffer)
    requires p.attached.Some? && p.attached.value < |p.leases| && p.leases[p.attached.value].held.None?
    ensures Places(Reclaimed(p), b) == Places(p, b)
  {
    hide InLeases, Times, Queued;
    var l, lease := p.attached.value, p.leases[p.attached.value];
    if lease.exited {
      InLeasesUpdate(p.leases, l, lease.(fifo := []), b);
      TimesAppend(p.free, Queued(lease.fifo), b);
      NoneQueued();
    }
  }

  lemma {:induction false} StepPlaces(p: Pane, e: Event, q: Pane, b: Buffer)
    requires Conserved(p) && Step(p, e, q)
    ensures Places(q, b) == Places(p, b)
  {
    hide InLeases, Times, Queued, Conserved;
    NoneQueued();
    TimesAppend([], [], b);
    match e
    case AttachTo => InLeasesAppend(p.leases, NEW_LEASE, b);
    case Reattach(_) =>
    case Prepare(_) =>
      TimesAppend([p.free[0]], p.free[1..], b);
      TimesAppend(p.free[1..], [p.free[0]], b);
      assert p.free == [p.free[0]] + p.free[1..];
    case CancelPending => CancelPlaces(p, b);
    case HandOff =>
      var l, lease := p.attached.value, p.leases[p.attached.value];
      QueuedAppend(lease.fifo, Publish(p.pending.value));
      TimesAppend(Queued(lease.fifo), [p.pending.value], b);
      InLeasesUpdate(p.leases, l, lease.(fifo := lease.fifo + [Publish(p.pending.value)]), b);
    case Detach => DetachPlaces(p, b);
    case _ => WorkerPlaces(p, e, q, b);
  }

  lemma {:induction false} DetachPlaces(p: Pane, b: Buffer)
    requires Conserved(p)
    ensures Places(Reclaimed(Cancelled(p)), b) == Places(p, b)
  {
    hide Places, InLeases, Queued;
    CancelPlaces(p, b);
    if p.attached.Some? && p.leases[p.attached.value].exited {
      ReclaimPlaces(Cancelled(p), b);
    }
  }

  /** Steps of workers, sync requests and other panes. */
  predicate OfLease(e: Event) {
    e.RequestSync? || e.Receive? || e.Finish? || e.Exit? || e.OtherHandOff? || e.OtherReclaim?
  }

  lemma {:induction false} WorkerPlaces(p: Pane, e: Event, q: Pane, b: Buffer)
    requires Step(p, e, q) && OfLease(e)
    ensures Places(q, b) == Places(p, b)
  {
    hide InLeases, Times, Queued;
    NoneQueued();
    TimesAppend([], [], b);
    var l, lease := e.lease, p.leases[e.lease];
    InLeasesUpdate(p.leases, l, q.leases[l], b);
    match e
    case RequestSync(_) =>
      QueuedAppend(lease.fifo, Sync);
      TimesAppend(Queued(lease.fifo), [], b);
    case Receive(_) =>
      QueuedFirst(lease.fifo);
      var first := BufferOf(lease.fifo[0]);
      TimesAppend(first, Queued(lease.fifo[1..]), b);
      TimesAppend(p.free, first, b);
    case Finish(_, _) => TimesAppend(p.free, [lease.held.value], b);
    case OtherHandOff(_) =>
      QueuedAppend(lease.fifo, Foreign);
      TimesAppend(Queued(lease.fifo), [], b);
    case _ => TimesAppend(p.free, Queued(lease.fifo), b);
  }

  lemma {:induction false} StepKeeps(p: Pane, e: Event, q: Pane)
    requires Conserved(p) && Step(p, e, q)
    ensures Conserved(q)
  {
    forall b: Buffer ensures Places(q, b) == if b < BUFFER_COUNT then 1 else 0 {
      StepPlaces(p, e, q, b);
    }
    hide Places;
    if OfLease(e) {
      WorkerShape(p, e, q);
    } else {
      LoopShape(p, e, q);
    }
  }

  /** Everything but the counts. */
  ghost predicate Shape(p: Pane) {
    && (p.attached.Some? ==> p.attached.value < |p.leases|)
    && (p.pending.Some? ==> p.attached.Some?)
    && (forall l :: 0 <= l < |p.leases| ==> LeaseShape(p.leases[l], p.attached == Some(l)))
  }

  predicate LeaseShape(lease: Lease, attached: bool) {
    && |lease.fifo| <= FIFO_CAP
    && (lease.exited ==> lease.held.None?)
    && (lease.exited && !attached ==> Queued(lease.fifo) == [])
  }

  lemma {:induction false} LoopShape(p: Pane, e: Event, q: Pane)
    requires Shape(p) && Step(p, e, q) && !OfLease(e)
    ensures Shape(q)
  {
    hide Queued;
    NoneQueued();
  }

  lemma {:induction false} WorkerShape(p: Pane, e: Event, q: Pane)
    requires Shape(p) && Step(p, e, q) && OfLease(e)
    ensures Shape(q)
  {
    hide Queued;
    NoneQueued();
    if e.RequestSync? {
      QueuedAppend(p.leases[e.lease].fifo, Sync);
    } else if e.OtherHandOff? {
      QueuedAppend(p.leases[e.lease].fifo, Foreign);
    } else if e.Receive? {
      QueuedFirst(p.leases[e.lease].fifo);
    }
  }

  ghost predicate Run(states: seq<Pane>, events: seq<Event>) {
    && |states| == |events| + 1 && states[0] == NEW_PANE
    && forall i :: 0 <= i < |events| ==> Step(states[i], events[i], states[i + 1])
  }

  lemma {:induction false} RunConserves(states: seq<Pane>, events: seq<Event>, i: nat)
    requires Run(states, events) && i < |states|
    ensures Conserved(states[i])
    decreases i
  {
    hide Step, Conserved;
    if i == 0 {
      StartConserved();
    } else {
      RunConserves(states, events, i - 1);
      StepKeeps(states[i - 1], events[i - 1], states[i]);
    }
  }

  lemma {:induction false} StartConserved()
    ensures Conserved(NEW_PANE)
  {
    forall b: Buffer ensures Times([0, 1], b) == if b < BUFFER_COUNT then 1 else 0 {
    }
  }

  /** A queue of distinct buffers is no longer than there are buffers. */
  lemma {:induction false} FewBuffers(buffers: seq<Buffer>)
    requires forall b: Buffer :: Times(buffers, b) <= if b < BUFFER_COUNT then 1 else 0
    ensures |buffers| <= BUFFER_COUNT
    ensures (exists b: Buffer :: b < BUFFER_COUNT && Times(buffers, b) == 0) ==> |buffers| < BUFFER_COUNT
  {
    assert multiset(buffers) <= ALL_BUFFERS by {
      forall b: Buffer ensures multiset(buffers)[b] <= ALL_BUFFERS[b] {
        assert Times(buffers, b) <= if b < BUFFER_COUNT then 1 else 0;
      }
    }
    assert |multiset(buffers)| + |ALL_BUFFERS - multiset(buffers)| == |ALL_BUFFERS|;
    assert |multiset(buffers)| == |buffers|;
    if b: Buffer :| b < BUFFER_COUNT && Times(buffers, b) == 0 {
      assert b in ALL_BUFFERS - multiset(buffers);
    }
  }

  /** In every interleaving each buffer is in exactly one place, so the free queue
      never overflows and a release never blocks. */
  lemma {:induction false} ReleaseNeverBlocks(states: seq<Pane>, events: seq<Event>, i: nat)
    requires Run(states, events) && i < |states|
    ensures forall b: Buffer :: Places(states[i], b) == if b < BUFFER_COUNT then 1 else 0
    ensures |states[i].free| <= BUFFER_COUNT
    ensures states[i].pending.Some? ==> |states[i].free| < BUFFER_COUNT
    ensures forall l :: 0 <= l < |states[i].leases| && states[i].leases[l].held.Some? ==> |states[i].free| < BUFFER_COUNT
  {
    hide Run, Times, InLeases;
    RunConserves(states, events, i);
    var p := states[i];
    forall b: Buffer ensures Times(p.free, b) <= if b < BUFFER_COUNT then 1 else 0 {
      assert Places(p, b) == if b < BUFFER_COUNT then 1 else 0;
    }
    FewBuffers(p.free);
    if p.pending.Some? {
      assert Places(p, p.pending.value) >= 1;
    }
    forall l | 0 <= l < |p.leases| && p.leases[l].held.Some? ensures |p.free| < BUFFER_COUNT {
      var b := p.leases[l].held.value;
      HeldCounts(p.leases, l, b);
      assert Places(p, b) == if b < BUFFER_COUNT then 1 else 0;
    }
  }

  lemma {:induction false} HeldCounts(leases: seq<Lease>, l: nat, b: Buffer)
    requires l < |leases| && leases[l].held == Some(b)
    ensures InLeases(leases, b) >= 1
    decreases |leases|
  {
    if l < |leases| - 1 {
      HeldCounts(leases[..|leases| - 1], l, b);
    }
  }

  lemma {:induction false} NoneInLeases(leases: seq<Lease>, b: Buffer)
    requires forall l :: 0 <= l < |leases| ==> Queued(leases[l].fifo) == [] && leases[l].held.None?
    ensures InLeases(leases, b) == 0
    decreases |leases|
  {
    if leases != [] {
      NoneInLeases(leases[..|leases| - 1], b);
    }
  }

  /** Once the pane is detached and its workers have exited, both buffers are free. */
  lemma {:induction false} AllReturn(states: seq<Pane>, events: seq<Event>, i: nat)
    requires Run(states, events) && i < |states|
    requires states[i].attached.None? && forall l :: 0 <= l < |states[i].leases| ==> states[i].leases[l].exited
    ensures multiset(states[i].free) == ALL_BUFFERS
  {
    hide Run, InLeases;
    RunConserves(states, events, i);
    var p := states[i];
    forall b: Buffer ensures multiset(p.free)[b] == ALL_BUFFERS[b] {
      NoneInLeases(p.leases, b);
      assert Places(p, b) == if b < BUFFER_COUNT then 1 else 0;
    }
  }
}
