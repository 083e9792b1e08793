/** Admission of PTY reads: one opportunity an interval, one immediate bypass a
    burst, and a byte cap on each. Times are in nanoseconds. */
module PtyPacing {
  import opened Display

  const BYTE_BUDGET: nat := 65536
  const READ_BUFFER: nat := 32768
  const TIME_BUDGET: nat := 2000000

  // ------------------------------------------------------------ the admission

  datatype Admission = Admission(credit: bool, bypassUsed: bool, deadline: Option<int>)

  const INITIAL := Admission(true, false, None)

  function Admitted(s: Admission, now: int, interval: nat): Admission {
    var rested := s.credit && s.deadline.Some? && now >= s.deadline.value + interval;
    Admission(false, s.bypassUsed && !rested, Some(now + interval))
  }

  function TimerFired(s: Admission): Admission {
    s.(credit := true)
  }

  function Granted(s: Admission): Admission {
    if !s.credit && !s.bypassUsed then s.(credit := true, bypassUsed := true) else s
  }

  class PtyAdmissionState {
    var credit: bool
    var bypassUsed: bool
    var deadline: Option<int>
    const interval: nat

    function State(): Admission
      reads this
    {
      Admission(credit, bypassUsed, deadline)
    }

    constructor (interval: nat)
      ensures State() == INITIAL && this.interval == interval
    {
      credit, bypassUsed, deadline, this.interval := true, false, None, interval;
    }

    method CanAdmit() returns (ok: bool)
      ensures ok == State().credit
    {
      ok := credit;
    }

    method Admit(now: int)
      modifies this
      ensures State() == Admitted(old(State()), now, interval)
    {
      if credit && deadline.Some? && !(now < deadline.value + interval) {
        bypassUsed := false;
      }
      credit := false;
      deadline := Some(now + interval);
    }

    method OnTimer()
      modifies this
      ensures State() == TimerFired(old(State()))
    {
      credit := true;
    }

    method GrantImmediateOpportunity()
      modifies this
      ensures State() == Granted(old(State()))
    {
      if !credit && !bypassUsed {
        credit := true;
        bypassUsed := true;
      }
    }
  }

  // --------------------------------------------------------------- one drain

  datatype StopReason = Empty | ByteBudget | TimeBudget | Eof | Failed | Cancelled

  datatype ReadError = NoError | Again | Interrupted | EndOfFile | OtherError

  /** What the descriptor answers at one turn of the loop, had it been asked to
      read: readiness, and a result that depends on the buffer offered. */
  datatype Turn = Turn(pollFailed: bool, ready: bool, elapsed: nat, cancelled: bool, available: nat, error: ReadError)

  function Taken(turn: Turn, room: nat): nat {
    if turn.available < room then turn.available else room
  }

  function Smaller(a: nat, b: nat): (least: nat)
    ensures least <= a && least <= b && (least == a || least == b)
  {
    if a < b then a else b
  }

  /** What these turns had to give, a buffer each. */
  function Offered(turns: seq<Turn>): nat {
    if turns == [] then 0
    else Offered(turns[..|turns| - 1]) + Taken(turns[|turns| - 1], READ_BUFFER)
  }

  /** A read into the room left takes the next offer up to the byte budget. */
  lemma {:induction false} TakeNext(turns: seq<Turn>, k: nat, bytesRead: nat)
    requires k < |turns| && bytesRead == Smaller(BYTE_BUDGET, Offered(turns[..k])) && bytesRead < BYTE_BUDGET
    ensures var n := Taken(turns[k], Smaller(BYTE_BUDGET - bytesRead, READ_BUFFER));
            bytesRead + n == Smaller(BYTE_BUDGET, Offered(turns[..k + 1])) && n <= READ_BUFFER
  {
    assert turns[..k + 1][..k] == turns[..k];
  }

  /** What ends an opportunity before a read, in the order asked. */
  predicate Blocks(turn: Turn, readCount: nat, bytesRead: nat, reason: StopReason) {
    match reason
    case Failed => turn.pollFailed
    case Empty => !turn.pollFailed && !turn.ready
    case ByteBudget => !turn.pollFailed && turn.ready && bytesRead == BYTE_BUDGET
    case TimeBudget => !turn.pollFailed && turn.ready && bytesRead < BYTE_BUDGET && OutOfTime(turn, readCount)
    case Cancelled => !turn.pollFailed && turn.ready && bytesRead < BYTE_BUDGET && !OutOfTime(turn, readCount) && turn.cancelled
    case Eof => false
  }

  /** The time budget never stops the first read. */
  predicate OutOfTime(turn: Turn, readCount: nat) { readCount > 0 && turn.elapsed >= TIME_BUDGET }

  /** What ends it after one. */
  function AfterRead(error: ReadError): Option<StopReason> {
    match error
    case NoError => None
    case Again => Some(Empty)
    case Interrupted => Some(Empty)
    case EndOfFile => Some(Eof)
    case OtherError => Some(Failed)
  }

  /** Why an opportunity ended after so many reads. */
  predicate StopExplained(turns: seq<Turn>, readCount: nat, bytesRead: nat, reason: Option<StopReason>)
    requires readCount <= |turns|
  {
    if readCount > 0 && !turns[readCount - 1].error.NoError? then reason == AfterRead(turns[readCount - 1].error)
    else if readCount == |turns| then reason.None?
    else reason.Some? && Blocks(turns[readCount], readCount, bytesRead, reason.value)
  }

  lemma {:induction false} Ended(turns: seq<Turn>, readCount: nat, bytesRead: nat, reason: Option<StopReason>)
    requires readCount <= |turns|
    ensures readCount > 0 && !turns[readCount - 1].error.NoError? && reason == AfterRead(turns[readCount - 1].error) ==>
              StopExplained(turns, readCount, bytesRead, reason)
    ensures (readCount > 0 ==> turns[readCount - 1].error.NoError?) && readCount == |turns| && reason.None? ==>
              StopExplained(turns, readCount, bytesRead, reason)
    ensures (readCount > 0 ==> turns[readCount - 1].error.NoError?) && readCount < |turns| && reason.Some? ==>
              (Blocks(turns[readCount], readCount, bytesRead, reason.value) ==> StopExplained(turns, readCount, bytesRead, reason))
  {
  }

  lemma {:induction false} ErrorEnds(error: ReadError)
    ensures AfterRead(error).None? <==> error.NoError?
  {
  }

  method MayRead(turn: Turn, readCount: nat, bytesRead: nat) returns (reason: Option<StopReason>)
    requires bytesRead <= BYTE_BUDGET
    ensures reason.Some? ==> Blocks(turn, readCount, bytesRead, reason.value)
    ensures reason.None? <==> forall any :: !Blocks(turn, readCount, bytesRead, any)
    ensures reason.None? ==> bytesRead < BYTE_BUDGET
  {
    if turn.pollFailed {
      assert Blocks(turn, readCount, bytesRead, Failed);
      return Some(Failed);
    }
    if !turn.ready {
      assert Blocks(turn, readCount, bytesRead, Empty);
      return Some(Empty);
    }
    if bytesRead >= BYTE_BUDGET {
      assert Blocks(turn, readCount, bytesRead, ByteBudget);
      return Some(ByteBudget);
    }
    if readCount > 0 && turn.elapsed >= TIME_BUDGET {
      assert Blocks(turn, readCount, bytesRead, TimeBudget);
      return Some(TimeBudget);
    }
    if turn.cancelled {
      assert Blocks(turn, readCount, bytesRead, Cancelled);
      return Some(Cancelled);
    }
    reason := None;
  }

  datatype Drain = Drain(turns: seq<Turn>, bytesRead: nat, readCount: nat, reason: Option<StopReason>, chunks: seq<nat>)

  /** What one opportunity comes to: everything offered in the turns it read, up to
      the byte budget, in chunks of at most a buffer, and the reason it ended. */
  ghost predicate Drained(d: Drain) {
    && d.readCount <= |d.turns| && |d.chunks| <= d.readCount
    && d.bytesRead == Smaller(BYTE_BUDGET, Offered(d.turns[..d.readCount])) && d.bytesRead == Sum(d.chunks)
    && (forall i :: 0 <= i < |d.chunks| ==> 0 < d.chunks[i] <= READ_BUFFER)
    && (forall i :: 0 <= i < d.readCount - 1 ==> d.turns[i].error.NoError?)
    && StopExplained(d.turns, d.readCount, d.bytesRead, d.reason)
  }

  /** `drainPTYOpportunity`: takes everything offered up to the byte budget, hands
      it on in chunks, and stops for a reason. */
  method DrainOpportunity(turns: seq<Turn>) returns (bytesRead: nat, readCount: nat, reason: Option<StopReason>, chunks: seq<nat>)
    ensures Drained(Drain(turns, bytesRead, readCount, reason, chunks))
  {
    bytesRead, readCount, reason, chunks := 0, 0, None, [];
    assert turns[..0] == [];
    assert Smaller(BYTE_BUDGET, Offered([])) == 0 && Sum([]) == 0;
    assert turns == [] ==> StopExplained(turns, 0, 0, None);
    hide Offered, Sum, Blocks, Taken, Smaller, StopExplained, AfterRead, Drained;
    while readCount < |turns|
      invariant 0 <= readCount <= |turns| && |chunks| <= readCount
      invariant bytesRead == Smaller(BYTE_BUDGET, Offered(turns[..readCount])) && bytesRead == Sum(chunks) && bytesRead <= BYTE_BUDGET
      invariant forall i :: 0 <= i < |chunks| ==> 0 < chunks[i] <= READ_BUFFER
      invariant forall i :: 0 <= i < readCount ==> turns[i].error.NoError?
      invariant reason.None? && (readCount == |turns| ==> StopExplained(turns, readCount, bytesRead, reason))
    {
      var turn := turns[readCount];
      reason := MayRead(turn, readCount, bytesRead);
      if reason.Some? {
        Ended(turns, readCount, bytesRead, reason);
        DrainedNow(turns, bytesRead, readCount, reason, chunks);
        return;
      }
      TakeNext(turns, readCount, bytesRead);
      var n := Taken(turn, Smaller(BYTE_BUDGET - bytesRead, READ_BUFFER));
      SumAppend(chunks, n);
      readCount := readCount + 1;
      bytesRead := bytesRead + n;
      if n > 0 {
        chunks := chunks + [n];
      }
      ErrorEnds(turn.error);
      reason := AfterRead(turn.error);
      Ended(turns, readCount, bytesRead, reason);
      if reason.Some? {
        DrainedNow(turns, bytesRead, readCount, reason, chunks);
        return;
      }
    }
    DrainedNow(turns, bytesRead, readCount, reason, chunks);
  }

  lemma {:induction false} DrainedNow(turns: seq<Turn>, bytesRead: nat, readCount: nat, reason: Option<StopReason>, chunks: seq<nat>)
    requires readCount <= |turns| && |chunks| <= readCount
    requires bytesRead == Smaller(BYTE_BUDGET, Offered(turns[..readCount])) && bytesRead == Sum(chunks)
    requires forall i :: 0 <= i < |chunks| ==> 0 < chunks[i] <= READ_BUFFER
    requires forall i :: 0 <= i < readCount - 1 ==> turns[i].error.NoError?
    requires StopExplained(turns, readCount, bytesRead, reason)
    ensures Drained(Drain(turns, bytesRead, readCount, reason, chunks))
  {
    hide StopExplained, Sum, Offered;
  }

  function Sum(values: seq<nat>): nat {
    if values == [] then 0 else Sum(values[..|values| - 1]) + values[|values| - 1]
  }

  lemma {:induction false} SumAppend(values: seq<nat>, n: nat)
    ensures Sum(values + [n]) == Sum(values) + n
  {
    assert (values + [n])[..|values|] == values;
  }

  // ---------------------------------------------------------------- the runs

  /** The pane loop: its admission state, whether the timer armed by the last
      admission is still to fire, whether a drain is running, and the chunks that
      drain has yet to hand over. */
  datatype Loop = Loop(admission: Admission, armed: bool, drainActive: bool, toCome: seq<nat>, clock: int)

  datatype Event = Admit(at: int, drain: Drain) | Timer(at: int) | Grant(at: int) | Chunk(at: int, bytes: nat) | DrainDone(at: int)

  /** A timer fires no earlier than the interval after the admission that armed it;
      an admission needs credit and no running drain, and starts one, whose chunks
      then come in order. */
  ghost predicate Step(a: Loop, e: Event, b: Loop, interval: nat) {
    && a.clock <= e.at == b.clock
    && match e
       case Admit(at, drain) =>
         && a.admission.credit && !a.drainActive && Drained(drain) && drain.reason.Some?
         && b == Loop(Admitted(a.admission, at, interval), true, true, drain.chunks, at)
       case Timer(at) =>
         && a.armed && a.admission.deadline.Some? && at >= a.admission.deadline.value
         && b == a.(admission := TimerFired(a.admission), armed := false, clock := at)
       case Grant(at) => b == a.(admission := Granted(a.admission), clock := at)
       case Chunk(at, bytes) =>
         && a.drainActive && a.toCome != [] && bytes == a.toCome[0]
         && b == a.(toCome := a.toCome[1..], clock := at)
       case DrainDone(at) => a.drainActive && a.toCome == [] && b == a.(drainActive := false, clock := at)
  }

  ghost predicate Run(states: seq<Loop>, events: seq<Event>, interval: nat) {
    && |states| == |events| + 1
    && states[0].admission == INITIAL && !states[0].armed && !states[0].drainActive
    && forall i :: 0 <= i < |events| ==> Step(states[i], events[i], states[i + 1], interval)
  }

  function Admissions(events: seq<Event>): nat {
    if events == [] then 0 else Admissions(events[..|events| - 1]) + if events[|events| - 1].Admit? then 1 else 0
  }

  function Bytes(events: seq<Event>): nat {
    if events == [] then 0
    else Bytes(events[..|events| - 1]) + if events[|events| - 1].Chunk? then events[|events| - 1].bytes else 0
  }

  // ------------------------------------------------------------- the amortisation

  /** How far the admissions since one at `start` run ahead of one an interval. */
  function Lead(count: nat, start: int, last: int, interval: nat): int {
    (count - 1) * interval - (last - start)
  }

  /** The last admission was at the deadline less the interval; the lead is at most
      one interval, and none is left once the bypass is to be had again. Credit
      that came too early was that bypass, taken with no lead. */
  ghost predicate Paced(s: Loop, count: nat, start: int, interval: nat) {
    && s.admission.deadline.Some?
    && var last := s.admission.deadline.value - interval;
       var lead := Lead(count, start, last, interval);
       && last <= s.clock
       && lead <= interval
       && (!s.admission.bypassUsed ==> lead <= 0)
       && (s.admission.credit ==> s.clock >= s.admission.deadline.value || (s.admission.bypassUsed && lead <= 0))
  }

  lemma {:induction false} PacedStep(a: Loop, e: Event, b: Loop, count: nat, start: int, interval: nat)
    requires Paced(a, count, start, interval) && Step(a, e, b, interval)
    ensures Paced(b, if e.Admit? then count + 1 else count, start, interval)
  {
    if e.Admit? {
      var last := a.admission.deadline.value - interval;
      assert Lead(count + 1, start, e.at, interval) == Lead(count, start, last, interval) + interval - (e.at - last) by {
        assert (count + 1 - 1) * interval == (count - 1) * interval + interval;
      }
    }
  }

  /** Every admission starts a count of its own. */
  lemma {:induction false} PacedStart(a: Loop, e: Event, b: Loop, interval: nat)
    requires e.Admit? && Step(a, e, b, interval)
    ensures Paced(b, 1, e.at, interval)
  {
  }

  lemma {:induction false} PacedRun(states: seq<Loop>, events: seq<Event>, interval: nat, i: nat, j: nat)
    requires Run(states, events, interval) && i < j <= |events| && events[i].Admit?
    ensures Paced(states[j], Admissions(events[i..j]), events[i].at, interval)
    decreases j
  {
    hide Paced, Step;
    assert events[i..j][..j - i - 1] == events[i..j - 1];
    if j == i + 1 {
      assert events[i..j - 1] == [];
      PacedStart(states[i], events[i], states[j], interval);
    } else {
      PacedRun(states, events, interval, i, j - 1);
      PacedStep(states[j - 1], events[j - 1], states[j], Admissions(events[i..j - 1]), events[i].at, interval);
    }
  }

  /** In every run, n consecutive admissions span at least n - 2 intervals. */
  lemma {:induction false} AdmissionsSpread(states: seq<Loop>, events: seq<Event>, interval: nat, i: nat, j: nat)
    requires Run(states, events, interval) && i <= j < |events| && events[i].Admit? && events[j].Admit?
    ensures events[j].at - events[i].at >= (Admissions(events[i..j + 1]) - 2) * interval
  {
    PacedRun(states, events, interval, i, j + 1);
    assert Step(states[j], events[j], states[j + 1], interval);
    var n := Admissions(events[i..j + 1]);
    assert (n - 1) * interval == (n - 2) * interval + interval;
  }

  const IDLE := Drain([Turn(false, false, 0, false, 0, NoError)], 0, 0, Some(Empty), [])

  lemma {:induction false} NothingToDrain()
    ensures Drained(IDLE)
  {
    assert Offered(IDLE.turns[..0]) == 0 && Sum([]) == 0;
    assert Blocks(IDLE.turns[0], 0, 0, Empty);
  }

  /** The bound is met: two admissions can share one instant. */
  lemma {:induction false} BypassIsImmediate(interval: nat) returns (states: seq<Loop>, events: seq<Event>)
    ensures Run(states, events, interval) && |events| == 4 && events[0].Admit? && events[3].Admit?
    ensures events[3].at - events[0].at == 0 && Admissions(events) == 2
  {
    var idle := IDLE;
    NothingToDrain();
    hide Drained;
    var s0 := Loop(INITIAL, false, false, [], 0);
    var s1 := Loop(Admitted(INITIAL, 0, interval), true, true, [], 0);
    var s2 := s1.(drainActive := false);
    var s3 := s2.(admission := Granted(s2.admission));
    var s4 := Loop(Admitted(s3.admission, 0, interval), true, true, [], 0);
    states, events := [s0, s1, s2, s3, s4], [Admit(0, idle), DrainDone(0), Grant(0), Admit(0, idle)];
    assert Step(s0, events[0], s1, interval) && Step(s1, events[1], s2, interval);
    assert Step(s2, events[2], s3, interval) && Step(s3, events[3], s4, interval);
    var one: seq<Event> := [Admit(0, idle)];
    assert one[..0] == [] && events[..3][..2][..1] == one;
    assert Admissions(one) == 1 && Admissions(events[..3][..2]) == 1 && Admissions(events[..3]) == 1;
  }

  // -------------------------------------------------------- the bypass returns

  /** Between two admissions the deadline stays where the first one put it. */
  lemma {:induction false} DeadlineStays(states: seq<Loop>, events: seq<Event>, interval: nat, i: nat, k: nat)
    requires Run(states, events, interval) && i < k <= |events| && events[i].Admit?
    requires forall j :: i < j < k ==> !events[j].Admit?
    ensures states[k].admission.deadline == Some(events[i].at + interval)
    decreases k
  {
    hide Drained;
    assert Step(states[k - 1], events[k - 1], states[k], interval);
    if k > i + 1 {
      DeadlineStays(states, events, interval, i, k - 1);
    }
  }

  /** Right after an admission an immediate grant gives credit again exactly when no
      bypass had been used since the last rest, or when this admission came two
      intervals after the one before it. The first admission always leaves one. */
  lemma {:induction false} BypassReturns(states: seq<Loop>, events: seq<Event>, interval: nat, i: nat, k: nat)
    requires Run(states, events, interval) && i < k < |events| && events[i].Admit? && events[k].Admit?
    requires forall j :: i < j < k ==> !events[j].Admit?
    ensures Granted(states[k + 1].admission).credit <==>
              !states[k].admission.bypassUsed || events[k].at - events[i].at >= 2 * interval
  {
    hide Drained;
    DeadlineStays(states, events, interval, i, k);
    assert Step(states[k], events[k], states[k + 1], interval);
  }

  lemma {:induction false} FirstBypass(states: seq<Loop>, events: seq<Event>, interval: nat, k: nat)
    requires Run(states, events, interval) && k < |events| && events[k].Admit?
    requires forall j :: 0 <= j < k ==> !events[j].Admit?
    ensures Granted(states[k + 1].admission).credit
  {
    hide Drained;
    NoBypassYet(states, events, interval, k);
    assert Step(states[k], events[k], states[k + 1], interval);
  }

  lemma {:induction false} NoBypassYet(states: seq<Loop>, events: seq<Event>, interval: nat, k: nat)
    requires Run(states, events, interval) && k <= |events|
    requires forall j :: 0 <= j < k ==> !events[j].Admit?
    ensures states[k].admission == INITIAL && !states[k].armed
    decreases k
  {
    hide Drained;
    if k > 0 {
      NoBypassYet(states, events, interval, k - 1);
      assert Step(states[k - 1], events[k - 1], states[k], interval);
    }
  }

  /** Credit comes from the timer or from a bypass, and from nothing else. */
  lemma {:induction false} CreditComes(a: Loop, e: Event, b: Loop, interval: nat)
    requires Step(a, e, b, interval) && !a.admission.credit
    ensures b.admission.credit <==> e.Timer? || (e.Grant? && !a.admission.bypassUsed)
  {
    hide Drained;
  }

  // -------------------------------------------------------------- bytes read

  lemma {:induction false} SumFirst(values: seq<nat>)
    requires values != []
    ensures Sum(values) == values[0] + Sum(values[1..])
    decreases |values|
  {
    if |values| == 1 {
      assert values[..0] == [] && values[1..] == [];
    } else {
      SumFirst(values[..|values| - 1]);
      assert values[..|values| - 1][1..] == values[1..][..|values| - 2];
    }
  }

  /** What has come and is yet to come. */
  lemma {:induction false} DrainedRun(states: seq<Loop>, events: seq<Event>, interval: nat, i: nat, j: nat)
    requires Run(states, events, interval) && i < j <= |events| && events[i].Admit?
    ensures Bytes(events[i..j]) + Sum(states[j].toCome) <= Admissions(events[i..j]) * BYTE_BUDGET
    decreases j
  {
    hide Sum, Offered, StopExplained, Admitted, TimerFired, Granted;
    assert events[i..j][..j - i - 1] == events[i..j - 1];
    var a, e := states[j - 1], events[j - 1];
    assert Step(a, e, states[j], interval);
    if j == i + 1 {
      assert events[i..j - 1] == [];
    } else {
      DrainedRun(states, events, interval, i, j - 1);
      if e.Chunk? {
        SumFirst(a.toCome);
      }
    }
  }

  /** The bytes read by n admissions, up to the next one, are at most n caps. */
  lemma {:induction false} BytesBounded(states: seq<Loop>, events: seq<Event>, interval: nat, i: nat, j: nat)
    requires Run(states, events, interval) && i < j <= |events| && events[i].Admit?
    ensures Bytes(events[i..j]) <= Admissions(events[i..j]) * BYTE_BUDGET
  {
    DrainedRun(states, events, interval, i, j);
  }
}
