/** The ordered mailbox of a client connection: producers reserve a place in daemon
    order and complete it whenever they like; one worker hands the commands to the
    client in reservation order. */
module Delivery {
  import opened Display

  const TOKENS: nat := 64
  const QUEUE_CAP: nat := 63

  type Command = nat

  datatype Completion = Completion(command: Command, skip: bool)

  /** One reservation: the token it was given, and its completion once its producer
      has finished it. */
  datatype Reservation = Reservation(token: nat, completion: Option<Completion>)

  /** A command on its way to the client actor, with the reservation it is of;
      fences and status refreshes are of none. */
  datatype Outgoing = Outgoing(reservation: Option<nat>, command: Command)

  datatype Worker = Idle | Waiting(reservation: nat) | Handing(outgoing: Outgoing) | Closing(fence: Command) | Stopped

  datatype Mailbox = Mailbox(
    available: seq<nat>,
    required: seq<nat>,
    channels: map<nat, Completion>,
    fence: Option<Command>,
    saturated: bool,
    worker: Worker,
    reservations: seq<Reservation>,
    delivered: seq<Outgoing>)

  datatype Event =
    | Reserve(fenceCommand: Command)
    | Finish(reservation: nat, completion: Completion)
    | TakeFence
    | TakeRequired
    | TakeRefresh(command: Command)
    | Complete
    | HandOver
    | Stop

  function Tokens(): (tokens: seq<nat>)
    ensures |tokens| == TOKENS && forall t :: 0 <= t < TOKENS ==> tokens[t] == t
  {
    seq(TOKENS, t => t)
  }

  const NEW_MAILBOX := Mailbox(Tokens(), [], map[], None, false, Idle, [], [])

  /** `fenceSaturatedDelivery`. */
  function Fenced(m: Mailbox, command: Command): Mailbox {
    m.(saturated := true, fence := if m.fence.Some? then m.fence else Some(command))
  }

  /** `reserveRequired`: a token and a place in the queue, or the fence. */
  function Reserved(m: Mailbox, fenceCommand: Command): Mailbox {
    if m.available == [] then Fenced(m, fenceCommand)
    else if |m.required| < QUEUE_CAP then
      m.(available := m.available[1..], required := m.required + [|m.reservations|],
         reservations := m.reservations + [Reservation(m.available[0], None)])
    else Fenced(m.(available := m.available[1..] + [m.available[0]]), fenceCommand)
  }

  /** `finish`: into the token's channel of one, unless it is full. */
  function Finished(m: Mailbox, r: nat, completion: Completion): Mailbox
    requires r < |m.reservations|
  {
    var token := m.reservations[r].token;
    m.(reservations := m.reservations[r := m.reservations[r].(completion := Some(completion))],
       channels := if token in m.channels then m.channels else m.channels[token := completion])
  }

  /** Each step of the producers, the daemon and the worker. A reservation is
      finished at most once. */
  ghost predicate Step(m: Mailbox, e: Event, n: Mailbox) {
    match e
    case Reserve(fenceCommand) => n == Reserved(m, fenceCommand)
    case Finish(r, completion) =>
      r < |m.reservations| && m.reservations[r].completion.None? && n == Finished(m, r, completion)
    case TakeFence =>
      && m.fence.Some?
      && (m.worker.Idle? || m.worker.Waiting? || m.worker.Handing?)
      && n == m.(fence := None, worker := if m.worker.Handing? then Closing(m.fence.value) else Handing(Outgoing(None, m.fence.value)))
    case TakeRequired => m.worker.Idle? && m.required != [] && n == m.(required := m.required[1..], worker := Waiting(m.required[0]))
    case TakeRefresh(command) => m.worker.Idle? && n == m.(worker := Handing(Outgoing(None, command)))
    case Complete =>
      && m.worker.Waiting? && m.worker.reservation < |m.reservations|
      && var token := m.reservations[m.worker.reservation].token;
         && token in m.channels
         && n == m.(channels := m.channels - {token}, available := m.available + [token],
                    worker := if m.channels[token].skip then Idle
                              else Handing(Outgoing(Some(m.worker.reservation), m.channels[token].command)))
    case HandOver =>
      || (m.worker.Handing? && n == m.(worker := Idle, delivered := m.delivered + [m.worker.outgoing]))
      || (m.worker.Closing? && n == m.(worker := Idle, delivered := m.delivered + [Outgoing(None, m.worker.fence)]))
    case Stop => n == m.(worker := Stopped)
  }

  // -------------------------------------------------------------------- tokens

  function Times(tokens: seq<nat>, t: nat): nat {
    if tokens == [] then 0 else Times(tokens[..|tokens| - 1], t) + if tokens[|tokens| - 1] == t then 1 else 0
  }

  lemma {:induction false} TimesAppend(a: seq<nat>, b: seq<nat>, t: nat)
    ensures Times(a + b, t) == Times(a, t) + Times(b, t)
    decreases |b|
  {
    if b == [] {
      assert a + b == a;
    } else {
      assert (a + b)[..|a + b| - 1] == a + b[..|b| - 1];
      TimesAppend(a, b[..|b| - 1], t);
    }
  }

  lemma {:induction false} TimesOne(x: nat, t: nat)
    ensures Times([x], t) == (if x == t then 1 else 0) && Times([], t) == 0
  {
    assert [x][..0] == [];
  }

  lemma {:induction false} TimesIn(tokens: seq<nat>, i: nat)
    requires i < |tokens|
    ensures Times(tokens, tokens[i]) >= 1
    decreases |tokens|
  {
    if i < |tokens| - 1 {
      TimesIn(tokens[..|tokens| - 1], i);
    }
  }

  /** The tokens of queued reservations. */
  function TokensOf(ids: seq<nat>, reservations: seq<Reservation>): (tokens: seq<nat>)
    ensures |tokens| == |ids|
  {
    seq(|ids|, i requires 0 <= i < |ids| => if ids[i] < |reservations| then reservations[ids[i]].token else TOKENS)
  }

  lemma {:induction false} TokensOfAppend(a: seq<nat>, b: seq<nat>, reservations: seq<Reservation>)
    ensures TokensOf(a + b, reservations) == TokensOf(a, reservations) + TokensOf(b, reservations)
  {
  }

  lemma {:induction false} TokensOfLater(ids: seq<nat>, reservations: seq<Reservation>, more: seq<Reservation>)
    requires |reservations| <= |more| && forall i :: 0 <= i < |reservations| ==> more[i].token == reservations[i].token
    requires forall i :: 0 <= i < |ids| ==> ids[i] < |reservations|
    ensures TokensOf(ids, more) == TokensOf(ids, reservations)
  {
  }

  /** The reservations whose tokens are out: the worker's, then the queue's. */
  function Outstanding(m: Mailbox): seq<nat> {
    (if m.worker.Waiting? then [m.worker.reservation] else []) + m.required
  }

  function Spread(m: Mailbox, t: nat): nat {
    Times(m.available, t) + Times(TokensOf(Outstanding(m), m.reservations), t)
  }

  // ------------------------------------------------------------------ invariant

  ghost predicate Ascending(ids: seq<nat>, from: nat, to: nat) {
    && (forall i, j :: 0 <= i < j < |ids| ==> ids[i] < ids[j])
    && (forall i :: 0 <= i < |ids| ==> from <= ids[i] < to)
  }

  function DeliveredIds(delivered: seq<Outgoing>): seq<nat> {
    if delivered == [] then []
    else
      var last := delivered[|delivered| - 1].reservation;
      DeliveredIds(delivered[..|delivered| - 1]) + if last.Some? then [last.value] else []
  }

  /** Reservations already behind the worker. */
  function Passed(m: Mailbox): seq<nat> {
    DeliveredIds(m.delivered) + if m.worker.Handing? && m.worker.outgoing.reservation.Some? then [m.worker.outgoing.reservation.value] else []
  }

  /** What was delivered for a reservation is what its producer finished it with. */
  ghost predicate Honest(out: Outgoing, reservations: seq<Reservation>) {
    out.reservation.Some? ==>
      && out.reservation.value < |reservations|
      && reservations[out.reservation.value].completion == Some(Completion(out.command, false))
  }

  predicate ChannelOf(channels: map<nat, Completion>, r: Reservation) {
    match r.completion
    case None => r.token !in channels
    case Some(completion) => r.token in channels && channels[r.token] == completion
  }

  /** A token is in at most one place, until a saturation fence in exactly one. */
  ghost predicate TokensSplit(m: Mailbox) {
    && (forall t: nat :: Spread(m, t) <= if t < TOKENS then 1 else 0)
    && (!m.saturated && !m.worker.Stopped? ==> forall t: nat :: t < TOKENS ==> Spread(m, t) == 1)
    && (m.fence.Some? ==> m.saturated)
  }

  /** A token's channel holds the completion of the reservation it is out for, once
      that is finished; a token at hand has an empty channel; the token of a
      reservation the worker gave up on never comes back. */
  ghost predicate ChannelsOk(m: Mailbox) {
    && (forall i :: 0 <= i < |Outstanding(m)| ==> Outstanding(m)[i] < |m.reservations|)
    && (forall i :: 0 <= i < |m.available| ==> m.available[i] !in m.channels)
    && (forall i :: 0 <= i < |Outstanding(m)| && Outstanding(m)[i] < |m.reservations| ==>
          ChannelOf(m.channels, m.reservations[Outstanding(m)[i]]))
    && (forall r :: 0 <= r < |m.reservations| && m.reservations[r].completion.None? && r !in Outstanding(m) ==>
          Spread(m, m.reservations[r].token) == 0)
  }

  ghost predicate Ordered(m: Mailbox) {
    Ascending(Passed(m) + Outstanding(m), 0, |m.reservations|)
  }

  ghost predicate AllHonest(m: Mailbox) {
    && (forall i :: 0 <= i < |m.delivered| ==> Honest(m.delivered[i], m.reservations))
    && (m.worker.Handing? ==> Honest(m.worker.outgoing, m.reservations))
  }

  ghost predicate OrderOk(m: Mailbox) {
    Ordered(m) && AllHonest(m)
  }

  ghost predicate MailboxOk(m: Mailbox) {
    TokensSplit(m) && ChannelsOk(m) && OrderOk(m)
  }

  // ------------------------------------------------------------ spreads of steps

  /** Every step but giving a reservation up leaves every token's count alone. */
  lemma {:induction false} SpreadSame(m: Mailbox, e: Event, n: Mailbox, t: nat)
    requires Step(m, e, n)
    requires forall i :: 0 <= i < |Outstanding(m)| ==> Outstanding(m)[i] < |m.reservations|
    ensures Spread(n, t) == Spread(m, t) || GaveUp(m, e, n, t)
  {
    hide Times, TokensOf, Spread, Outstanding, GaveUp;
    if e.Reserve? {
      ReserveSpread(m, e.fenceCommand, t);
    } else if e.Finish? {
      FinishSpread(m, e.reservation, e.completion, t);
    } else if e.Complete? {
      CompleteSpread(m, n, t);
    } else {
      WorkerSpread(m, e, n, t);
    }
  }

  /** A waiting worker that is fenced or stopped loses its token. */
  predicate GaveUp(m: Mailbox, e: Event, n: Mailbox, t: nat) {
    && m.worker.Waiting? && (e.TakeFence? || e.Stop?) && m.worker.reservation < |m.reservations|
    && Spread(m, t) == Spread(n, t) + if m.reservations[m.worker.reservation].token == t then 1 else 0
  }

  lemma {:induction false} ReserveSpread(m: Mailbox, fenceCommand: Command, t: nat)
    requires forall i :: 0 <= i < |Outstanding(m)| ==> Outstanding(m)[i] < |m.reservations|
    ensures Spread(Reserved(m, fenceCommand), t) == Spread(m, t)
  {
    hide Times, TokensOf;
    if m.available != [] {
      assert m.available == [m.available[0]] + m.available[1..];
      TimesAppend([m.available[0]], m.available[1..], t);
      if |m.required| < QUEUE_CAP {
        ReservedTokens(m, fenceCommand, t);
      } else {
        TimesAppend(m.available[1..], [m.available[0]], t);
      }
    }
  }

  lemma {:induction false} FinishSpread(m: Mailbox, r: nat, completion: Completion, t: nat)
    requires r < |m.reservations|
    requires forall i :: 0 <= i < |Outstanding(m)| ==> Outstanding(m)[i] < |m.reservations|
    ensures Spread(Finished(m, r, completion), t) == Spread(m, t)
  {
    hide Times, TokensOf;
    TokensOfLater(Outstanding(m), m.reservations, Finished(m, r, completion).reservations);
  }

  lemma {:induction false} CompleteSpread(m: Mailbox, n: Mailbox, t: nat)
    requires Step(m, Complete, n)
    ensures Spread(n, t) == Spread(m, t)
  {
    hide Times, TokensOf;
    HeadOff(m, t);
    var token := m.reservations[m.worker.reservation].token;
    TimesAppend(m.available, [token], t);
    TimesOne(token, t);
    assert Outstanding(n) == m.required;
  }

  lemma {:induction false} WorkerSpread(m: Mailbox, e: Event, n: Mailbox, t: nat)
    requires Step(m, e, n) && !e.Reserve? && !e.Finish? && !e.Complete?
    requires forall i :: 0 <= i < |Outstanding(m)| ==> Outstanding(m)[i] < |m.reservations|
    ensures Spread(n, t) == Spread(m, t) || GaveUp(m, e, n, t)
  {
    hide Times, TokensOf;
    if m.worker.Waiting? && (e.TakeFence? || e.Stop?) {
      assert Outstanding(m)[0] == m.worker.reservation;
      HeadOff(m, t);
      assert Outstanding(n) == m.required;
    } else {
      assert Outstanding(n) == Outstanding(m);
    }
  }

  lemma {:induction false} ReservedTokens(m: Mailbox, fenceCommand: Command, t: nat)
    requires m.available != [] && |m.required| < QUEUE_CAP
    requires forall i :: 0 <= i < |Outstanding(m)| ==> Outstanding(m)[i] < |m.reservations|
    ensures var n := Reserved(m, fenceCommand);
            Times(TokensOf(Outstanding(n), n.reservations), t)
            == Times(TokensOf(Outstanding(m), m.reservations), t) + Times([m.available[0]], t)
  {
    hide Times;
    var n, id := Reserved(m, fenceCommand), |m.reservations|;
    assert Outstanding(n) == Outstanding(m) + [id];
    TokensOfLater(Outstanding(m), m.reservations, n.reservations);
    TokensOfAppend(Outstanding(m), [id], n.reservations);
    assert TokensOf([id], n.reservations) == [m.available[0]];
    TimesAppend(TokensOf(Outstanding(m), m.reservations), [m.available[0]], t);
  }

  lemma {:induction false} HeadOff(m: Mailbox, t: nat)
    ensures m.worker.Waiting? && m.worker.reservation < |m.reservations| ==>
              Times(TokensOf(Outstanding(m), m.reservations), t)
              == Times(TokensOf(m.required, m.reservations), t) + if m.reservations[m.worker.reservation].token == t then 1 else 0
  {
    hide Times;
    if m.worker.Waiting? && m.worker.reservation < |m.reservations| {
      var token := m.reservations[m.worker.reservation].token;
      TokensOfAppend([m.worker.reservation], m.required, m.reservations);
      assert TokensOf([m.worker.reservation], m.reservations) == [token];
      TimesAppend([token], TokensOf(m.required, m.reservations), t);
      TimesOne(token, t);
    }
  }

  lemma {:induction false} SplitKeeps(m: Mailbox, e: Event, n: Mailbox)
    requires MailboxOk(m) && Step(m, e, n)
    ensures TokensSplit(n)
  {
    hide Spread, OrderOk;
    forall t: nat ensures Spread(n, t) <= (if t < TOKENS then 1 else 0)
    ensures !n.saturated && !n.worker.Stopped? && t < TOKENS ==> Spread(n, t) == 1 {
      SpreadSame(m, e, n, t);
    }
  }

  // ------------------------------------------------------------------- channels

  lemma {:induction false} TokenOut(m: Mailbox, i: nat)
    requires i < |Outstanding(m)| && Outstanding(m)[i] < |m.reservations|
    ensures var t := m.reservations[Outstanding(m)[i]].token;
            Times(TokensOf(Outstanding(m), m.reservations), t) >= 1
  {
    TimesIn(TokensOf(Outstanding(m), m.reservations), i);
  }

  lemma {:induction false} TimesTwo(tokens: seq<nat>, i: nat, j: nat)
    requires i < j < |tokens| && tokens[i] == tokens[j]
    ensures Times(tokens, tokens[i]) >= 2
  {
    TimesIn(tokens[..j], i);
    TimesIn(tokens[j..], 0);
    assert tokens == tokens[..j] + tokens[j..];
    TimesAppend(tokens[..j], tokens[j..], tokens[i]);
  }

  /** Tokens of different outstanding reservations differ, and none is at hand. */
  lemma {:induction false} TokensApart(m: Mailbox)
    requires TokensSplit(m) && ChannelsOk(m)
    ensures forall i, j :: 0 <= i < |Outstanding(m)| && 0 <= j < |Outstanding(m)| && i != j ==>
              m.reservations[Outstanding(m)[i]].token != m.reservations[Outstanding(m)[j]].token
    ensures forall i :: 0 <= i < |Outstanding(m)| ==> m.reservations[Outstanding(m)[i]].token !in m.available
  {
    hide Times;
    var out, tokens := Outstanding(m), TokensOf(Outstanding(m), m.reservations);
    forall i, j | 0 <= i < |out| && 0 <= j < |out| && i != j ensures m.reservations[out[i]].token != m.reservations[out[j]].token {
      assert Spread(m, tokens[i]) <= 1;
      if tokens[i] == tokens[j] {
        TimesTwo(tokens, if i < j then i else j, if i < j then j else i);
      }
    }
    forall i | 0 <= i < |out| ensures m.reservations[out[i]].token !in m.available {
      assert Spread(m, tokens[i]) <= 1;
      TimesIn(tokens, i);
      if tokens[i] in m.available {
        var k :| 0 <= k < |m.available| && m.available[k] == tokens[i];
        TimesIn(m.available, k);
      }
    }
  }

  lemma {:induction false} FinishChannels(m: Mailbox, r: nat, completion: Completion)
    requires MailboxOk(m) && r < |m.reservations| && m.reservations[r].completion.None?
    ensures ChannelsOk(Finished(m, r, completion))
  {
    hide Times, OrderOk;
    var n := Finished(m, r, completion);
    TokensApart(m);
    var token, out := m.reservations[r].token, Outstanding(m);
    assert Outstanding(n) == out;
    forall t ensures Spread(n, t) == Spread(m, t) { SpreadSame(m, Finish(r, completion), n, t); }
    if r !in out {
      if token in m.available {
        var k :| 0 <= k < |m.available| && m.available[k] == token;
        TimesIn(m.available, k);
      }
      forall i | 0 <= i < |out| ensures m.reservations[out[i]].token != token {
        TokenOut(m, i);
      }
    } else {
      var k :| 0 <= k < |out| && out[k] == r;
    }
  }

  lemma {:induction false} ReserveChannels(m: Mailbox, fenceCommand: Command)
    requires MailboxOk(m)
    ensures ChannelsOk(Reserved(m, fenceCommand))
  {
    var n := Reserved(m, fenceCommand);
    forall t ensures Spread(n, t) == Spread(m, t) { SpreadSame(m, Reserve(fenceCommand), n, t); }
    hide Times, OrderOk, TokensSplit, Spread;
    if m.available != [] && |m.required| < QUEUE_CAP {
      assert m.available[0] !in m.channels;
      QueuedOut(m, n);
      QueuedUnfinished(m, n);
    } else {
      assert Outstanding(n) == Outstanding(m);
      forall i | 0 <= i < |n.available| ensures n.available[i] !in n.channels {
        assert n.available[i] in m.available;
      }
    }
  }

  /** The queue with one more reservation. */
  ghost predicate OneMoreQueued(m: Mailbox, n: Mailbox) {
    && m.available != [] && n.channels == m.channels && n.worker == m.worker
    && n.required == m.required + [|m.reservations|]
    && n.reservations == m.reservations + [Reservation(m.available[0], None)]
  }

  lemma {:induction false} QueuedOut(m: Mailbox, n: Mailbox)
    requires OneMoreQueued(m, n) && m.available[0] !in m.channels
    requires forall i :: 0 <= i < |Outstanding(m)| ==>
               Outstanding(m)[i] < |m.reservations| && ChannelOf(m.channels, m.reservations[Outstanding(m)[i]])
    ensures forall i :: 0 <= i < |Outstanding(n)| ==>
              Outstanding(n)[i] < |n.reservations| && ChannelOf(n.channels, n.reservations[Outstanding(n)[i]])
  {
    hide ChannelOf;
    var id, out := |m.reservations|, Outstanding(m);
    assert Outstanding(n) == out + [id];
    NewChannel(m.channels, m.available[0]);
    forall i | 0 <= i < |Outstanding(n)|
      ensures Outstanding(n)[i] < |n.reservations| && ChannelOf(n.channels, n.reservations[Outstanding(n)[i]])
    {
      if i < |out| {
        assert Outstanding(n)[i] == out[i] && n.reservations[out[i]] == m.reservations[out[i]];
      } else {
        assert Outstanding(n)[i] == id;
      }
    }
  }

  lemma {:induction false} NewChannel(channels: map<nat, Completion>, token: nat)
    requires token !in channels
    ensures ChannelOf(channels, Reservation(token, None))
  {
  }

  lemma {:induction false} QueuedUnfinished(m: Mailbox, n: Mailbox)
    requires OneMoreQueued(m, n) && forall t :: Spread(n, t) == Spread(m, t)
    requires forall r :: 0 <= r < |m.reservations| && m.reservations[r].completion.None? && r !in Outstanding(m) ==>
               Spread(m, m.reservations[r].token) == 0
    ensures forall r :: 0 <= r < |n.reservations| && n.reservations[r].completion.None? && r !in Outstanding(n) ==>
              Spread(n, n.reservations[r].token) == 0
  {
    hide Spread;
    var id, out := |m.reservations|, Outstanding(m);
    assert Outstanding(n) == out + [id];
    assert forall r :: r in out ==> r in out + [id];
    assert (out + [id])[|out|] == id;
  }

  lemma {:induction false} CompleteChannels(m: Mailbox, n: Mailbox)
    requires MailboxOk(m) && Step(m, Complete, n)
    ensures ChannelsOk(n)
  {
    hide Times, OrderOk, TokensOf, Spread, ChannelOf, TokensSplit, Outstanding;
    TokensApart(m);
    CompleteOut(m, n);
    var out := Outstanding(m);
    var token := m.reservations[out[0]].token;
    forall t ensures Spread(n, t) == Spread(m, t) { SpreadSame(m, Complete, n, t); }
    forall i | 0 <= i < |Outstanding(n)|
      ensures Outstanding(n)[i] < |n.reservations| && ChannelOf(n.channels, n.reservations[Outstanding(n)[i]])
    {
      assert Outstanding(n)[i] == out[i + 1];
      ChannelKept(m.channels, token, m.reservations[out[i + 1]]);
    }
    forall i | 0 <= i < |n.available| ensures n.available[i] !in n.channels {
    }
    forall r | 0 <= r < |n.reservations| && n.reservations[r].completion.None? && r !in Outstanding(n)
      ensures Spread(n, n.reservations[r].token) == 0
    {
      assert out == [out[0]] + Outstanding(n);
    }
  }

  lemma {:induction false} CompleteOut(m: Mailbox, n: Mailbox)
    requires Step(m, Complete, n) && ChannelsOk(m)
    ensures Outstanding(m) != [] && Outstanding(m)[0] == m.worker.reservation && Outstanding(n) == Outstanding(m)[1..]
    ensures m.reservations[m.worker.reservation].completion.Some?
  {
    hide Spread;
    assert Outstanding(m)[0] == m.worker.reservation;
    assert ChannelOf(m.channels, m.reservations[m.worker.reservation]);
  }

  lemma {:induction false} ChannelKept(channels: map<nat, Completion>, token: nat, r: Reservation)
    requires ChannelOf(channels, r) && r.token != token
    ensures ChannelOf(channels - {token}, r)
  {
  }

  /** The worker gives its reservation up: its token is gone for good. */
  lemma {:induction false} LostChannels(m: Mailbox, e: Event, n: Mailbox)
    requires MailboxOk(m) && Step(m, e, n) && m.worker.Waiting? && (e.TakeFence? || e.Stop?)
    ensures ChannelsOk(n)
  {
    hide Times, OrderOk, TokensOf;
    var out := Outstanding(m);
    assert out[0] == m.worker.reservation && Outstanding(n) == out[1..];
    LostToken(m, e, n);
    forall r | 0 <= r < |n.reservations| && n.reservations[r].completion.None? && r !in Outstanding(n)
      ensures Spread(n, n.reservations[r].token) == 0
    {
      assert out == [out[0]] + Outstanding(n);
      if r != out[0] {
        SpreadSame(m, e, n, n.reservations[r].token);
      }
    }
    forall i | 0 <= i < |Outstanding(n)|
      ensures Outstanding(n)[i] < |n.reservations| && ChannelOf(n.channels, n.reservations[Outstanding(n)[i]])
    {
      assert Outstanding(n)[i] == out[i + 1];
    }
  }

  lemma {:induction false} LostToken(m: Mailbox, e: Event, n: Mailbox)
    requires MailboxOk(m) && Step(m, e, n) && m.worker.Waiting? && (e.TakeFence? || e.Stop?)
    ensures m.worker.reservation < |m.reservations| && Spread(n, m.reservations[m.worker.reservation].token) == 0
  {
    hide Times, OrderOk;
    assert Outstanding(m)[0] == m.worker.reservation;
    var lost := m.reservations[m.worker.reservation].token;
    assert Spread(m, lost) <= 1;
    HeadOff(m, lost);
    assert Outstanding(n) == m.required;
  }

  lemma {:induction false} OtherChannels(m: Mailbox, e: Event, n: Mailbox)
    requires MailboxOk(m) && Step(m, e, n) && !e.Reserve? && !e.Finish? && !e.Complete?
    requires !(m.worker.Waiting? && (e.TakeFence? || e.Stop?))
    ensures ChannelsOk(n)
  {
    hide Times, OrderOk, TokensOf;
    assert Outstanding(n) == Outstanding(m);
    assert n.available == m.available && n.reservations == m.reservations && n.channels == m.channels;
    forall t ensures Spread(n, t) == Spread(m, t) {
    }
  }

  // ---------------------------------------------------------------------- order

  lemma {:induction false} IdsAppend(delivered: seq<Outgoing>, out: Outgoing)
    ensures DeliveredIds(delivered + [out]) == DeliveredIds(delivered) + if out.reservation.Some? then [out.reservation.value] else []
  {
    assert (delivered + [out])[..|delivered|] == delivered;
  }

  lemma {:induction false} AscendingParts(a: seq<nat>, b: seq<nat>, c: seq<nat>, to: nat)
    requires Ascending(a + b + c, 0, to)
    ensures Ascending(a + c, 0, to) && Ascending(a, 0, to)
  {
    var all, some := a + b + c, a + c;
    forall i | 0 <= i < |some| ensures some[i] == all[if i < |a| then i else i + |b|] {
    }
    forall i, j | 0 <= i < j < |some| ensures some[i] < some[j] {
      assert some[i] == all[if i < |a| then i else i + |b|] && some[j] == all[if j < |a| then j else j + |b|];
    }
    forall i, j | 0 <= i < j < |a| ensures a[i] < a[j] && 0 <= a[i] < to {
      assert a[i] == all[i] && a[j] == all[j];
    }
    forall i | 0 <= i < |a| ensures 0 <= a[i] < to {
      assert a[i] == all[i];
    }
  }

  lemma {:induction false} AscendingNext(a: seq<nat>, to: nat)
    requires Ascending(a, 0, to)
    ensures Ascending(a + [to], 0, to + 1) && Ascending(a, 0, to + 1)
  {
  }

  lemma {:induction false} HonestKeeps(m: Mailbox, e: Event, n: Mailbox)
    requires MailboxOk(m) && Step(m, e, n)
    ensures AllHonest(n)
  {
    hide Times, Spread, TokensSplit, Ordered, TokensOf;
    if e.Complete? {
      assert Outstanding(m)[0] == m.worker.reservation;
      assert ChannelOf(m.channels, m.reservations[m.worker.reservation]);
    }
  }

  lemma {:induction false} OrderKeeps(m: Mailbox, e: Event, n: Mailbox)
    requires Ordered(m) && Step(m, e, n)
    ensures Ordered(n)
  {
    hide Times, Spread, TokensOf, DeliveredIds, Ascending, Honest;
    var p, out := Passed(m), Outstanding(m);
    var ids := DeliveredIds(m.delivered);
    match e
    case Reserve(_) =>
      if m.available != [] && |m.required| < QUEUE_CAP {
        AscendingNext(p + out, |m.reservations|);
        assert Outstanding(n) == out + [|m.reservations|];
        assert p + Outstanding(n) == p + out + [|m.reservations|];
      }
    case Finish(_, _) => assert Passed(n) + Outstanding(n) == p + out;
    case TakeFence => FenceOrder(m, n);
    case TakeRequired =>
      assert Outstanding(n) == out;
    case TakeRefresh(_) => assert Passed(n) + Outstanding(n) == p + out;
    case Complete => CompleteOrder(m, n);
    case HandOver =>
      if m.worker.Handing? {
        IdsAppend(m.delivered, m.worker.outgoing);
        assert Passed(n) + Outstanding(n) == p + out;
      } else {
        IdsAppend(m.delivered, Outgoing(None, m.worker.fence));
        assert Passed(n) + Outstanding(n) == p + out;
      }
    case Stop => FenceOrder(m, n);
  }

  /** What is given up is only left out. */
  lemma {:induction false} FenceOrder(m: Mailbox, n: Mailbox)
    requires Ordered(m) && n.required == m.required && n.delivered == m.delivered && n.reservations == m.reservations
    requires n.worker.Stopped? || n.worker.Closing? || (n.worker.Handing? && n.worker.outgoing.reservation.None?)
    ensures Ordered(n)
  {
    hide Ascending, DeliveredIds;
    var ids := DeliveredIds(m.delivered);
    var middle := (if m.worker.Handing? && m.worker.outgoing.reservation.Some? then [m.worker.outgoing.reservation.value] else [])
                  + (if m.worker.Waiting? then [m.worker.reservation] else []);
    assert Passed(m) + Outstanding(m) == ids + middle + m.required;
    AscendingParts(ids, middle, m.required, |m.reservations|);
    assert Passed(n) + Outstanding(n) == ids + m.required;
  }

  lemma {:induction false} CompleteOrder(m: Mailbox, n: Mailbox)
    requires Ordered(m) && Step(m, Complete, n)
    ensures Ordered(n)
  {
    hide Ascending, DeliveredIds, Spread;
    var ids, r := DeliveredIds(m.delivered), m.worker.reservation;
    assert Outstanding(m)[0] == r;
    assert Passed(m) + Outstanding(m) == ids + [r] + m.required;
    AscendingParts(ids, [r], m.required, |m.reservations|);
    assert Passed(n) + Outstanding(n) == ids + (if n.worker.Handing? then [r] else []) + m.required;
    assert ids + [] + m.required == ids + m.required;
  }

  lemma {:induction false} StepKeeps(m: Mailbox, e: Event, n: Mailbox)
    requires MailboxOk(m) && Step(m, e, n)
    ensures MailboxOk(n)
  {
    hide TokensSplit, ChannelsOk, Ordered, AllHonest, Spread, Outstanding, Passed;
    SplitKeeps(m, e, n);
    OrderKeeps(m, e, n);
    HonestKeeps(m, e, n);
    if e.Reserve? {
      ReserveChannels(m, e.fenceCommand);
    } else if e.Finish? {
      FinishChannels(m, e.reservation, e.completion);
    } else if e.Complete? {
      CompleteChannels(m, n);
    } else if m.worker.Waiting? && (e.TakeFence? || e.Stop?) {
      LostChannels(m, e, n);
    } else {
      OtherChannels(m, e, n);
    }
  }

  // ------------------------------------------------------------------ no loss

  /** Until a fence or a stop, every reservation is delivered or being handed over,
      was finished as skipped, or is still in the queue or with the worker. */
  ghost predicate NothingLost(m: Mailbox) {
    !m.saturated && !m.worker.Stopped? ==>
      forall r :: 0 <= r < |m.reservations| ==> r in Passed(m) || r in Outstanding(m) || Skipped(m.reservations[r])
  }

  predicate Skipped(r: Reservation) { r.completion.Some? && r.completion.value.skip }

  lemma {:induction false} LosesNothing(m: Mailbox, e: Event, n: Mailbox)
    requires MailboxOk(m) && NothingLost(m) && Step(m, e, n)
    ensures NothingLost(n)
  {
    hide Spread, Times, TokensOf, DeliveredIds, OrderOk;
    assert m.fence.Some? ==> m.saturated;
    if n.saturated || n.worker.Stopped? {
      return;
    }
    var ids := DeliveredIds(m.delivered);
    match e
    case Reserve(_) =>
      assert Passed(n) == Passed(m) && Outstanding(n) == Outstanding(m) + [|m.reservations|];
    case Finish(_, _) => assert Passed(n) == Passed(m) && Outstanding(n) == Outstanding(m);
    case TakeRequired => assert Passed(n) == Passed(m) && Outstanding(n) == Outstanding(m);
    case TakeRefresh(_) => assert Passed(n) == ids && Outstanding(n) == Outstanding(m);
    case Complete =>
      var r := m.worker.reservation;
      assert Outstanding(m)[0] == r && Outstanding(m) == [r] + Outstanding(n);
      assert ChannelOf(m.channels, m.reservations[r]);
      assert Passed(n) == ids + if Skipped(m.reservations[r]) then [] else [r];
    case HandOver =>
      IdsAppend(m.delivered, n.delivered[|m.delivered|]);
      assert Outstanding(n) == Outstanding(m);
      assert m.worker.Handing? ==> Passed(n) == Passed(m);
      assert m.worker.Closing? ==> Passed(n) == ids && Passed(m) == ids;
  }

  // ---------------------------------------------------------------- every run

  ghost predicate Run(states: seq<Mailbox>, events: seq<Event>) {
    && |states| == |events| + 1 && states[0] == NEW_MAILBOX
    && forall i :: 0 <= i < |events| ==> Step(states[i], events[i], states[i + 1])
  }

  lemma {:induction false} RunKeeps(states: seq<Mailbox>, events: seq<Event>, i: nat)
    requires Run(states, events) && i < |states|
    ensures MailboxOk(states[i])
    decreases i
  {
    hide Step, MailboxOk;
    if i == 0 {
      NewOk();
    } else {
      RunKeeps(states, events, i - 1);
      StepKeeps(states[i - 1], events[i - 1], states[i]);
    }
  }

  lemma {:induction false} NewTokens(k: nat, t: nat)
    requires k <= TOKENS
    ensures Times(Tokens()[..k], t) == if t < k then 1 else 0
    decreases k
  {
    if k > 0 {
      NewTokens(k - 1, t);
      assert Tokens()[..k][..k - 1] == Tokens()[..k - 1];
    }
  }

  lemma {:induction false} NewOk()
    ensures MailboxOk(NEW_MAILBOX)
  {
    forall t: nat ensures Spread(NEW_MAILBOX, t) == if t < TOKENS then 1 else 0 {
      NewTokens(TOKENS, t);
      assert Tokens()[..TOKENS] == Tokens();
      assert Outstanding(NEW_MAILBOX) == [] && TokensOf([], []) == [];
    }
  }

  lemma {:induction false} RunLosesNothing(states: seq<Mailbox>, events: seq<Event>, i: nat)
    requires Run(states, events) && i < |states|
    ensures NothingLost(states[i])
    decreases i
  {
    hide Step, MailboxOk, NothingLost;
    if i == 0 {
      NoneLost();
    } else {
      RunKeeps(states, events, i - 1);
      RunLosesNothing(states, events, i - 1);
      LosesNothing(states[i - 1], events[i - 1], states[i]);
    }
  }

  lemma {:induction false} NoneLost()
    ensures NothingLost(NEW_MAILBOX)
  {
  }

  /** Required commands reach the client in reservation order, each as its producer
      finished it, whatever the order of completions; none is lost until a fence. */
  lemma {:induction false} DeliveredInOrder(states: seq<Mailbox>, events: seq<Event>, i: nat)
    requires Run(states, events) && i < |states|
    ensures var m := states[i];
            && Ascending(DeliveredIds(m.delivered), 0, |m.reservations|)
            && (forall k :: 0 <= k < |m.delivered| ==> Honest(m.delivered[k], m.reservations))
            && NothingLost(m)
  {
    hide Run, DeliveredIds, TokensSplit, ChannelsOk, Ascending, NothingLost;
    RunKeeps(states, events, i);
    RunLosesNothing(states, events, i);
    var m := states[i];
    var ids := DeliveredIds(m.delivered);
    var rest := Passed(m)[|ids|..] + Outstanding(m);
    assert Passed(m) + Outstanding(m) == ids + rest + [];
    AscendingParts(ids, rest, [], |m.reservations|);
  }

  /** Until a saturation fence the tokens are split exactly between those at hand,
      those queued and the one the worker holds. */
  lemma {:induction false} TokensConserved(states: seq<Mailbox>, events: seq<Event>, i: nat, t: nat)
    requires Run(states, events) && i < |states| && !states[i].saturated && !states[i].worker.Stopped? && t < TOKENS
    ensures Times(states[i].available, t) + Times(TokensOf(Outstanding(states[i]), states[i].reservations), t) == 1
  {
    hide Run, ChannelsOk, OrderOk;
    RunKeeps(states, events, i);
    assert Spread(states[i], t) == 1;
  }

  // ---------------------------------------------------------------- saturation

  function Members(ids: seq<nat>): set<nat> { set x | x in ids }

  lemma {:induction false} FewMembers(ids: seq<nat>)
    ensures |Members(ids)| <= |ids|
    decreases |ids|
  {
    if ids != [] {
      var init := ids[..|ids| - 1];
      FewMembers(init);
      assert ids == init + [ids[|ids| - 1]];
      assert Members(ids) == Members(init) + {ids[|ids| - 1]};
    }
  }

  function UpTo(n: nat): (members: set<nat>)
    ensures |members| == n && forall x: nat :: x in members <==> x < n
  {
    if n == 0 then {} else UpTo(n - 1) + {n - 1}
  }

  lemma {:induction false} NotIn(tokens: seq<nat>, t: nat)
    requires t !in tokens
    ensures Times(tokens, t) == 0
    decreases |tokens|
  {
    if tokens != [] {
      NotIn(tokens[..|tokens| - 1], t);
    }
  }

  /** A mailbox saturates only with its queue full: up to then every reservation gets
      a token and its place at the end of the queue. */
  lemma {:induction false} SaturatesFull(states: seq<Mailbox>, events: seq<Event>, i: nat)
    requires Run(states, events) && i < |events| && events[i].Reserve?
    requires !states[i].saturated && !states[i].worker.Stopped? && |states[i].required| < TOKENS - 1
    ensures var m, n := states[i], states[i + 1];
            && !n.saturated && n.fence == m.fence && |n.reservations| == |m.reservations| + 1
            && n.required == m.required + [|m.reservations|]
            && n.reservations[|m.reservations|].completion.None? && n.delivered == m.delivered && n.worker == m.worker
  {
    var m := states[i];
    RunKeeps(states, events, i);
    assert Step(states[i], events[i], states[i + 1]);
    hide Times, TokensOf, ChannelsOk, OrderOk, MailboxOk, UpTo;
    if m.available == [] {
      var out := TokensOf(Outstanding(m), m.reservations);
      forall t: nat | t in UpTo(TOKENS) ensures t in Members(out) {
        TokensConserved(states, events, i, t);
        if t !in out {
          NotIn(out, t);
          NotIn(m.available, t);
        }
      }
      FewMembers(out);
      Contains(UpTo(TOKENS), Members(out));
      assert false;
    }
  }

  lemma {:induction false} Contains(a: set<nat>, b: set<nat>)
    requires a <= b
    ensures |a| <= |b|
  {
    assert b == a + (b - a);
  }
}
