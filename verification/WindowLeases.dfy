/** Window-view leases: at most one live viewer a window, and one window a client,
    through select, create, attach, session switch and window removal. */
module WindowLeases {
  import opened Display

  type WindowId = nat
  type SessionId = nat
  type ClientId = nat

  const NONE: nat := 0

  datatype Lease = Lease(session: SessionId, client: ClientId)

  /** A session: its windows in display order, its active and previous window (zero
      for none), and the client attached to it (zero for none). */
  datatype Session = Session(windows: seq<WindowId>, active: WindowId, previous: WindowId, client: ClientId)

  /** Every lease is its session's client's, on that session's active window. */
  ghost predicate LeasesOnActive(leases: map<WindowId, Lease>, sessions: map<SessionId, Session>) {
    forall w :: w in leases ==>
      && leases[w].session in sessions && leases[w].client != NONE && w != NONE
      && sessions[leases[w].session].client == leases[w].client && sessions[leases[w].session].active == w
  }

  /** No client is attached to two sessions. */
  ghost predicate ClientsApart(sessions: map<SessionId, Session>) {
    forall s, t :: s in sessions && t in sessions && s != t && sessions[s].client != NONE ==> sessions[s].client != sessions[t].client
  }

  /** This session's client, if it has one and an active window, holds that window's lease. */
  predicate ViewsActive(leases: map<WindowId, Lease>, s: SessionId, session: Session) {
    session.client != NONE && session.active != NONE ==>
      session.active in leases && leases[session.active] == Lease(s, session.client)
  }

  ghost predicate AllView(leases: map<WindowId, Lease>, sessions: map<SessionId, Session>) {
    forall s :: s in sessions ==> ViewsActive(leases, s, sessions[s])
  }

  ghost predicate Sound(leases: map<WindowId, Lease>, sessions: map<SessionId, Session>) {
    LeasesOnActive(leases, sessions) && ClientsApart(sessions)
  }

  /** An active window is one of the session's windows, and no window is zero. */
  ghost predicate WindowsKnown(sessions: map<SessionId, Session>) {
    forall s :: s in sessions ==> NONE !in sessions[s].windows && (sessions[s].active != NONE ==> sessions[s].active in sessions[s].windows)
  }

  /** So no client ever holds two leases, and its lease is on its session's active window. */
  lemma {:induction false} OneLeaseEach(leases: map<WindowId, Lease>, sessions: map<SessionId, Session>)
    requires Sound(leases, sessions)
    ensures OneEach(leases) && NONE !in leases
    ensures forall s, w :: s in sessions && w in leases && sessions[s].client == leases[w].client ==>
              w == sessions[s].active && leases[w].session == s
  {
  }

  /** No client holds two leases. */
  ghost predicate OneEach(leases: map<WindowId, Lease>) {
    forall v, w :: v in leases && w in leases && leases[v].client == leases[w].client ==> v == w
  }

  /** A client's view moved: whatever it held is let go, the target is its own. */
  function Moved(leases: map<WindowId, Lease>, s: SessionId, client: ClientId, target: WindowId): map<WindowId, Lease> {
    (map w | w in leases && leases[w].client != client :: leases[w])[target := Lease(s, client)]
  }

  /** The sessions after one of them changed its active window. */
  ghost predicate OnlyActive(before: map<SessionId, Session>, after: map<SessionId, Session>, s: SessionId, target: WindowId) {
    && before.Keys == after.Keys && s in before
    && (forall t :: t in before ==> after[t].client == before[t].client)
    && (forall t :: t in before && t != s ==> after[t].active == before[t].active)
    && after[s].active == target
  }

  lemma {:induction false} MoveKeeps(leases: map<WindowId, Lease>, before: map<SessionId, Session>, after: map<SessionId, Session>,
                                     s: SessionId, target: WindowId)
    requires Sound(leases, before) && OnlyActive(before, after, s, target) && target != NONE && before[s].client != NONE
    requires target in leases ==> leases[target].client == before[s].client
    ensures Sound(Moved(leases, s, before[s].client, target), after)
    ensures AllView(leases, before) ==> AllView(Moved(leases, s, before[s].client, target), after)
  {
    var moved := Moved(leases, s, before[s].client, target);
    if AllView(leases, before) {
      forall t | t in after ensures ViewsActive(moved, t, after[t]) {
        assert ViewsActive(leases, t, before[t]);
      }
    }
  }

  /** With no client there is nothing to move. */
  lemma {:induction false} UnattachedKeeps(leases: map<WindowId, Lease>, before: map<SessionId, Session>, after: map<SessionId, Session>,
                                           s: SessionId, target: WindowId)
    requires Sound(leases, before) && OnlyActive(before, after, s, target) && before[s].client == NONE
    ensures Sound(leases, after) && (AllView(leases, before) ==> AllView(leases, after))
  {
    if AllView(leases, before) {
      forall t | t in after ensures ViewsActive(leases, t, after[t]) {
        assert ViewsActive(leases, t, before[t]);
      }
    }
  }

  /** Letting go of the one lease a client holds, then taking the target. */
  lemma {:induction false} MovedInSteps(leases: map<WindowId, Lease>, s: SessionId, client: ClientId, target: WindowId, held: WindowId)
    requires OneEach(leases)
    requires if held != NONE && held in leases then leases[held].client == client else forall w :: w in leases ==> leases[w].client != client
    ensures var taken := leases[target := Lease(s, client)];
            Moved(leases, s, client, target) == if held != NONE && held != target then taken - {held} else taken
  {
  }

  class ViewLeases {
    var leases: map<WindowId, Lease>
    var sessions: map<SessionId, Session>

    ghost predicate Valid()
      reads this
    {
      Sound(leases, sessions) && WindowsKnown(sessions)
    }

    /** Every attached client views its session's active window. */
    ghost predicate Complete()
      reads this
    {
      AllView(leases, sessions)
    }

    /** A client that views nothing is stale: its requests are refused. */
    ghost predicate Holds(client: ClientId)
      reads this
    {
      exists w :: w in leases && leases[w].client == client
    }

    ghost predicate ViewedByOther(client: ClientId, w: WindowId)
      reads this
    {
      w in leases && leases[w].client != client
    }

    constructor (sessions: map<SessionId, Session>)
      requires (forall s :: s in sessions ==> sessions[s].client == NONE) && WindowsKnown(sessions)
      ensures Valid() && Complete() && leases == map[] && this.sessions == sessions
    {
      leases, this.sessions := map[], sessions;
    }

    /** `windowForClientNow`. */
    method WindowForClient(client: ClientId) returns (window: WindowId)
      ensures window != NONE ==> window in leases && leases[window].client == client
      ensures window == NONE && NONE !in leases ==> forall w :: w in leases ==> leases[w].client != client
    {
      var todo := leases.Keys;
      while todo != {}
        invariant todo <= leases.Keys
        invariant forall w :: w in leases && w !in todo ==> leases[w].client != client
        decreases |todo|
      {
        var w :| w in todo;
        todo := todo - {w};
        if leases[w].client == client {
          return w;
        }
      }
      window := NONE;
    }

    /** Acquire before release. */
    method MoveView(s: SessionId, client: ClientId, target: WindowId)
      requires OneEach(leases) && NONE !in leases
      modifies `leases
      ensures leases == Moved(old(leases), s, client, target)
    {
      var held := WindowForClient(client);
      MovedInSteps(leases, s, client, target, held);
      var taken := leases[target := Lease(s, client)];
      leases := if held != NONE && held != target then taken - {held} else taken;
    }

    /** `selectWindow`; a rejected selection changes nothing. */
    method SelectWindow(client: ClientId, connected: set<ClientId>, s: SessionId, target: WindowId, geometryFits: bool) returns (ok: bool)
      requires Valid() && s in sessions && NONE !in connected && target != NONE
      modifies this
      ensures Valid() && (old(Complete()) ==> Complete())
      ensures !ok ==> leases == old(leases) && sessions == old(sessions)
      ensures ok <==>
                && geometryFits && client in connected && old(sessions)[s].client == client && target in old(sessions)[s].windows
                && old(Holds(client)) && !old(ViewedByOther(client, target))
      ensures ok ==> leases == Moved(old(leases), s, client, target)
      ensures ok ==> s in sessions && sessions == old(sessions)[s := sessions[s]]
      ensures ok ==> sessions[s].active == target && sessions[s].client == client && sessions[s].windows == old(sessions)[s].windows
      ensures ok ==>
                && old(sessions)[s].active != NONE
                && sessions[s].previous == if old(sessions)[s].active != target then old(sessions)[s].active else old(sessions)[s].previous
    {
      hide Sound, AllView, Moved;
      var session := sessions[s];
      if session.client !in connected || target !in session.windows || session.client != client {
        return false;
      }
      if target in leases && leases[target].client != client {
        return false;
      }
      var oldWindow := session.active;
      if oldWindow == NONE && |session.windows| > 0 {
        oldWindow := session.windows[0];
      }
      OneLeaseEach(leases, sessions);
      var oldLease := WindowForClient(client);
      if oldLease == NONE {
        oldLease := oldWindow;
      }
      if oldLease != NONE && (oldLease !in leases || leases[oldLease].client != client) {
        return false;
      }
      if !geometryFits {
        return false;
      }
      var previous := if oldWindow != target then oldWindow else session.previous;
      ghost var before := sessions;
      MoveKeeps(leases, before, before[s := session.(active := target, previous := previous)], s, target);
      OneLeaseEach(leases, sessions);
      MoveView(s, client, target);
      sessions := sessions[s := session.(active := target, previous := previous)];
      ok := true;
    }

    /** `createWindowNow` and `activateCreatedWindowNow` in one daemon turn: every
        member of the group has the window at the place its display index gives it,
        the session makes it active, and its client's view moves there. */
    method CreateWindow(connected: set<ClientId>, s: SessionId, created: WindowId, members: set<SessionId>, place: nat)
      requires OneEach(leases) && NONE !in leases && WindowsKnown(sessions)
      requires s in sessions && s in members && members <= sessions.Keys
      requires forall m :: m in members ==> place <= |sessions[m].windows|
      requires created != NONE && created !in leases
      requires sessions[s].client != NONE ==> sessions[s].client in connected
      requires NONE !in connected
      modifies this
      ensures old(Valid()) ==> Valid() && (old(Complete()) ==> Complete())
      ensures OneEach(leases) && NONE !in leases && WindowsKnown(sessions)
      ensures OnlyActive(old(sessions), sessions, s, created)
      ensures forall m :: m in sessions ==>
                sessions[m].windows == if m in members then Inserted(old(sessions)[m].windows, place, created) else old(sessions)[m].windows
      ensures forall m :: m in sessions && m != s ==> sessions[m].previous == old(sessions)[m].previous
      ensures sessions[s].previous == if old(sessions)[s].active != created then old(sessions)[s].active else old(sessions)[s].previous
      ensures leases == if old(sessions)[s].client == NONE then old(leases) else Moved(old(leases), s, old(sessions)[s].client, created)
    {
      hide Sound, AllView, Moved, WindowsKnown, Inserted;
      ghost var was, before := leases, sessions;
      var session := sessions[s];
      var grown := map m | m in sessions ::
        if m in members then sessions[m].(windows := Inserted(sessions[m].windows, place, created)) else sessions[m];
      var after := grown[s := grown[s].(active := created, previous := if session.active != created then session.active else session.previous)];
      StillKnown(before, after, s, created, members, place);
      CreateMoves(leases, before, after, s, created);
      if session.client in connected {
        MovedOneEach(leases, s, session.client, created);
        MoveView(s, session.client, created);
      }
      sessions := after;
    }

    static lemma {:induction false} CreateMoves(leases: map<WindowId, Lease>, before: map<SessionId, Session>, after: map<SessionId, Session>,
                                                s: SessionId, created: WindowId)
      requires OnlyActive(before, after, s, created) && created != NONE && created !in leases
      ensures var moved := if before[s].client == NONE then leases else Moved(leases, s, before[s].client, created);
              Sound(leases, before) ==> Sound(moved, after) && (AllView(leases, before) ==> AllView(moved, after))
    {
      if Sound(leases, before) {
        if before[s].client == NONE {
          UnattachedKeeps(leases, before, after, s, created);
        } else {
          MoveKeeps(leases, before, after, s, created);
        }
      }
    }

    static lemma {:induction false} StillKnown(before: map<SessionId, Session>, after: map<SessionId, Session>, s: SessionId, created: WindowId,
                                               members: set<SessionId>, place: nat)
      requires WindowsKnown(before) && OnlyActive(before, after, s, created) && created != NONE && s in members
      requires forall m :: m in members && m in before ==> place <= |before[m].windows|
      requires forall m :: m in after ==>
                 after[m].windows == if m in members then Inserted(before[m].windows, place, created) else before[m].windows
      ensures WindowsKnown(after)
    {
      forall m | m in before && m in members
        ensures NONE !in after[m].windows && created in after[m].windows
        ensures forall w :: w in before[m].windows ==> w in after[m].windows
      {
        InsertedMembers(before[m].windows, place, created);
      }
    }

    static lemma {:induction false} MovedOneEach(leases: map<WindowId, Lease>, s: SessionId, client: ClientId, target: WindowId)
      requires OneEach(leases) && NONE !in leases && target != NONE
      ensures OneEach(Moved(leases, s, client, target)) && NONE !in Moved(leases, s, client, target)
    {
    }

    /** `initializeClient` with `prepareAttachedClientViewInActor`: the session records
        the client, and the client views the active window or else the first one,
        unless another client does. The view is on the session's active window exactly
        when there is an active window: the fallback never makes its window active. */
    method Attach(client: ClientId, s: SessionId, geometryFits: bool) returns (ok: bool)
      requires Valid() && s in sessions && client != NONE
      requires forall t :: t in sessions && t != s ==> sessions[t].client != client
      modifies this
      ensures ok <==>
                && (old(sessions)[s].client == NONE || old(sessions)[s].client == client)
                && geometryFits && old(TargetWindow(s)) in old(sessions)[s].windows && !old(ViewedByOther(client, TargetWindow(s)))
      ensures sessions == if old(sessions)[s].client == NONE then old(sessions)[s := old(sessions)[s].(client := client)] else old(sessions)
      ensures leases == if ok then Moved(old(leases), s, client, old(TargetWindow(s))) else old(leases)
      ensures Valid() <==> !ok || old(sessions)[s].active != NONE
      ensures OneEach(leases) && NONE !in leases && WindowsKnown(sessions)
      ensures old(Complete()) ==> (Complete() <==> ViewsActive(leases, s, sessions[s]))
      ensures ok ==> ViewsActive(leases, s, sessions[s])
    {
      hide AllView, Moved, WindowsKnown, Sound;
      ghost var was, before := leases, sessions;
      OneLeaseEach(leases, sessions);
      var target := TargetWindow(s);
      if sessions[s].client != NONE && sessions[s].client != client {
        Recorded(leases, before, before, s, client);
        return false;
      }
      sessions := sessions[s := sessions[s].(client := client)];
      Recorded(leases, before, sessions, s, client);
      if target !in sessions[s].windows || !geometryFits || (target in leases && leases[target].client != client) {
        return false;
      }
      Viewing(leases, sessions, s, client, target);
      MoveView(s, client, target);
      ok := true;
    }

    static lemma {:induction false} Recorded(leases: map<WindowId, Lease>, before: map<SessionId, Session>, after: map<SessionId, Session>,
                                             s: SessionId, client: ClientId)
      requires Sound(leases, before) && WindowsKnown(before) && s in before && client != NONE
      requires after == before || (before[s].client == NONE && after == before[s := before[s].(client := client)])
      requires forall t :: t in before && t != s ==> before[t].client != client
      ensures Sound(leases, after) && WindowsKnown(after) && NONE !in after[s].windows
      ensures AllView(leases, before) ==> (AllView(leases, after) <==> ViewsActive(leases, s, after[s]))
      ensures AllView(leases, before) ==> forall t :: t in after && t != s ==> ViewsActive(leases, t, after[t])
    {
      if AllView(leases, before) {
        forall t | t in after && t != s ensures ViewsActive(leases, t, after[t]) {
          assert ViewsActive(leases, t, before[t]);
        }
      }
    }

    /** A client put on a window of its session: on the active one, or, when there is
        none, on one that does not become active. */
    static lemma {:induction false} Viewing(leases: map<WindowId, Lease>, sessions: map<SessionId, Session>, s: SessionId, client: ClientId, target: WindowId)
      requires Sound(leases, sessions) && s in sessions && client != NONE && sessions[s].client == client && target != NONE
      requires sessions[s].active != NONE ==> target == sessions[s].active
      requires target in leases ==> leases[target].client == client
      ensures var moved := Moved(leases, s, client, target);
              && (Sound(moved, sessions) <==> sessions[s].active != NONE)
              && OneEach(moved) && NONE !in moved
              && ViewsActive(moved, s, sessions[s]) && (AllView(leases, sessions) ==> AllView(moved, sessions))
              && ((forall t :: t in sessions && t != s ==> ViewsActive(leases, t, sessions[t])) ==> AllView(moved, sessions))
    {
      var moved := Moved(leases, s, client, target);
      forall t | t in sessions && t != s && ViewsActive(leases, t, sessions[t]) ensures ViewsActive(moved, t, sessions[t]) {
      }
      if sessions[s].active == NONE {
        assert target in moved && moved[target] == Lease(s, client);
      }
    }

    // ------------------------------------------------------- session switch

    /** The window a switch would land on. */
    function TargetWindow(target: SessionId): WindowId
      requires target in sessions
      reads this
    {
      var session := sessions[target];
      if session.active != NONE then session.active else if |session.windows| > 0 then session.windows[0] else NONE
    }

    /** The target's window is viewed by a third session's client, which a switch
        that displaces the target's own client would rob. */
    predicate Robs(client: ClientId, target: SessionId)
      requires target in sessions
      reads this
    {
      var w := TargetWindow(target);
      w in leases && leases[w].client != client && leases[w].session != target
    }

    /** The lease part of `transitionClientToSession`. */
    method SwitchSession(client: ClientId, connected: set<ClientId>, source: SessionId, target: SessionId, geometryFits: bool)
      returns (ok: bool, displaced: ClientId)
      requires Valid() && source in sessions && NONE !in connected
      modifies this
      ensures Valid()
      ensures !ok || source == target ==> leases == old(leases) && sessions == old(sessions)
      ensures ok && source != target && target in old(sessions) && old(Complete()) ==> (Complete() <==> !old(Robs(client, target)))
      ensures ok && source != target ==>
                && target in old(sessions) && old(sessions)[source].client == client
                && leases == Moved(old(leases), target, client, old(TargetWindow(target)))
                && sessions == old(sessions)[source := old(sessions)[source].(client := NONE)]
                                            [target := old(sessions)[target].(client := client, active := old(TargetWindow(target)))]
      ensures source == target ==> (ok <==> geometryFits && client in connected)
      ensures source != target ==>
                (ok <==> && geometryFits && client in connected && target in old(sessions) && old(sessions)[source].client == client
                         && old(Holds(client)) && old(TargetWindow(target)) in old(sessions)[target].windows
                         && (!old(ViewedByOther(client, TargetWindow(target)))
                             || (old(sessions)[target].client in connected && old(sessions)[target].client != client)))
      ensures displaced == if ok && source != target && target in old(sessions) && old(ViewedByOther(client, TargetWindow(target)))
                           then old(sessions)[target].client else NONE
    {
      assert forall t :: t in sessions ==> NONE !in sessions[t].windows;
      hide Sound, AllView, Moved, WindowsKnown;
      displaced := NONE;
      if client !in connected || target !in sessions {
        return false, displaced;
      }
      if source == target {
        return geometryFits, displaced;
      }
      if sessions[source].client != client {
        return false, displaced;
      }
      OneLeaseEach(leases, sessions);
      var sourceWindow := sessions[source].active;
      if sourceWindow == NONE {
        sourceWindow := WindowForClient(client);
      }
      var targetWindow := TargetWindow(target);
      if sourceWindow == NONE || targetWindow == NONE || sourceWindow !in leases || leases[sourceWindow].client != client {
        return false, displaced;
      }
      if targetWindow !in sessions[target].windows {
        return false, displaced;
      }
      if targetWindow in leases && leases[targetWindow].client != client {
        if sessions[target].client !in connected || sessions[target].client == client {
          return false, displaced;
        }
        if geometryFits {
          displaced := sessions[target].client;
        }
      }
      if !geometryFits {
        return false, displaced;
      }
      SwitchKeeps(leases, sessions, client, source, target, sourceWindow, targetWindow);
      leases := leases[targetWindow := Lease(target, client)];
      leases := if sourceWindow != targetWindow then leases - {sourceWindow} else leases;
      sessions := sessions[source := sessions[source].(client := NONE)][target := sessions[target].(client := client, active := targetWindow)];
      ok := true;
    }

    static lemma {:induction false} SwitchKeeps(leases: map<WindowId, Lease>, sessions: map<SessionId, Session>, client: ClientId,
                                                source: SessionId, target: SessionId, from: WindowId, to: WindowId)
      requires Sound(leases, sessions) && WindowsKnown(sessions) && source in sessions && target in sessions && source != target
      requires client != NONE && sessions[source].client == client && from in leases && leases[from].client == client
      requires from != NONE && to != NONE && to in sessions[target].windows && (sessions[target].active != NONE ==> to == sessions[target].active)
      ensures var after := sessions[source := sessions[source].(client := NONE)][target := sessions[target].(client := client, active := to)];
              var taken := leases[to := Lease(target, client)];
              var moved := Moved(leases, target, client, to);
              && moved == (if from != to then taken - {from} else taken)
              && Sound(moved, after) && WindowsKnown(after)
              && (AllView(leases, sessions) ==>
                    (AllView(moved, after) <==> !(to in leases && leases[to].client != client && leases[to].session != target)))
    {
      OneLeaseEach(leases, sessions);
      MovedInSteps(leases, target, client, to, from);
      SwitchSound(leases, sessions, client, source, target, to);
      if AllView(leases, sessions) {
        SwitchViews(leases, sessions, client, source, target, to);
      }
      hide Sound, AllView, Moved;
    }

    static lemma {:induction false} SwitchViews(leases: map<WindowId, Lease>, sessions: map<SessionId, Session>, client: ClientId,
                                                source: SessionId, target: SessionId, to: WindowId)
      requires Sound(leases, sessions) && AllView(leases, sessions) && source in sessions && target in sessions && source != target
      requires client != NONE && sessions[source].client == client
      requires to != NONE && (sessions[target].active != NONE ==> to == sessions[target].active)
      ensures var after := sessions[source := sessions[source].(client := NONE)][target := sessions[target].(client := client, active := to)];
              AllView(Moved(leases, target, client, to), after) <==>
              !(to in leases && leases[to].client != client && leases[to].session != target)
    {
      var after := sessions[source := sessions[source].(client := NONE)][target := sessions[target].(client := client, active := to)];
      var moved := Moved(leases, target, client, to);
      if to in leases && leases[to].client != client && leases[to].session != target {
        assert !ViewsActive(moved, leases[to].session, after[leases[to].session]);
      } else {
        forall t | t in after ensures ViewsActive(moved, t, after[t]) {
          assert ViewsActive(leases, t, sessions[t]);
        }
      }
    }

    static lemma {:induction false} SwitchSound(leases: map<WindowId, Lease>, sessions: map<SessionId, Session>, client: ClientId,
                                                source: SessionId, target: SessionId, to: WindowId)
      requires Sound(leases, sessions) && source in sessions && target in sessions && source != target
      requires client != NONE && sessions[source].client == client
      requires to != NONE && (sessions[target].active != NONE ==> to == sessions[target].active)
      ensures var after := sessions[source := sessions[source].(client := NONE)][target := sessions[target].(client := client, active := to)];
              Sound(Moved(leases, target, client, to), after)
    {
      var after := sessions[source := sessions[source].(client := NONE)][target := sessions[target].(client := client, active := to)];
      var moved := Moved(leases, target, client, to);
      forall w | w in moved
        ensures moved[w].session in after && moved[w].client != NONE && w != NONE
        ensures after[moved[w].session].client == moved[w].client && after[moved[w].session].active == w
      {
      }
    }

    // -------------------------------------------------------- window removal

    /** The window a member falls back to: its previous one if that is left and free
        for its client, else the first free one, else none. */
    static ghost predicate FallsBack(leases: map<WindowId, Lease>, client: ClientId, previous: WindowId, windows: seq<WindowId>, w: WindowId) {
      if previous in windows && Free(leases, client, previous) then w == previous
      else if w == NONE then forall k :: 0 <= k < |windows| ==> !Free(leases, client, windows[k])
      else exists i :: 0 <= i < |windows| && windows[i] == w && Free(leases, client, w)
                       && forall k :: 0 <= k < i ==> !Free(leases, client, windows[k])
    }

    static predicate Free(leases: map<WindowId, Lease>, client: ClientId, w: WindowId) {
      client == NONE || w !in leases || leases[w].client == client
    }

    method Fallback(client: ClientId, previous: WindowId, windows: seq<WindowId>, removed: WindowId) returns (w: WindowId)
      requires NONE !in windows && removed !in windows
      ensures FallsBack(leases, client, previous, windows, w)
      ensures w != NONE ==> w in windows && Free(leases, client, w)
    {
      w := NONE;
      if previous != NONE && previous != removed && previous in windows && Free(leases, client, previous) {
        return previous;
      }
      var i := 0;
      while i < |windows|
        invariant 0 <= i <= |windows|
        invariant forall k :: 0 <= k < i ==> !Free(leases, client, windows[k])
      {
        if Free(leases, client, windows[i]) {
          return windows[i];
        }
        i := i + 1;
      }
    }

    /** One member's repair: another of its windows becomes active, the previous one
        first, then in display order, and never one that another client views. */
    method RepairMember(s: SessionId, removed: WindowId)
      requires s in sessions && removed != NONE && removed !in leases
      requires forall t :: t in sessions ==> NONE !in sessions[t].windows
      requires sessions[s].active != NONE && sessions[s].active != removed ==> sessions[s].active in sessions[s].windows
      modifies this
      ensures old(Sound(leases, sessions)) ==> Sound(leases, sessions) && forall w :: w in old(leases) ==> w in leases && leases[w] == old(leases)[w]
      ensures removed !in leases
      ensures sessions.Keys == old(sessions).Keys && sessions[s].client == old(sessions)[s].client
      ensures leases == if ActiveStays(old(sessions)[s], removed) || sessions[s].active == NONE || sessions[s].client == NONE then old(leases)
                        else old(leases)[sessions[s].active := Lease(s, sessions[s].client)]
      ensures sessions[s].previous ==
              if ActiveStays(old(sessions)[s], removed) then (if old(sessions)[s].previous == removed then NONE else old(sessions)[s].previous)
              else if sessions[s].active == NONE && sessions[s].windows != [] then removed else NONE
      ensures forall t :: t in sessions && t != s ==> sessions[t] == old(sessions)[t]
      ensures sessions[s].windows == Without(old(sessions)[s].windows, removed)
      ensures sessions[s].active != NONE ==> sessions[s].active in sessions[s].windows && sessions[s].active != removed
      ensures forall w :: w in old(leases) && w != sessions[s].active ==> w in leases && leases[w] == old(leases)[w]
      ensures ViewsActive(leases, s, sessions[s]) || (ActiveStays(old(sessions)[s], removed) && !ViewsActive(old(leases), s, old(sessions)[s]))
      ensures ActiveStays(old(sessions)[s], removed) ==> sessions[s].active == old(sessions)[s].active && leases == old(leases)
      ensures !ActiveStays(old(sessions)[s], removed) ==>
                FallsBack(old(leases), sessions[s].client, old(sessions)[s].previous, sessions[s].windows, sessions[s].active)
    {
      hide Sound, FallsBack;
      var session := sessions[s];
      var windows := Without(session.windows, removed);
      WithoutMembers(session.windows, removed);
      if session.active != removed && session.active in windows {
        var kept := session.(windows := windows, previous := if session.previous == removed then NONE else session.previous);
        SameViews(leases, sessions, s, kept);
        sessions := sessions[s := kept];
        return;
      }
      var replacement := Fallback(session.client, session.previous, windows, removed);
      var repaired := session.(windows := windows, active := replacement, 
                                  previous := if replacement == NONE && |windows| > 0 then removed else NONE);
      ReplaceKeeps(leases, sessions, s, repaired, removed);
      if replacement != NONE && session.client != NONE {
        leases := leases[replacement := Lease(s, session.client)];
      }
      sessions := sessions[s := repaired];
    }

    /** What becomes of a member: the window is gone, an active window that is left
        stays, and otherwise the fallback becomes active, with the client's lease. */
    static ghost predicate RepairOf(leases: map<WindowId, Lease>, s: SessionId, was: Session, now: Session, removed: WindowId) {
      && now.client == was.client && now.windows == Without(was.windows, removed)
      && (if ActiveStays(was, removed)
          then now.active == was.active && now.previous == (if was.previous == removed then NONE else was.previous)
          else
            && FallsBack(leases, was.client, was.previous, now.windows, now.active) && ViewsActive(leases, s, now)
            && now.previous == if now.active == NONE && now.windows != [] then removed else NONE)
    }

    /** The lease part of `removeGroupWindowNow`, the members in any order: those
        that compete for one fallback each get a window of their own, or none. */
    method RemoveWindow(removed: WindowId, members: set<SessionId>)
      requires Valid() && removed != NONE && members <= sessions.Keys
      requires forall s :: s in sessions && removed in sessions[s].windows ==> s in members
      modifies this
      ensures Valid() && (old(Complete()) ==> Complete())
      ensures removed !in leases && sessions.Keys == old(sessions).Keys
      ensures forall s :: s in sessions ==>
                if s in members then RepairOf(leases, s, old(sessions)[s], sessions[s], removed) else sessions[s] == old(sessions)[s]
      ensures forall w :: w in old(leases) && w != removed ==> w in leases && leases[w] == old(leases)[w]
      ensures forall w :: w in leases && w !in old(leases) ==> ForFallback(leases[w], old(sessions), members, removed)
    {
      hide Sound, AllView, Removing, RepairOf, ActiveStays, ForFallback;
      ghost var was, complete := sessions, Complete();
      DropLease(leases, sessions, removed);
      leases := leases - {removed};
      ghost var dropped := leases;
      RemovalStarts(complete, was, leases, removed);
      var todo := members;
      assert members - todo == {};
      while todo != {}
        invariant todo <= members && was.Keys == sessions.Keys
        invariant Removing(complete, was, dropped, leases, sessions, members - todo, removed)
        decreases |todo|
      {
        var s :| s in todo;
        RepairNext(complete, was, dropped, s, members - todo, removed);
        assert members - (todo - {s}) == (members - todo) + {s};
        todo := todo - {s};
      }
      assert members - todo == members;
      Finished(complete, was, dropped, leases, sessions, members, removed);
    }

    /** One member more of a removal. */
    method RepairNext(ghost complete: bool, ghost was: map<SessionId, Session>, ghost dropped: map<WindowId, Lease>,
                      s: SessionId, ghost done: set<SessionId>, removed: WindowId)
      requires s in sessions && s !in done && done <= sessions.Keys && removed != NONE && WindowsKnown(was)
      requires Removing(complete, was, dropped, leases, sessions, done, removed)
      modifies this
      ensures sessions.Keys == old(sessions).Keys
      ensures Removing(complete, was, dropped, leases, sessions, done + {s}, removed)
    {
      ghost var before, given := sessions, leases;
      RemovingKnown(complete, was, dropped, leases, sessions, done, removed);
      hide Sound, FallsBack, ViewsActive, ActiveStays, Removing, WindowsKnown;
      WithoutMembers(sessions[s].windows, removed);
      RepairMember(s, removed);
      RepairedMember(given, leases, s, before[s], sessions[s], removed);
      OneMoreRepaired(complete, was, dropped, given, leases, before, sessions, s, done, removed);
    }

    static lemma {:induction false} RemovingKnown(complete: bool, was: map<SessionId, Session>, dropped: map<WindowId, Lease>,
                                                  leases: map<WindowId, Lease>, sessions: map<SessionId, Session>, done: set<SessionId>, removed: WindowId)
      requires Removing(complete, was, dropped, leases, sessions, done, removed) && WindowsKnown(was)
      ensures Sound(leases, sessions) && removed !in leases && (forall t :: t in sessions ==> NONE !in sessions[t].windows)
      ensures forall t :: t in sessions && t !in done ==> sessions[t] == was[t]
      ensures forall t :: t in sessions && t !in done && sessions[t].active != NONE ==> sessions[t].active in sessions[t].windows
    {
      hide Sound, FallsBack, ViewsActive, ActiveStays;
      forall t | t in sessions ensures NONE !in sessions[t].windows {
        WithoutMembers(was[t].windows, removed);
      }
    }

    /** The repair of one member, told with the leases after it. */
    static lemma {:induction false} RepairedMember(given: map<WindowId, Lease>, leases: map<WindowId, Lease>, s: SessionId,
                                                   was: Session, now: Session, removed: WindowId)
      requires now.client == was.client && now.windows == Without(was.windows, removed) && NONE !in now.windows
      requires forall w :: w in given ==> w in leases && leases[w] == given[w]
      requires ActiveStays(was, removed) ==> now.active == was.active
      requires !ActiveStays(was, removed) ==> FallsBack(given, was.client, was.previous, now.windows, now.active) && ViewsActive(leases, s, now)
      requires now.previous == if ActiveStays(was, removed) then (if was.previous == removed then NONE else was.previous)
                               else if now.active == NONE && now.windows != [] then removed else NONE
      ensures RepairOf(leases, s, was, now, removed)
    {
      hide FallsBack, ActiveStays;
      if !ActiveStays(was, removed) {
        Chosen(leases, s, was.client, was.previous, now);
        FallsBackLater(given, leases, was.client, was.previous, now.windows, now.active);
      }
    }

    /** A fallback is one still when more windows have been taken, the chosen one by
        the client itself. */
    static lemma {:induction false} FallsBackLater(given: map<WindowId, Lease>, leases: map<WindowId, Lease>,
                                                   client: ClientId, previous: WindowId, windows: seq<WindowId>, w: WindowId)
      requires FallsBack(given, client, previous, windows, w) && NONE !in windows
      requires forall v :: v in given ==> v in leases && leases[v] == given[v]
      requires w != NONE ==> Free(leases, client, w)
      ensures FallsBack(leases, client, previous, windows, w)
    {
    }

    static lemma {:induction false} OneMoreRepaired(complete: bool, was: map<SessionId, Session>, dropped: map<WindowId, Lease>,
                                                    given: map<WindowId, Lease>, leases: map<WindowId, Lease>,
                                                    before: map<SessionId, Session>, after: map<SessionId, Session>,
                                                    s: SessionId, done: set<SessionId>, removed: WindowId)
      requires Removing(complete, was, dropped, given, before, done, removed) && WindowsKnown(was)
      requires s in before && s !in done && before.Keys == after.Keys && before[s] == was[s]
      requires Sound(leases, after) && removed !in leases
      requires forall w :: w in given ==> w in leases && leases[w] == given[w]
      requires forall w :: w in leases && w !in given ==> leases[w].session == s && !ActiveStays(was[s], removed)
      requires forall t :: t in after && t != s ==> after[t] == before[t]
      requires RepairOf(leases, s, was[s], after[s], removed)
      requires ViewsActive(leases, s, after[s]) || (ActiveStays(was[s], removed) && !ViewsActive(given, s, was[s]))
      ensures Removing(complete, was, dropped, leases, after, done + {s}, removed)
    {
      hide Sound, ActiveStays, WindowsKnown, ViewsActive, RepairOf, ForFallback;
      assert forall t :: t in before ==> NONE !in before[t].windows by { RemovingKnown(complete, was, dropped, given, before, done, removed); }
      ViewsLater(complete, was, given, leases, before, after, s, done, removed);
      NewlyLeased(was, dropped, given, leases, s, done, removed);
      RepairsLater(was, given, leases, before, after, s, done, removed);
    }

    static lemma {:induction false} RepairsLater(was: map<SessionId, Session>, given: map<WindowId, Lease>, leases: map<WindowId, Lease>,
                                                 before: map<SessionId, Session>, after: map<SessionId, Session>,
                                                 s: SessionId, done: set<SessionId>, removed: WindowId)
      requires before.Keys == after.Keys == was.Keys && s in before && RepairOf(leases, s, was[s], after[s], removed)
      requires forall t :: t in before ==> if t in done then RepairOf(given, t, was[t], before[t], removed) else before[t] == was[t]
      requires forall t :: t in before ==> NONE !in before[t].windows
      requires forall w :: w in given ==> w in leases && leases[w] == given[w]
      requires forall t :: t in after && t != s ==> after[t] == before[t]
      ensures forall t :: t in after ==> if t in done + {s} then RepairOf(leases, t, was[t], after[t], removed) else after[t] == was[t]
    {
      hide RepairOf;
      forall t | t in after && t in done && t != s ensures RepairOf(leases, t, was[t], after[t], removed) {
        RepairStays(given, leases, t, was[t], after[t], removed);
      }
    }

    static lemma {:induction false} NewlyLeased(was: map<SessionId, Session>, dropped: map<WindowId, Lease>, given: map<WindowId, Lease>,
                                                leases: map<WindowId, Lease>, s: SessionId, done: set<SessionId>, removed: WindowId)
      requires s in was && forall w :: w in given ==> w in leases && leases[w] == given[w]
      requires forall w :: w in given && w !in dropped ==> ForFallback(given[w], was, done, removed)
      requires forall w :: w in leases && w !in given ==> leases[w].session == s && !ActiveStays(was[s], removed)
      ensures forall w :: w in leases && w !in dropped ==> ForFallback(leases[w], was, done + {s}, removed)
    {
      hide ActiveStays;
    }

    static lemma {:induction false} RepairStays(given: map<WindowId, Lease>, leases: map<WindowId, Lease>, t: SessionId,
                                                was: Session, now: Session, removed: WindowId)
      requires RepairOf(given, t, was, now, removed) && NONE !in now.windows
      requires forall w :: w in given ==> w in leases && leases[w] == given[w]
      ensures RepairOf(leases, t, was, now, removed)
    {
      hide FallsBack, ActiveStays, ViewsActive, Without;
      if !ActiveStays(was, removed) {
        StillViews(given, leases, t, now);
        RepairedMember(given, leases, t, was, now, removed);
      }
    }

    static lemma {:induction false} StillViews(given: map<WindowId, Lease>, leases: map<WindowId, Lease>, t: SessionId, now: Session)
      requires forall w :: w in given ==> w in leases && leases[w] == given[w]
      ensures ViewsActive(given, t, now) ==> ViewsActive(leases, t, now)
    {
    }

    static lemma {:induction false} ViewsLater(complete: bool, was: map<SessionId, Session>, given: map<WindowId, Lease>, leases: map<WindowId, Lease>,
                                               before: map<SessionId, Session>, after: map<SessionId, Session>,
                                               s: SessionId, done: set<SessionId>, removed: WindowId)
      requires before.Keys == after.Keys == was.Keys && s in before && before[s] == was[s]
      requires complete ==> forall t :: t in before ==> ViewsActive(given, t, before[t]) || (t !in done && was[t].active == removed)
      requires forall w :: w in given ==> w in leases && leases[w] == given[w]
      requires forall t :: t in after && t != s ==> after[t] == before[t]
      requires ViewsActive(leases, s, after[s]) || (ActiveStays(was[s], removed) && !ViewsActive(given, s, was[s]))
      ensures complete ==> forall t :: t in after ==> ViewsActive(leases, t, after[t]) || (t !in done + {s} && was[t].active == removed)
    {
      assert ActiveStays(was[s], removed) ==> was[s].active != removed;
      hide ActiveStays, ViewsActive;
      forall t | t in after ensures ViewsActive(given, t, after[t]) ==> ViewsActive(leases, t, after[t]) {
        StillViews(given, leases, t, after[t]);
      }
    }

    static lemma {:induction false} Chosen(leases: map<WindowId, Lease>, s: SessionId, client: ClientId, previous: WindowId, now: Session)
      requires ViewsActive(leases, s, now) && now.client == client
      ensures now.active != NONE ==> Free(leases, client, now.active)
    {
    }

    /** A removal on the way: these members are repaired, every lease of before is
        still there, and only members to come may have lost their view. */
    static ghost predicate Removing(complete: bool, was: map<SessionId, Session>, dropped: map<WindowId, Lease>,
                                    leases: map<WindowId, Lease>, sessions: map<SessionId, Session>, done: set<SessionId>, removed: WindowId)
    {
      && Sound(leases, sessions) && removed !in leases && sessions.Keys == was.Keys
      && (forall w :: w in dropped ==> w in leases && leases[w] == dropped[w])
      && (forall w :: w in leases && w !in dropped ==> ForFallback(leases[w], was, done, removed))
      && (forall s :: s in sessions ==> if s in done then RepairOf(leases, s, was[s], sessions[s], removed) else sessions[s] == was[s])
      && (complete ==> forall s :: s in sessions ==>
            ViewsActive(leases, s, sessions[s]) || (s !in done && was[s].active == removed))
    }

    /** A lease of a member whose active window did not stay. */
    static ghost predicate ForFallback(lease: Lease, was: map<SessionId, Session>, members: set<SessionId>, removed: WindowId) {
      lease.session in members && lease.session in was && !ActiveStays(was[lease.session], removed)
    }

    static lemma {:induction false} RemovalStarts(complete: bool, was: map<SessionId, Session>, dropped: map<WindowId, Lease>, removed: WindowId)
      requires Sound(dropped, was) && WindowsKnown(was) && removed !in dropped
      requires complete ==> forall s :: s in was ==> ViewsActive(dropped, s, was[s]) || was[s].active == removed
      ensures Removing(complete, was, dropped, dropped, was, {}, removed)
    {
    }

    static lemma {:induction false} DropLease(leases: map<WindowId, Lease>, sessions: map<SessionId, Session>, removed: WindowId)
      requires Sound(leases, sessions)
      ensures Sound(leases - {removed}, sessions)
      ensures AllView(leases, sessions) ==>
                forall s :: s in sessions ==> ViewsActive(leases - {removed}, s, sessions[s]) || sessions[s].active == removed
    {
    }

    static lemma {:induction false} Finished(complete: bool, was: map<SessionId, Session>, dropped: map<WindowId, Lease>,
                                             leases: map<WindowId, Lease>, sessions: map<SessionId, Session>, members: set<SessionId>, removed: WindowId)
      requires Removing(complete, was, dropped, leases, sessions, members, removed)
      requires removed != NONE && WindowsKnown(was) && forall s :: s in was && removed in was[s].windows ==> s in members
      ensures Sound(leases, sessions) && WindowsKnown(sessions) && (complete ==> AllView(leases, sessions))
      ensures removed !in leases && forall w :: w in dropped ==> w in leases && leases[w] == dropped[w]
      ensures forall w :: w in leases && w !in dropped ==> ForFallback(leases[w], was, members, removed)
      ensures forall s :: s in sessions ==> if s in members then RepairOf(leases, s, was[s], sessions[s], removed) else sessions[s] == was[s]
    {
      hide Sound, ViewsActive;
      forall s | s in sessions
        ensures NONE !in sessions[s].windows && (sessions[s].active != NONE ==> sessions[s].active in sessions[s].windows)
        ensures s !in members ==> was[s].active != removed
      {
        WithoutMembers(was[s].windows, removed);
      }
    }

    static lemma {:induction false} SameViews(leases: map<WindowId, Lease>, sessions: map<SessionId, Session>, s: SessionId, kept: Session)
      requires s in sessions && kept.active == sessions[s].active && kept.client == sessions[s].client
      ensures Sound(leases, sessions) ==> Sound(leases, sessions[s := kept])
    {
    }

    /** A member whose active window is gone holds no lease, so it may take one. */
    static lemma {:induction false} ReplaceKeeps(leases: map<WindowId, Lease>, sessions: map<SessionId, Session>, s: SessionId, repaired: Session,
                                                 removed: WindowId)
      requires s in sessions && repaired.client == sessions[s].client
      requires sessions[s].active == NONE || sessions[s].active == removed || sessions[s].active !in leases
      requires removed !in leases && repaired.active != removed
      requires repaired.active != NONE && repaired.client != NONE && repaired.active in leases ==> leases[repaired.active].client == repaired.client
      ensures var after := if repaired.active != NONE && repaired.client != NONE then leases[repaired.active := Lease(s, repaired.client)] else leases;
              Sound(leases, sessions) ==> Sound(after, sessions[s := repaired]) && forall w :: w in leases ==> w in after && after[w] == leases[w]
    {
    }
  }

  function Inserted(windows: seq<WindowId>, place: nat, created: WindowId): seq<WindowId>
    requires place <= |windows|
  {
    windows[..place] + [created] + windows[place..]
  }

  lemma {:induction false} InsertedMembers(windows: seq<WindowId>, place: nat, created: WindowId)
    requires place <= |windows|
    ensures forall w :: w in Inserted(windows, place, created) <==> w == created || w in windows
  {
    assert windows == windows[..place] + windows[place..];
  }

  function Without(windows: seq<WindowId>, removed: WindowId): (out: seq<WindowId>) {
    if windows == [] then []
    else Without(windows[..|windows| - 1], removed) + if windows[|windows| - 1] == removed then [] else [windows[|windows| - 1]]
  }

  lemma {:induction false} WithoutMembers(windows: seq<WindowId>, removed: WindowId)
    ensures forall w :: w in Without(windows, removed) <==> w in windows && w != removed
    decreases |windows|
  {
    if windows != [] {
      WithoutMembers(windows[..|windows| - 1], removed);
      assert windows == windows[..|windows| - 1] + [windows[|windows| - 1]];
    }
  }

  predicate ActiveStays(session: Session, removed: WindowId) {
    session.active != removed && session.active in session.windows
  }

  /** A switch that robs: the target lost its active window while every other was
      viewed, and the client switching in takes the view of a third session's. */
  lemma {:induction false} RobberyPossible() returns (leases: map<WindowId, Lease>, sessions: map<SessionId, Session>)
    ensures Sound(leases, sessions) && WindowsKnown(sessions) && AllView(leases, sessions)
    ensures 1 in sessions && 2 in sessions && 3 in sessions
    ensures sessions[1] == Session([5], 5, NONE, 11) && leases[5] == Lease(1, 11)
    ensures sessions[2] == Session([5], NONE, 6, 12) && sessions[3] == Session([7], 7, NONE, 13)
    ensures !AllView(Moved(leases, 2, 13, 5), sessions[3 := sessions[3].(client := NONE)][2 := sessions[2].(client := 13, active := 5)])
  {
    leases := map[5 := Lease(1, 11), 7 := Lease(3, 13)];
    sessions := map[1 := Session([5], 5, NONE, 11), 2 := Session([5], NONE, 6, 12), 3 := Session([7], 7, NONE, 13)];
    ViewLeases.SwitchViews(leases, sessions, 13, 3, 2, 5);
  }

  /** What an attach to a session without an active window leads to: the client is
      put on the first window, another window that sorts before it is created from a
      session of the group nobody is attached to, some third window goes, and the
      repair gives the client a second lease. */
  method SecondLease() returns (views: ViewLeases)
    ensures fresh(views) && views.leases.Keys == {5, 7} && views.leases[5] == views.leases[7] == Lease(1, 11)
    ensures 1 in views.sessions && views.sessions[1] == Session([7, 5], 7, NONE, 11)
  {
    hide Sound, AllView, Inserted, Without, Moved, OnlyActive;
    views := new ViewLeases(NO_ACTIVE);
    var attached := views.Attach(11, 1, true);
    FirstMoved();
    assert views.leases == map[5 := Lease(1, 11)] && views.sessions[1] == Session([5, 9], NONE, 3, 11);
    views.CreateWindow({11}, 2, 7, {1, 2}, 0);
    KeptBy(NO_ACTIVE[1 := NO_ACTIVE[1].(client := 11)], views.sessions, 2, 7);
    PutFirst();
    assert views.leases == map[5 := Lease(1, 11)] && views.sessions[1].windows == [7, 5, 9] && views.sessions[1].client == 11;
    views.RepairMember(1, 9);
    LastGone();
    assert views.sessions[1].windows == [7, 5];
    TakesFirst(views.sessions[1].active);
  }

  const NO_ACTIVE := map[1 := Session([5, 9], NONE, 3, NONE), 2 := Session([5, 9], 9, NONE, NONE)]

  lemma {:induction false} FirstMoved()
    ensures Moved(map[], 1, 11, 5) == map[5 := Lease(1, 11)]
  {
  }

  lemma {:induction false} PutFirst()
    ensures Inserted([5, 9], 0, 7) == [7, 5, 9]
  {
  }

  lemma {:induction false} KeptBy(before: map<SessionId, Session>, after: map<SessionId, Session>, s: SessionId, target: WindowId)
    requires OnlyActive(before, after, s, target)
    ensures before.Keys == after.Keys
    ensures forall t :: t in before && t != s ==> after[t].active == before[t].active && after[t].client == before[t].client
  {
  }

  lemma {:induction false} LastGone()
    ensures Without([7, 5, 9], 9) == [7, 5]
  {
    assert [7, 5, 9][..2] == [7, 5] && [7, 5][..1] == [7] && [7][..0] == [];
    assert Without([], 9) == [] && Without([7], 9) == [7] && Without([7, 5], 9) == [7, 5];
  }

  lemma {:induction false} TakesFirst(w: WindowId)
    requires ViewLeases.FallsBack(map[5 := Lease(1, 11)], 11, 3, [7, 5], w)
    ensures w == 7
  {
    assert ViewLeases.Free(map[5 := Lease(1, 11)], 11, [7, 5][0]);
  }

  /** It takes a target without an active window: otherwise its own client, if any, is
      the only one to lose a view. */
  lemma {:induction false} ActiveTargetNotRobbed(leases: map<WindowId, Lease>, sessions: map<SessionId, Session>, client: ClientId, target: SessionId)
    requires Sound(leases, sessions) && AllView(leases, sessions) && target in sessions
    requires sessions[target].active != NONE && sessions[target].client != NONE
    ensures sessions[target].active in leases && leases[sessions[target].active].session == target
  {
    assert ViewsActive(leases, target, sessions[target]);
  }
}
