/**
 * Connection slots at the realtime gateway: a handshake that awaits session verification races the close of
 * its own transport, and one principal may hold only so many sockets.
 *
 * The steps are the code between awaits. The gateway's two tables change only in `FinishHandshake` (all that
 * runs after verification returns) and in `ReleaseConnection`, which the transport's close, the namespace
 * disconnect and a failed handshake all call.
 */
module ConnectionSlots {
  import opened Options

  type SocketId = string
  type PrincipalId = string

  datatype Identity = Identity(principalId: PrincipalId, employee: bool, sessionVersion: int)

  datatype Slots = Slots(connections: map<SocketId, Identity>, perPrincipal: map<PrincipalId, set<SocketId>>) {
    function HeldBy(p: PrincipalId): set<SocketId> {
      if p in perPrincipal then perPrincipal[p] else {}
    }
  }

  /** The registered sockets of one principal. */
  function SocketsOf(connections: map<SocketId, Identity>, p: PrincipalId): set<SocketId> {
    set c | c in connections && connections[c].principalId == p
  }

  function Register(s: Slots, socket: SocketId, identity: Identity): Slots {
    var p := identity.principalId;
    Slots(s.connections[socket := identity], s.perPrincipal[p := s.HeldBy(p) + {socket}])
  }

  function Release(s: Slots, socket: SocketId): Slots {
    if socket !in s.connections then s
    else
      var p := s.connections[socket].principalId;
      var left := s.HeldBy(p) - {socket};
      Slots(s.connections - {socket}, if left == {} then s.perPrincipal - {p} else s.perPrincipal[p := left])
  }

  datatype Verdict = UNAUTHORIZED | TOO_MANY_CONNECTIONS | ADMITTED

  /** What verification and the ceiling decide about a handshake, and the tables it leaves behind. */
  function Finish(s: Slots, ceiling: nat, socket: SocketId, verified: Option<Identity>, closed: bool): (Slots, Verdict) {
    match verified
    case None => (s, UNAUTHORIZED)
    case Some(identity) =>
      if |s.HeldBy(identity.principalId)| >= ceiling then (s, TOO_MANY_CONNECTIONS)
      else if closed then (Release(Register(s, socket, identity), socket), UNAUTHORIZED)
      else (Register(s, socket, identity), ADMITTED)
  }

  class Gateway {
    var connections: map<SocketId, Identity>
    var perPrincipal: map<PrincipalId, set<SocketId>>
    const maxConnectionsPerPrincipal: nat

    function Tables(): Slots
      reads this
    {
      Slots(connections, perPrincipal)
    }

    constructor (maxConnectionsPerPrincipal: nat)
      ensures Tables() == Slots(map[], map[]) && this.maxConnectionsPerPrincipal == maxConnectionsPerPrincipal
    {
      connections := map[];
      perPrincipal := map[];
      this.maxConnectionsPerPrincipal := maxConnectionsPerPrincipal;
    }

    /** Frees everything a connection holds; harmless when it holds nothing. */
    method ReleaseConnection(socket: SocketId)
      modifies this
      ensures Tables() == Release(old(Tables()), socket)
    {
      if socket !in connections {
        return;
      }
      var p := connections[socket].principalId;
      if p in perPrincipal {
        perPrincipal := perPrincipal[p := perPrincipal[p] - {socket}];
      }
      if p !in perPrincipal || |perPrincipal[p]| == 0 {
        perPrincipal := perPrincipal - {p};
      }
      connections := connections - {socket};
    }

    /** The rest of a handshake, once the session has been verified or refused. */
    method FinishHandshake(socket: SocketId, verified: Option<Identity>, closed: bool) returns (verdict: Verdict)
      modifies this
      ensures (Tables(), verdict) == Finish(old(Tables()), maxConnectionsPerPrincipal, socket, verified, closed)
    {
      if verified.None? {
        return UNAUTHORIZED;
      }
      var identity := verified.value;
      var p := identity.principalId;
      var existing := if p in perPrincipal then perPrincipal[p] else {};
      if |existing| >= maxConnectionsPerPrincipal {
        return TOO_MANY_CONNECTIONS;
      }
      connections := connections[socket := identity];
      existing := existing + {socket};
      perPrincipal := perPrincipal[p := existing];
      if closed {
        ReleaseConnection(socket);
        return UNAUTHORIZED;
      }
      return ADMITTED;
    }
  }

  // ---------------------------------------------------------------- every interleaving

  /** The gateway and its transports: which sockets are verifying, and which transports have closed. */
  datatype World = World(slots: Slots, verifying: set<SocketId>, seen: set<SocketId>, closed: set<SocketId>)

  datatype Event =
    | HandshakeStarts(socket: SocketId)
    | HandshakeFinishes(socket: SocketId, verified: Option<Identity>)
    | TransportCloses(socket: SocketId)
    | Disconnects(socket: SocketId)
    | ReleasedAgain(socket: SocketId)

  const EMPTY := World(Slots(map[], map[]), {}, {}, {})

  /** A socket id is used for one handshake; a close releases the slot, and a finishing handshake sees it. */
  function Step(w: World, ceiling: nat, e: Event): World {
    match e
    case HandshakeStarts(s) =>
      if s in w.seen then w else w.(verifying := w.verifying + {s}, seen := w.seen + {s})
    case HandshakeFinishes(s, verified) =>
      if s !in w.verifying then w
      else w.(slots := Finish(w.slots, ceiling, s, verified, s in w.closed).0, verifying := w.verifying - {s})
    case TransportCloses(s) =>
      if s !in w.seen then w else w.(slots := Release(w.slots, s), closed := w.closed + {s})
    case Disconnects(s) => w.(slots := Release(w.slots, s))
    case ReleasedAgain(s) => w.(slots := Release(w.slots, s))
  }

  function Run(w: World, ceiling: nat, events: seq<Event>): World {
    if events == [] then w
    else Step(Run(w, ceiling, events[..|events| - 1]), ceiling, events[|events| - 1])
  }

  /** The per-principal table is exactly the non-empty sets of registered sockets, none above the ceiling. */
  ghost predicate Exact(s: Slots, ceiling: nat) {
    && (forall p :: p in s.perPrincipal ==>
          s.perPrincipal[p] == SocketsOf(s.connections, p) && s.perPrincipal[p] != {} && |s.perPrincipal[p]| <= ceiling)
    && (forall c :: c in s.connections ==> s.connections[c].principalId in s.perPrincipal)
  }

  /** No closed transport and no unfinished handshake holds a slot. */
  ghost predicate NoGhosts(w: World) {
    && (forall c :: c in w.slots.connections ==> c !in w.closed && c !in w.verifying && c in w.seen)
    && w.verifying <= w.seen
  }

  lemma HeldIsExact(s: Slots, ceiling: nat, p: PrincipalId)
    requires Exact(s, ceiling)
    ensures s.HeldBy(p) == SocketsOf(s.connections, p)
  {
    if p !in s.perPrincipal {
      assert SocketsOf(s.connections, p) == {};
    }
  }

  lemma RegisterStaysExact(s: Slots, ceiling: nat, socket: SocketId, identity: Identity)
    requires Exact(s, ceiling) && socket !in s.connections && |s.HeldBy(identity.principalId)| < ceiling
    ensures Exact(Register(s, socket, identity), ceiling)
  {
    var r := Register(s, socket, identity);
    HeldIsExact(s, ceiling, identity.principalId);
    forall p | p in r.perPrincipal
      ensures r.perPrincipal[p] == SocketsOf(r.connections, p)
    {
      if p == identity.principalId {
        assert SocketsOf(r.connections, p) == SocketsOf(s.connections, p) + {socket};
      } else {
        assert SocketsOf(r.connections, p) == SocketsOf(s.connections, p);
      }
    }
  }

  lemma ReleaseStaysExact(s: Slots, ceiling: nat, socket: SocketId)
    requires Exact(s, ceiling)
    ensures Exact(Release(s, socket), ceiling)
  {
    if socket in s.connections {
      var r := Release(s, socket);
      var q := s.connections[socket].principalId;
      HeldIsExact(s, ceiling, q);
      assert s.HeldBy(q) - {socket} < s.HeldBy(q);
      SmallerSet(s.HeldBy(q) - {socket}, s.HeldBy(q));
      forall p | p in r.perPrincipal
        ensures r.perPrincipal[p] == SocketsOf(r.connections, p)
      {
        assert SocketsOf(r.connections, p) == SocketsOf(s.connections, p) - {socket};
      }
      forall c | c in r.connections
        ensures r.connections[c].principalId in r.perPrincipal
      {
        if r.connections[c].principalId == q {
          assert c in s.HeldBy(q) - {socket};
        }
      }
    }
  }

  lemma SmallerSet(a: set<SocketId>, b: set<SocketId>)
    requires a <= b
    ensures |a| <= |b|
  {
    if a != {} {
      var x :| x in a;
      SmallerSet(a - {x}, b - {x});
    }
  }

  lemma StepKeeps(w: World, ceiling: nat, e: Event)
    requires Exact(w.slots, ceiling) && NoGhosts(w)
    ensures Exact(Step(w, ceiling, e).slots, ceiling) && NoGhosts(Step(w, ceiling, e))
  {
    hide Exact;
    match e
    case HandshakeFinishes(s, verified) =>
      if s in w.verifying && verified.Some? && |w.slots.HeldBy(verified.value.principalId)| < ceiling {
        RegisterStaysExact(w.slots, ceiling, s, verified.value);
        ReleaseStaysExact(Register(w.slots, s, verified.value), ceiling, s);
      }
    case HandshakeStarts(_) =>
    case TransportCloses(s) => ReleaseStaysExact(w.slots, ceiling, s);
    case Disconnects(s) => ReleaseStaysExact(w.slots, ceiling, s);
    case ReleasedAgain(s) => ReleaseStaysExact(w.slots, ceiling, s);
  }

  /**
   * After any interleaving of handshakes, closes, disconnects and repeated releases, each principal's slots
   * are exactly its registered sockets, never more than the ceiling, and no socket whose transport has closed
   * holds one, whenever in its handshake the close came.
   */
  lemma {:induction false} SlotsAreExact(ceiling: nat, events: seq<Event>)
    ensures Exact(Run(EMPTY, ceiling, events).slots, ceiling) && NoGhosts(Run(EMPTY, ceiling, events))
  {
    if events != [] {
      SlotsAreExact(ceiling, events[..|events| - 1]);
      StepKeeps(Run(EMPTY, ceiling, events[..|events| - 1]), ceiling, events[|events| - 1]);
    }
  }

  // ---------------------------------------------------------------- what the events alone say

  ghost predicate Started(events: seq<Event>, s: SocketId) {
    exists i :: 0 <= i < |events| && events[i] == HandshakeStarts(s)
  }

  /** Its one handshake has started and not finished. */
  ghost predicate Awaiting(events: seq<Event>, s: SocketId) {
    if events == [] then false
    else
      var before, e := events[..|events| - 1], events[|events| - 1];
      if e == HandshakeStarts(s) then !Started(before, s) || Awaiting(before, s)
      else if e.HandshakeFinishes? && e.socket == s then false
      else Awaiting(before, s)
  }

  /** Its transport has closed, once there was one. */
  ghost predicate Closed(events: seq<Event>, s: SocketId) {
    if events == [] then false
    else
      var before := events[..|events| - 1];
      (events[|events| - 1] == TransportCloses(s) && Started(before, s)) || Closed(before, s)
  }

  /**
   * The open sockets: those whose handshake finished verified, below the ceiling and before its transport closed,
   * and that no close, disconnect or release has named since.
   */
  ghost function OpenSockets(ceiling: nat, events: seq<Event>): map<SocketId, Identity> {
    if events == [] then map[]
    else
      var before, e := events[..|events| - 1], events[|events| - 1];
      var open := OpenSockets(ceiling, before);
      match e
      case HandshakeStarts(_) => open
      case HandshakeFinishes(s, verified) =>
        if Awaiting(before, s) && verified.Some? && |SocketsOf(open, verified.value.principalId)| < ceiling && !Closed(before, s)
        then open[s := verified.value] else open
      case TransportCloses(s) => if Started(before, s) then open - {s} else open
      case Disconnects(s) => open - {s}
      case ReleasedAgain(s) => open - {s}
  }

  lemma StartedMore(before: seq<Event>, e: Event, s: SocketId)
    ensures Started(before + [e], s) <==> Started(before, s) || e == HandshakeStarts(s)
  {
    var events := before + [e];
    if Started(before, s) {
      var i :| 0 <= i < |before| && before[i] == HandshakeStarts(s);
      assert events[i] == HandshakeStarts(s);
    }
    if e == HandshakeStarts(s) {
      assert events[|before|] == HandshakeStarts(s);
    }
  }

  /** The gateway's own account of its handshakes and transports is the events'. */
  lemma {:induction false} HandshakesAsTheyHappened(ceiling: nat, events: seq<Event>, s: SocketId)
    ensures var w := Run(EMPTY, ceiling, events);
            && (s in w.seen <==> Started(events, s)) && (s in w.verifying <==> Awaiting(events, s))
            && (s in w.closed <==> Closed(events, s))
  {
    hide Finish, Release, Started;
    if events == [] {
      NobodyStarted(s);
    } else {
      var before, e := events[..|events| - 1], events[|events| - 1];
      HandshakesAsTheyHappened(ceiling, before, s);
      StartedMore(before, e, s);
      assert before + [e] == events;
    }
  }

  lemma NobodyStarted(s: SocketId)
    ensures !Started([], s)
  {
  }

  /** One step of the tables against one of the open sockets. */
  lemma TablesFollow(ceiling: nat, events: seq<Event>)
    requires events != [] && Run(EMPTY, ceiling, events[..|events| - 1]).slots.connections
             == OpenSockets(ceiling, events[..|events| - 1])
    ensures Run(EMPTY, ceiling, events).slots.connections == OpenSockets(ceiling, events)
  {
    hide Started, Awaiting, Closed, Exact;
    var before, e := events[..|events| - 1], events[|events| - 1];
    var w := Run(EMPTY, ceiling, before);
    SlotsAreExact(ceiling, before);
    HandshakesAsTheyHappened(ceiling, before, e.socket);
    if e.HandshakeFinishes? && e.verified.Some? {
      HeldIsExact(w.slots, ceiling, e.verified.value.principalId);
    }
  }

  /**
   * After any interleaving the registered sockets are exactly the open ones, each under the identity that was
   * verified, and each principal's slots are exactly its own of them, never above the ceiling.
   */
  lemma {:induction false} TablesAreTheOpenSockets(ceiling: nat, events: seq<Event>)
    ensures var slots, open := Run(EMPTY, ceiling, events).slots, OpenSockets(ceiling, events);
            && slots.connections == open
            && forall p :: slots.HeldBy(p) == SocketsOf(open, p) && |SocketsOf(open, p)| <= ceiling
                           && (p in slots.perPrincipal <==> SocketsOf(open, p) != {})
  {
    hide Step, OpenSockets, Exact;
    if events == [] {
      assert OpenSockets(ceiling, []) == map[] by {
        NothingOpen(ceiling);
      }
    } else {
      TablesAreTheOpenSockets(ceiling, events[..|events| - 1]);
      TablesFollow(ceiling, events);
    }
    SlotsAreExact(ceiling, events);
    var slots := Run(EMPTY, ceiling, events).slots;
    forall p
      ensures slots.HeldBy(p) == SocketsOf(slots.connections, p) && |SocketsOf(slots.connections, p)| <= ceiling
      ensures p in slots.perPrincipal <==> SocketsOf(slots.connections, p) != {}
    {
      HeldIsExact(slots, ceiling, p);
    }
  }

  lemma NothingOpen(ceiling: nat)
    ensures OpenSockets(ceiling, []) == map[]
  {
  }

  /**
   * The answer to a finishing handshake, from the events alone: refused unless verified; turned away exactly while
   * the principal's open sockets number the ceiling; and otherwise admitted unless its transport has closed.
   */
  lemma EveryAnswerIsEarned(ceiling: nat, events: seq<Event>, s: SocketId, verified: Option<Identity>)
    ensures var w := Run(EMPTY, ceiling, events);
            var verdict := Finish(w.slots, ceiling, s, verified, s in w.closed).1;
            match verified
            case None => verdict == UNAUTHORIZED
            case Some(identity) =>
              var full := |SocketsOf(OpenSockets(ceiling, events), identity.principalId)| == ceiling;
              && (verdict == TOO_MANY_CONNECTIONS <==> full)
              && (verdict == ADMITTED <==> !full && !Closed(events, s))
  {
    hide Run, OpenSockets, Closed;
    HandshakesAsTheyHappened(ceiling, events, s);
    TablesAreTheOpenSockets(ceiling, events);
  }

  /**
   * Aborted handshakes cost nothing: a verified principal is turned away only while it really has as many
   * open sockets as the ceiling allows.
   */
  lemma RefusedOnlyWhenFull(ceiling: nat, events: seq<Event>, socket: SocketId, identity: Identity)
    ensures var w := Run(EMPTY, ceiling, events);
            var open := set c | c in w.slots.connections
                              && w.slots.connections[c].principalId == identity.principalId && c !in w.closed;
            Finish(w.slots, ceiling, socket, Some(identity), socket in w.closed).1 == TOO_MANY_CONNECTIONS
            <==> |open| == ceiling
  {
    SlotsAreExact(ceiling, events);
    var w := Run(EMPTY, ceiling, events);
    HeldIsExact(w.slots, ceiling, identity.principalId);
    assert SocketsOf(w.slots.connections, identity.principalId)
        == set c | c in w.slots.connections
                 && w.slots.connections[c].principalId == identity.principalId && c !in w.closed;
  }
}
