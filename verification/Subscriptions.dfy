/**
 * Channel subscriptions at the realtime gateway: one backplane subscription per channel, shared by every
 * socket watching it, opened by at most one attempt at a time.
 *
 * Subscribing is asynchronous, so it is a protocol whose steps are the code between awaits: a subscribe
 * begins or joins an attempt, the backplane answers, the owner clears the attempt, the subscriber adds its
 * socket and then records the join. Leaves and disconnects may fall between any two of these.
 */
module Subscriptions {
  import opened Options

  type SocketId = string
  type ChannelKey = string
  type Handle = nat

  datatype Subscription = Subscription(handle: Handle, sockets: set<SocketId>)

  /** `attempts` and `open` are the environment: attempts under way by owner number, and the backplane's own
      view of its open handles. Everything else is a table of the gateway. */
  datatype State = State(
    subscriptions: map<ChannelKey, Subscription>,
    pending: map<ChannelKey, nat>,
    joined: map<SocketId, set<ChannelKey>>,
    attempts: map<nat, ChannelKey>,
    flying: set<nat>,
    open: map<Handle, ChannelKey>)

  const EMPTY := State(map[], map[], map[], map[], {}, map[])

  // ---------------------------------------------------------------- the steps

  /** The synchronous start of `ensureChannelSubscription`: nothing, wait for an attempt, or begin one. */
  function Begin(s: State, key: ChannelKey, attempt: nat): State {
    if key in s.subscriptions || key in s.pending then s
    else s.(pending := s.pending[key := attempt], attempts := s.attempts[attempt := key], flying := s.flying + {attempt})
  }

  /** The backplane's answer reaches the attempt: a failure, or a newly opened handle. */
  function Land(s: State, attempt: nat, answer: Option<Handle>): State {
    if attempt !in s.flying || attempt !in s.attempts then s
    else
      var key := s.attempts[attempt];
      var landed := s.(flying := s.flying - {attempt});
      match answer
      case None => landed
      case Some(h) =>
        if key in s.subscriptions then landed  // a winner registered meanwhile: the handle is released at once
        else landed.(subscriptions := s.subscriptions[key := Subscription(h, {})], open := s.open[h := key])
  }

  /** The owner's `finally`: whatever attempt the channel has is no longer pending. */
  function Clear(s: State, attempt: nat): State {
    if attempt !in s.attempts || attempt in s.flying then s
    else s.(pending := s.pending - {s.attempts[attempt]}, attempts := s.attempts - {attempt})
  }

  /** The subscriber adds its socket to the channel, if the channel has a subscription. */
  function AddSocket(s: State, socket: SocketId, key: ChannelKey): State {
    if key !in s.subscriptions then s
    else
      var sub := s.subscriptions[key];
      s.(subscriptions := s.subscriptions[key := sub.(sockets := sub.sockets + {socket})])
  }

  /** The join is recorded, if the connection is still registered. */
  function RecordJoin(s: State, socket: SocketId, key: ChannelKey): State {
    if socket !in s.joined then s else s.(joined := s.joined[socket := s.joined[socket] + {key}])
  }

  /** A socket leaves a channel; the last one out releases the backplane subscription. */
  function Leave(s: State, socket: SocketId, key: ChannelKey): State {
    var t := if socket in s.joined then s.(joined := s.joined[socket := s.joined[socket] - {key}]) else s;
    if key !in s.subscriptions then t
    else
      var sub := s.subscriptions[key];
      var left := sub.sockets - {socket};
      if left == {} then t.(subscriptions := s.subscriptions - {key}, open := s.open - {sub.handle})
      else t.(subscriptions := s.subscriptions[key := sub.(sockets := left)])
  }

  function LeaveAll(s: State, socket: SocketId, keys: seq<ChannelKey>): State {
    if keys == [] then s else Leave(LeaveAll(s, socket, keys[..|keys| - 1]), socket, keys[|keys| - 1])
  }

  function Unregister(s: State, socket: SocketId): State {
    s.(joined := s.joined - {socket})
  }

  /** Who may receive an event: a registered connection, and only an employee's when it is staff-only. */
  function Audience(sockets: set<SocketId>, staffOnly: bool, employees: map<SocketId, bool>): set<SocketId> {
    set c | c in sockets && c in employees && (staffOnly ==> employees[c])
  }

  // ---------------------------------------------------------------- the gateway's code

  class Gateway {
    var subscriptions: map<ChannelKey, Subscription>
    var pendingSubscriptions: map<ChannelKey, nat>
    var joined: map<SocketId, set<ChannelKey>>
    ghost var attempts: map<nat, ChannelKey>
    ghost var flying: set<nat>
    ghost var open: map<Handle, ChannelKey>

    ghost function View(): State
      reads this
    {
      State(subscriptions, pendingSubscriptions, joined, attempts, flying, open)
    }

    constructor ()
      ensures View() == EMPTY
    {
      subscriptions, pendingSubscriptions, joined := map[], map[], map[];
      attempts, flying, open := map[], {}, map[];
    }

    /** Returns whether this caller owns a new attempt and must call the backplane. */
    method BeginSubscribe(key: ChannelKey, attempt: nat) returns (owner: bool)
      modifies this
      ensures View() == Begin(old(View()), key, attempt)
      ensures owner <==> key !in old(subscriptions) && key !in old(pendingSubscriptions)
      ensures subscriptions == old(subscriptions)
      ensures pendingSubscriptions == if owner then old(pendingSubscriptions)[key := attempt] else old(pendingSubscriptions)
    {
      if key in subscriptions {
        return false;
      }
      if key in pendingSubscriptions {
        return false;
      }
      pendingSubscriptions := pendingSubscriptions[key := attempt];
      attempts, flying := attempts[attempt := key], flying + {attempt};
      return true;
    }

    /** The attempt resumes with the backplane's answer; returns a handle it must give back, if any. */
    method LandAttempt(attempt: nat, key: ChannelKey, answer: Option<Handle>) returns (release: Option<Handle>)
      requires attempt in flying && attempt in attempts && attempts[attempt] == key
      modifies this
      ensures View() == Land(old(View()), attempt, answer)
      ensures release == if key in old(subscriptions) then answer else None
      ensures subscriptions == if key in old(subscriptions) || answer.None? then old(subscriptions)
                               else old(subscriptions)[key := Subscription(answer.value, {})]
    {
      flying := flying - {attempt};
      if answer.None? {
        return None;
      }
      if key in subscriptions {
        return answer;
      }
      subscriptions := subscriptions[key := Subscription(answer.value, {})];
      open := open[answer.value := key];
      return None;
    }

    method ClearAttempt(attempt: nat, key: ChannelKey)
      requires attempt !in flying && attempt in attempts && attempts[attempt] == key
      modifies this
      ensures View() == Clear(old(View()), attempt)
      ensures pendingSubscriptions == old(pendingSubscriptions) - {key} && subscriptions == old(subscriptions)
    {
      pendingSubscriptions := pendingSubscriptions - {key};
      attempts := attempts - {attempt};
    }

    method AddToChannel(socket: SocketId, key: ChannelKey)
      modifies this
      ensures View() == AddSocket(old(View()), socket, key)
      ensures subscriptions.Keys == old(subscriptions).Keys
      ensures forall k, c :: k in subscriptions ==>
                (c in subscriptions[k].sockets <==> c in old(subscriptions)[k].sockets || (k == key && c == socket))
    {
      if key in subscriptions {
        var sub := subscriptions[key];
        subscriptions := subscriptions[key := Subscription(sub.handle, sub.sockets + {socket})];
      }
    }

    method LeaveChannel(socket: SocketId, key: ChannelKey)
      modifies this
      ensures View() == Leave(old(View()), socket, key)
    {
      if key in subscriptions {
        var sub := subscriptions[key];
        subscriptions := subscriptions[key := Subscription(sub.handle, sub.sockets - {socket})];
      }
      if socket in joined {
        joined := joined[socket := joined[socket] - {key}];
      }
      if key in subscriptions && |subscriptions[key].sockets| == 0 {
        open := open - {subscriptions[key].handle};
        subscriptions := subscriptions - {key};
      }
    }

    /** Leaves every channel the connection had joined when the disconnect arrived, then forgets it. */
    method OnDisconnect(socket: SocketId, channels: seq<ChannelKey>)
      modifies this
      ensures View() == Unregister(LeaveAll(old(View()), socket, channels), socket)
    {
      for i := 0 to |channels|
        invariant View() == LeaveAll(old(View()), socket, channels[..i])
      {
        assert channels[..i + 1][..i] == channels[..i];
        LeaveChannel(socket, channels[i]);
      }
      assert channels[..|channels|] == channels;
      joined := joined - {socket};
    }

    /** Fan-out checks every socket for itself: a staff-only event goes to employees alone. */
    method FanOut(key: ChannelKey, staffOnly: bool, employees: map<SocketId, bool>) returns (sent: set<SocketId>)
      ensures key !in subscriptions ==> sent == {}
      ensures key in subscriptions ==> sent == Audience(subscriptions[key].sockets, staffOnly, employees)
      ensures forall c :: c in sent <==> key in subscriptions && c in subscriptions[key].sockets && c in employees
                                         && (employees[c] || !staffOnly)
    {
      sent := {};
      if key !in subscriptions {
        return;
      }
      var waiting := subscriptions[key].sockets;
      while waiting != {}
        invariant waiting <= subscriptions[key].sockets
        invariant sent == Audience(subscriptions[key].sockets - waiting, staffOnly, employees)
        decreases waiting
      {
        var c :| c in waiting;
        waiting := waiting - {c};
        if c in employees && (!staffOnly || employees[c]) {
          sent := sent + {c};
        }
      }
    }
  }

  // ---------------------------------------------------------------- every interleaving

  datatype Event =
    | Begins(key: ChannelKey, attempt: nat)
    | Lands(attempt: nat, answer: Option<Handle>)
    | Clears(attempt: nat)
    | Adds(socket: SocketId, key: ChannelKey)
    | Records(socket: SocketId, key: ChannelKey)
    | Leaves(socket: SocketId, key: ChannelKey)
    | Registers(socket: SocketId)
    | Disconnects(socket: SocketId, channels: seq<ChannelKey>)
    | TransportCloses(socket: SocketId)

  /** What the environment guarantees: attempt numbers, handles and socket ids are fresh, and a disconnect
      leaves what its connection has joined. */
  ghost predicate Possible(s: State, e: Event) {
    match e
    case Begins(_, attempt) => attempt !in s.attempts
    case Lands(_, answer) => answer.Some? ==> answer.value !in s.open
    case Registers(c) => c !in s.joined
    case Disconnects(c, channels) => forall k :: k in channels <==> Joined(s, c, k)
    case _ => true
  }

  /** A connection is recorded as having joined. */
  predicate Joined(s: State, c: SocketId, k: ChannelKey) {
    c in s.joined && k in s.joined[c]
  }

  function Step(s: State, e: Event): State {
    match e
    case Begins(key, attempt) => Begin(s, key, attempt)
    case Lands(attempt, answer) => Land(s, attempt, answer)
    case Clears(attempt) => Clear(s, attempt)
    case Adds(socket, key) => AddSocket(s, socket, key)
    case Records(socket, key) => RecordJoin(s, socket, key)
    case Leaves(socket, key) => Leave(s, socket, key)
    case Registers(socket) => s.(joined := s.joined[socket := {}])
    case Disconnects(socket, channels) => Unregister(LeaveAll(s, socket, channels), socket)
    case TransportCloses(socket) => Unregister(s, socket)
  }

  ghost function After(s: State, e: Event): State {
    if Possible(s, e) then Step(s, e) else s
  }

  ghost function Run(s: State, events: seq<Event>): State {
    if events == [] then s else After(Run(s, events[..|events| - 1]), events[|events| - 1])
  }

  /** At most one attempt per channel, and the pending table names it. */
  ghost predicate OneAttemptPerKey(s: State) {
    && (forall a :: a in s.attempts ==> s.attempts[a] in s.pending && s.pending[s.attempts[a]] == a)
    && (forall k :: k in s.pending ==> s.pending[k] in s.attempts && s.attempts[s.pending[k]] == k)
    && s.flying <= s.attempts.Keys
  }

  /** While an attempt is still in flight its channel has no subscription, so a landing never finds one. */
  ghost predicate FlightsLandFree(s: State) {
    forall a :: a in s.flying && a in s.attempts ==> s.attempts[a] !in s.subscriptions
  }

  /** The backplane's open handles are exactly those in the table, one for each channel. */
  ghost predicate HandlesAreTheTable(s: State) {
    && (forall k :: k in s.subscriptions ==> s.subscriptions[k].handle in s.open && s.open[s.subscriptions[k].handle] == k)
    && (forall h :: h in s.open ==> s.open[h] in s.subscriptions && s.subscriptions[s.open[h]].handle == h)
  }

  ghost predicate SingleFlight(s: State) {
    OneAttemptPerKey(s) && FlightsLandFree(s) && HandlesAreTheTable(s)
  }

  lemma LeaveKeeps(s: State, socket: SocketId, key: ChannelKey)
    requires SingleFlight(s)
    ensures SingleFlight(Leave(s, socket, key))
  {
  }

  lemma {:induction false} LeaveAllKeeps(s: State, socket: SocketId, keys: seq<ChannelKey>)
    requires SingleFlight(s)
    ensures SingleFlight(LeaveAll(s, socket, keys))
  {
    hide SingleFlight, Leave;
    if keys != [] {
      LeaveAllKeeps(s, socket, keys[..|keys| - 1]);
      LeaveKeeps(LeaveAll(s, socket, keys[..|keys| - 1]), socket, keys[|keys| - 1]);
    }
  }

  lemma BeginKeeps(s: State, key: ChannelKey, attempt: nat)
    requires SingleFlight(s) && attempt !in s.attempts
    ensures SingleFlight(Begin(s, key, attempt))
  {
  }

  lemma LandKeeps(s: State, attempt: nat, answer: Option<Handle>)
    requires SingleFlight(s) && (answer.Some? ==> answer.value !in s.open)
    ensures SingleFlight(Land(s, attempt, answer))
  {
  }

  lemma ClearKeeps(s: State, attempt: nat)
    requires SingleFlight(s)
    ensures SingleFlight(Clear(s, attempt))
  {
  }

  lemma AddKeeps(s: State, socket: SocketId, key: ChannelKey)
    requires SingleFlight(s)
    ensures SingleFlight(AddSocket(s, socket, key))
  {
  }

  lemma StepKeeps(s: State, e: Event)
    requires SingleFlight(s) && Possible(s, e)
    ensures SingleFlight(Step(s, e))
  {
    hide Begin, Land, Clear, AddSocket, Leave, LeaveAll;
    match e
    case Begins(key, attempt) => BeginKeeps(s, key, attempt);
    case Lands(attempt, answer) => LandKeeps(s, attempt, answer);
    case Clears(attempt) => ClearKeeps(s, attempt);
    case Adds(socket, key) => AddKeeps(s, socket, key);
    case Records(_, _) =>
    case Leaves(socket, key) => LeaveKeeps(s, socket, key);
    case Registers(_) =>
    case Disconnects(socket, channels) => LeaveAllKeeps(s, socket, channels);
    case TransportCloses(_) =>
  }

  lemma {:induction false} SingleFlightOnwards(s: State, events: seq<Event>)
    requires SingleFlight(s)
    ensures SingleFlight(Run(s, events))
  {
    hide SingleFlight, Step, Possible;
    if events != [] {
      SingleFlightOnwards(s, events[..|events| - 1]);
      if Possible(Run(s, events[..|events| - 1]), events[|events| - 1]) {
        StepKeeps(Run(s, events[..|events| - 1]), events[|events| - 1]);
      }
    }
  }

  /**
   * Under every interleaving of subscribes, answers, leaves and disconnects on any channels there is at most
   * one attempt per channel, and the open backplane handles are exactly those in the table: none is leaked
   * and none overwritten. The guard against a concurrent winner is never needed.
   */
  lemma SubscriptionsAreSingleFlight(events: seq<Event>)
    ensures SingleFlight(Run(EMPTY, events))
  {
    SingleFlightOnwards(EMPTY, events);
  }

  // ---------------------------------------------------------------- membership

  /** A socket stands in a channel's set. */
  predicate Listed(s: State, c: SocketId, k: ChannelKey) {
    k in s.subscriptions && c in s.subscriptions[k].sockets
  }

  /** Subscribes between adding their socket and recording the join. */
  type HalfDone = set<(SocketId, ChannelKey)>

  function Progress(half: HalfDone, e: Event): HalfDone {
    match e
    case Adds(c, k) => half + {(c, k)}
    case Records(c, k) => half - {(c, k)}
    case _ => half
  }

  function HalfDoneAfter(events: seq<Event>): HalfDone {
    if events == [] then {} else Progress(HalfDoneAfter(events[..|events| - 1]), events[|events| - 1])
  }

  /** Half-done subscribes apart, the socket sets and the join records say the same thing. */
  ghost predicate Mirrored(s: State, half: HalfDone) {
    forall c, k :: (c, k) !in half ==> (Listed(s, c, k) <==> Joined(s, c, k))
  }

  /**
   * The steps that break the mirror: recording the join of a registered connection whose socket is not in the
   * set, or of one that is gone while its socket is; and a transport's close that unregisters a connection
   * ahead of the disconnect that would have left its channels.
   */
  ghost predicate Breaks(s: State, half: HalfDone, e: Event) {
    match e
    case Records(c, k) => Listed(s, c, k) != (c in s.joined)
    case TransportCloses(c) => exists k :: (c, k) !in half && Joined(s, c, k)
    case _ => false
  }

  lemma LeaveMoves(s: State, c: SocketId, k: ChannelKey)
    ensures forall d, m :: Listed(Leave(s, c, k), d, m) <==> Listed(s, d, m) && (d, m) != (c, k)
    ensures forall d, m :: Joined(Leave(s, c, k), d, m) <==> Joined(s, d, m) && (d, m) != (c, k)
    ensures Leave(s, c, k).joined.Keys == s.joined.Keys
  {
    forall d, m
      ensures Listed(Leave(s, c, k), d, m) <==> Listed(s, d, m) && (d, m) != (c, k)
    {
      if m == k && Listed(s, d, k) && d != c {
        assert d in s.subscriptions[k].sockets - {c};
      }
    }
  }

  /** A leave releases the channel's handle exactly if nobody else is in it, and touches no other channel's. */
  lemma LastOneReleases(s: State, c: SocketId, k: ChannelKey)
    ensures var t := Leave(s, c, k);
            && (forall m :: m in t.subscriptions
                  <==> m in s.subscriptions && (m == k ==> exists d :: d != c && Listed(s, d, k)))
            && (forall m :: m in t.subscriptions ==> t.subscriptions[m].handle == s.subscriptions[m].handle)
            && t.open == if k in s.subscriptions && k !in t.subscriptions then s.open - {s.subscriptions[k].handle} else s.open
  {
    if k in s.subscriptions {
      var left := s.subscriptions[k].sockets - {c};
      if left != {} {
        var d :| d in left;
        assert Listed(s, d, k);
      }
      if d :| d != c && Listed(s, d, k) {
        assert d in left;
      }
    }
  }

  lemma {:induction false} LeaveAllMoves(s: State, c: SocketId, keys: seq<ChannelKey>)
    ensures forall d, m :: Listed(LeaveAll(s, c, keys), d, m) <==> Listed(s, d, m) && !(d == c && m in keys)
    ensures forall d, m :: Joined(LeaveAll(s, c, keys), d, m) <==> Joined(s, d, m) && !(d == c && m in keys)
    ensures LeaveAll(s, c, keys).joined.Keys == s.joined.Keys
  {
    hide Leave, Listed, Joined;
    if keys != [] {
      var last := |keys| - 1;
      LeaveAllMoves(s, c, keys[..last]);
      LeaveMoves(LeaveAll(s, c, keys[..last]), c, keys[last]);
      assert keys == keys[..last] + [keys[last]];
    }
  }

  /** How one step moves a socket in and out of a channel's set: only its own adds and leaves do. */
  predicate ListedAfter(s: State, e: Event, c: SocketId, k: ChannelKey) {
    match e
    case Adds(d, m) => if (d, m) == (c, k) then k in s.subscriptions else Listed(s, c, k)
    case Leaves(d, m) => Listed(s, c, k) && (d, m) != (c, k)
    case Disconnects(d, channels) => Listed(s, c, k) && !(d == c && k in channels)
    case _ => Listed(s, c, k)
  }

  predicate JoinedAfter(s: State, e: Event, c: SocketId, k: ChannelKey) {
    match e
    case Records(d, m) => if (d, m) == (c, k) then c in s.joined else Joined(s, c, k)
    case Leaves(d, m) => Joined(s, c, k) && (d, m) != (c, k)
    case Disconnects(d, _) => Joined(s, c, k) && d != c
    case TransportCloses(d) => Joined(s, c, k) && d != c
    case _ => Joined(s, c, k)
  }

  lemma ListedMoves(s: State, e: Event, c: SocketId, k: ChannelKey)
    requires SingleFlight(s) && Possible(s, e)
    ensures Listed(Step(s, e), c, k) <==> ListedAfter(s, e, c, k)
  {
    hide Leave, LeaveAll, OneAttemptPerKey, HandlesAreTheTable;
    match e
    case Leaves(d, m) => LeaveMoves(s, d, m);
    case Disconnects(d, channels) => LeaveAllMoves(s, d, channels);
    case Lands(attempt, _) =>
      if attempt in s.flying && attempt in s.attempts {
        assert s.attempts[attempt] !in s.subscriptions;
      }
    case _ =>
  }

  lemma JoinedMoves(s: State, e: Event, c: SocketId, k: ChannelKey)
    requires Possible(s, e)
    ensures Joined(Step(s, e), c, k) <==> JoinedAfter(s, e, c, k)
  {
    hide Leave, LeaveAll, Listed;
    match e
    case Leaves(d, m) => LeaveMoves(s, d, m);
    case Disconnects(d, channels) => LeaveAllMoves(s, d, channels);
    case _ =>
  }

  /** A step keeps the mirror exactly when it is not one of those that break it. */
  lemma MirrorStep(s: State, half: HalfDone, e: Event)
    requires Mirrored(s, half) && SingleFlight(s) && Possible(s, e)
    ensures Mirrored(Step(s, e), Progress(half, e)) <==> !Breaks(s, half, e)
  {
    hide Step, SingleFlight, Listed, Joined;
    var t := Step(s, e);
    forall c, k
      ensures (Listed(t, c, k) <==> ListedAfter(s, e, c, k)) && (Joined(t, c, k) <==> JoinedAfter(s, e, c, k))
    {
      ListedMoves(s, e, c, k);
      JoinedMoves(s, e, c, k);
    }
    if e.Records? {
      assert (e.socket, e.key) !in Progress(half, e);
    }
    if Breaks(s, half, e) && e.TransportCloses? {
      var k :| (e.socket, k) !in half && Joined(s, e.socket, k);
      assert Listed(t, e.socket, k) && !Joined(t, e.socket, k);
    }
  }

  // ---------------------------------------------------------------- over whole runs

  /** The first `n` events of a run broke nothing. */
  ghost predicate UnbrokenUpTo(events: seq<Event>, n: nat)
    requires n <= |events|
  {
    forall i :: 0 <= i < n ==> !BrokenBy(events, i)
  }

  ghost predicate BrokenBy(events: seq<Event>, i: nat)
    requires i < |events|
  {
    var s := Run(EMPTY, events[..i]);
    Possible(s, events[i]) && Breaks(s, HalfDoneAfter(events[..i]), events[i])
  }

  /** The mirror holds after each of the first `n` events. */
  ghost predicate MirroredUpTo(events: seq<Event>, n: nat)
    requires n <= |events|
  {
    forall i :: 0 <= i <= n ==> MirroredAfter(events[..i])
  }

  ghost predicate MirroredAfter(events: seq<Event>) {
    Mirrored(Run(EMPTY, events), HalfDoneAfter(events))
  }

  lemma NextEvent(events: seq<Event>, n: nat)
    requires n < |events| && MirroredAfter(events[..n])
    ensures MirroredAfter(events[..n + 1]) <==> !BrokenBy(events, n)
  {
    hide Step, Mirrored, Breaks, SingleFlight, Possible;
    var s := Run(EMPTY, events[..n]);
    assert events[..n + 1][..n] == events[..n];
    SubscriptionsAreSingleFlight(events[..n]);
    if Possible(s, events[n]) {
      MirrorStep(s, HalfDoneAfter(events[..n]), events[n]);
    } else {
      ImpossibleEventsAreNoProgress(s, HalfDoneAfter(events[..n]), events[n]);
    }
  }

  lemma ImpossibleEventsAreNoProgress(s: State, half: HalfDone, e: Event)
    requires !Possible(s, e)
    ensures Progress(half, e) == half
  {
  }

  /**
   * Over any run, the socket sets mirror the join records at every point exactly as long as no event breaks
   * them: half-done subscribes apart, a socket stands in a channel's set exactly when its connection has joined
   * it, unless a join is recorded for a registered socket that is not in the set or for a departed one that is,
   * or a transport's close runs ahead of its disconnect.
   */
  lemma {:induction false} SocketSetsMirrorTheJoins(events: seq<Event>, n: nat)
    requires n <= |events|
    ensures MirroredUpTo(events, n) <==> UnbrokenUpTo(events, n)
  {
    hide MirroredAfter, BrokenBy;
    if n == 0 {
      NothingToMirror();
      assert events[..0] == [];
    } else {
      SocketSetsMirrorTheJoins(events, n - 1);
      if MirroredUpTo(events, n - 1) {
        NextEvent(events, n - 1);
      }
    }
  }

  lemma NothingToMirror()
    ensures MirroredAfter([])
  {
  }

  /** Whether a subscribe's add found the channel's subscription and its socket has not been taken out since. */
  ghost predicate StillIn(events: seq<Event>, c: SocketId, k: ChannelKey) {
    if events == [] then false
    else
      var before, e := events[..|events| - 1], events[|events| - 1];
      match e
      case Adds(d, m) => if (d, m) == (c, k) then k in Run(EMPTY, before).subscriptions else StillIn(before, c, k)
      case Leaves(d, m) => StillIn(before, c, k) && (d, m) != (c, k)
      case Disconnects(d, channels) =>
        StillIn(before, c, k) && !(Possible(Run(EMPTY, before), e) && d == c && k in channels)
      case _ => StillIn(before, c, k)
  }

  /**
   * What the first kind of break comes down to: at any point of any run a socket is in a channel's set exactly
   * if its last add found a subscription, one the backplane had not refused and no other socket's last leave
   * had released, and nothing of its own has taken it out since.
   */
  lemma {:induction false} ListedSinceItsAdd(events: seq<Event>, c: SocketId, k: ChannelKey)
    ensures Listed(Run(EMPTY, events), c, k) <==> StillIn(events, c, k)
  {
    hide Step, SingleFlight, Listed, Joined;
    if events == [] {
      NobodyListed(c, k);
    } else {
      var before, e := events[..|events| - 1], events[|events| - 1];
      var s := Run(EMPTY, before);
      ListedSinceItsAdd(before, c, k);
      SubscriptionsAreSingleFlight(before);
      if Possible(s, e) {
        ListedMoves(s, e, c, k);
      }
    }
  }

  lemma NobodyListed(c: SocketId, k: ChannelKey)
    ensures !Listed(EMPTY, c, k)
  {
  }

  // ---------------------------------------------------------------- the runs that break it

  lemma OneMore(s: State, events: seq<Event>, e: Event)
    ensures Run(s, events + [e]) == After(Run(s, events), e)
  {
    assert (events + [e])[..|events|] == events;
  }

  lemma ThreeMore(s: State, events: seq<Event>, more: seq<Event>)
    requires |more| == 3
    ensures Run(s, events + more) == After(After(After(Run(s, events), more[0]), more[1]), more[2])
  {
    hide After, Run;
    OneMore(s, events, more[0]);
    OneMore(s, events + [more[0]], more[1]);
    OneMore(s, events + [more[0]] + [more[1]], more[2]);
    assert events + [more[0]] + [more[1]] + [more[2]] == events + more;
  }

  /** a connects, and its subscribe calls for the channel, which the backplane opens or refuses. */
  function AOpensK(answer: Option<Handle>): seq<Event> {
    [Registers("a"), Begins("k", 0), Lands(0, answer)]
  }

  lemma EmptyRun()
    ensures Run(EMPTY, []) == EMPTY
  {
  }

  lemma AfterAOpensK(answer: Option<Handle>, more: seq<Event>)
    requires |more| == 3
    ensures var begun := State(if answer.Some? then map["k" := Subscription(answer.value, {})] else map[],
                                map["k" := 0], map["a" := {}], map[0 := "k"], {},
                                if answer.Some? then map[answer.value := "k"] else map[]);
            Run(EMPTY, AOpensK(answer) + more) == After(After(After(begun, more[0]), more[1]), more[2])
  {
    hide Run;
    var none: seq<Event> := [];
    var begun := EMPTY.(joined := map["a" := {}], pending := map["k" := 0], attempts := map[0 := "k"], flying := {0});
    assert After(After(EMPTY, Registers("a")), Begins("k", 0)) == begun;
    assert begun.flying - {0} == {};
    assert Run(EMPTY, none) == EMPTY by {
      EmptyRun();
    }
    ThreeMore(EMPTY, none, AOpensK(answer));
    ThreeMore(EMPTY, AOpensK(answer), more);
    assert none + AOpensK(answer) == AOpensK(answer);
  }

  /** A disconnect inside its own subscribe leaves the dead socket in the set, and its handle open. */
  lemma DisconnectDuringSubscribeLeaks()
    ensures var s := Run(EMPTY, AOpensK(Some(7)) + [Disconnects("a", []), Adds("a", "k"), Records("a", "k")]);
            Listed(s, "a", "k") && !Joined(s, "a", "k") && 7 in s.open && "a" !in s.joined
  {
    hide Run;
    AfterAOpensK(Some(7), [Disconnects("a", []), Adds("a", "k"), Records("a", "k")]);
  }

  /** A backplane that refuses the subscription still lets the join be recorded: joined, and hearing nothing. */
  lemma RefusedSubscriptionIsStillRecorded()
    ensures var s := Run(EMPTY, AOpensK(None) + [Clears(0), Adds("a", "k"), Records("a", "k")]);
            Joined(s, "a", "k") && !Listed(s, "a", "k") && "k" !in s.subscriptions
  {
    hide Run;
    AfterAOpensK(None, [Clears(0), Adds("a", "k"), Records("a", "k")]);
  }

  /** An unsubscribe between the add and the record is forgotten: joined, and hearing nothing. */
  lemma LeaveBeforeTheRecordIsLost()
    ensures var s := Run(EMPTY, AOpensK(Some(7)) + [Adds("a", "k"), Leaves("a", "k"), Records("a", "k")]);
            Joined(s, "a", "k") && !Listed(s, "a", "k") && 7 !in s.open
  {
    hide Run;
    AfterAOpensK(Some(7), [Adds("a", "k"), Leaves("a", "k"), Records("a", "k")]);
  }

  /** a is in the channel and recorded, and the attempt is cleared. */
  const A_IN_K := State(map["k" := Subscription(7, {"a"})], map[], map["a" := {"k"}], map[], {}, map[7 := "k"])

  lemma AIsIn()
    ensures Run(EMPTY, AOpensK(Some(7)) + [Clears(0), Adds("a", "k"), Records("a", "k")]) == A_IN_K
  {
    hide Run;
    AfterAOpensK(Some(7), [Clears(0), Adds("a", "k"), Records("a", "k")]);
    var begun := State(map["k" := Subscription(7, {})], map["k" := 0], map["a" := {}], map[0 := "k"], {}, map[7 := "k"]);
    var cleared := After(begun, Clears(0));
    assert cleared == begun.(pending := map[], attempts := map[]);
    var added := After(cleared, Adds("a", "k"));
    assert {} + {"a"} == {"a"};
    assert added == cleared.(subscriptions := map["k" := Subscription(7, {"a"})]);
    assert {} + {"k"} == {"k"};
  }

  /**
   * Nobody has to do anything unusual: b finds the channel open and does not subscribe again, a leaves it as
   * the last one in, which releases the subscription, and only then b is added and recorded.
   */
  lemma LastLeaveBeforeTheAdd()
    ensures var s := Run(EMPTY, AOpensK(Some(7)) + [Clears(0), Adds("a", "k"), Records("a", "k")]
                                + [Registers("b"), Begins("k", 1), Leaves("a", "k")] + [Adds("b", "k")]
                                + [Records("b", "k")]);
            Joined(s, "b", "k") && !Listed(s, "b", "k") && "k" !in s.subscriptions
  {
    hide Run;
    var settled := AOpensK(Some(7)) + [Clears(0), Adds("a", "k"), Records("a", "k")];
    var last := [Registers("b"), Begins("k", 1), Leaves("a", "k")];
    AIsIn();
    ThreeMore(EMPTY, settled, last);
    OneMore(EMPTY, settled + last, Adds("b", "k"));
    OneMore(EMPTY, settled + last + [Adds("b", "k")], Records("b", "k"));
    var registered := After(A_IN_K, Registers("b"));
    assert After(registered, Begins("k", 1)) == registered;
    var left := After(registered, Leaves("a", "k"));
    assert "k" !in left.subscriptions && "b" in left.joined;
    assert After(left, Adds("b", "k")) == left;
  }

  /** A socket in a channel's set whose connection is gone. */
  ghost predicate Leaked(s: State, c: SocketId, k: ChannelKey) {
    Listed(s, c, k) && c !in s.joined
  }

  /** What a departed socket no longer does: connect again, or unsubscribe. */
  predicate Silent(e: Event, c: SocketId) {
    match e
    case Registers(d) => d != c
    case Leaves(d, _) => d != c
    case _ => true
  }

  lemma LeakedStep(s: State, e: Event, c: SocketId, k: ChannelKey)
    requires SingleFlight(s) && Leaked(s, c, k) && Silent(e, c)
    ensures Leaked(After(s, e), c, k)
    ensures After(s, e).subscriptions[k].handle == s.subscriptions[k].handle
  {
    hide OneAttemptPerKey, HandlesAreTheTable, Leave, LeaveAll;
    if Possible(s, e) {
      ListedMoves(s, e, c, k);
      match e
      case Leaves(d, m) => LeaveKeepsOthers(s, d, m, c, k);
      case Disconnects(d, channels) =>
        assert channels != [] ==> channels[0] in channels;
        LeaveAllKeepsOthers(s, d, channels, c, k);
      case Lands(attempt, _) =>
        if attempt in s.flying && attempt in s.attempts {
          assert s.attempts[attempt] !in s.subscriptions;
        }
      case _ =>
    }
  }

  lemma LeaveKeepsOthers(s: State, d: SocketId, m: ChannelKey, c: SocketId, k: ChannelKey)
    requires Listed(s, c, k) && d != c
    ensures Listed(Leave(s, d, m), c, k) && Leave(s, d, m).subscriptions[k].handle == s.subscriptions[k].handle
    ensures Leave(s, d, m).joined.Keys == s.joined.Keys
  {
    LeaveMoves(s, d, m);
  }

  lemma {:induction false} LeaveAllKeepsOthers(s: State, d: SocketId, keys: seq<ChannelKey>, c: SocketId, k: ChannelKey)
    requires Listed(s, c, k) && (d != c || keys == [])
    ensures Listed(LeaveAll(s, d, keys), c, k) && LeaveAll(s, d, keys).subscriptions[k].handle == s.subscriptions[k].handle
    ensures LeaveAll(s, d, keys).joined.Keys == s.joined.Keys
  {
    hide Leave;
    if keys != [] {
      LeaveAllKeepsOthers(s, d, keys[..|keys| - 1], c, k);
      LeaveKeepsOthers(LeaveAll(s, d, keys[..|keys| - 1]), d, keys[|keys| - 1], c, k);
    }
  }

  /**
   * A leak is for good: whatever everybody else does, the departed socket stays in the channel's set, so the
   * channel's backplane handle is never released.
   */
  lemma {:induction false} LeaksAreForGood(events: seq<Event>, more: seq<Event>, c: SocketId, k: ChannelKey)
    requires Leaked(Run(EMPTY, events), c, k) && forall i :: 0 <= i < |more| ==> Silent(more[i], c)
    ensures var s, t := Run(EMPTY, events), Run(Run(EMPTY, events), more);
            && Leaked(t, c, k) && t.subscriptions[k].handle == s.subscriptions[k].handle
            && t.subscriptions[k].handle in t.open
  {
    hide After, OneAttemptPerKey, FlightsLandFree;
    SubscriptionsAreSingleFlight(events);
    SingleFlightOnwards(Run(EMPTY, events), more);
    if more != [] {
      var n := |more| - 1;
      LeaksAreForGood(events, more[..n], c, k);
      SingleFlightOnwards(Run(EMPTY, events), more[..n]);
      LeakedStep(Run(Run(EMPTY, events), more[..n]), more[n], c, k);
    }
  }
}
