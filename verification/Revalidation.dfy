/**
 * Join authorization and the periodic revalidation sweep of the realtime connection manager.
 *
 * The sweep memoises its reads for one pass. Readers and clock are fixed for that pass, which is when the
 * claim "the identical check without the identical round trips" is made.
 */
module Revalidation {
  import opened Options

  datatype PrincipalKind = CUSTOMER | EMPLOYEE

  datatype Identity = Identity(
    connectionId: string, principalId: string, kind: PrincipalKind, sessionVersion: int, assurance: Option<int>)

  datatype Channel =
    | CONVERSATION(conversationId: string)
    | PRINCIPAL(ownerId: string)
    | TEAM(teamId: string)
    | CONTROL

  datatype JoinRefusal = NOT_AUTHORIZED | SESSION_REVOKED | CHANNEL_FORBIDDEN_FOR_KIND

  datatype JoinOutcome = Admitted | Refused(reason: JoinRefusal)

  /** The dependencies as they stand during one pass, and the two decisions as arbitrary predicates. */
  datatype Readers<!A, !R, !T> = Readers(
    sessionVersionFor: string -> Option<int>,
    actorFor: string -> Option<A>,
    loadForAuthorization: (string, string) -> Option<R>,
    teamFor: string -> Option<T>,
    mayRead: (A, Option<int>, R, PrincipalKind) -> bool,
    mayReadQueue: (A, T) -> bool)

  function Decide(allowed: bool): JoinOutcome {
    if allowed then Admitted else Refused(NOT_AUTHORIZED)
  }

  function ConversationOutcome<A, R, T>(readers: Readers<A, R, T>, identity: Identity, conversationId: string): JoinOutcome {
    var resource := readers.loadForAuthorization(conversationId, identity.principalId);
    if resource.None? then Refused(NOT_AUTHORIZED)
    else
      var actor := readers.actorFor(identity.principalId);
      if actor.None? then Refused(NOT_AUTHORIZED)
      else Decide(readers.mayRead(actor.value, identity.assurance, resource.value, identity.kind))
  }

  function TeamOutcome<A, R, T>(readers: Readers<A, R, T>, identity: Identity, teamId: string): JoinOutcome {
    if identity.kind != EMPLOYEE then Refused(NOT_AUTHORIZED)
    else
      var team := readers.teamFor(teamId);
      if team.None? then Refused(NOT_AUTHORIZED)
      else
        var actor := readers.actorFor(identity.principalId);
        if actor.None? then Refused(NOT_AUTHORIZED)
        else Decide(readers.mayReadQueue(actor.value, team.value))
  }

  /** The session is the one the principal has now. */
  function SessionIsLive<A, R, T>(readers: Readers<A, R, T>, identity: Identity): bool {
    readers.sessionVersionFor(identity.principalId) == Some(identity.sessionVersion)
  }

  /** The decision on a join, every read taken fresh. */
  function JoinDecision<A, R, T>(readers: Readers<A, R, T>, identity: Option<Identity>, channel: Channel): JoinOutcome {
    if identity.None? || !SessionIsLive(readers, identity.value) then Refused(SESSION_REVOKED)
    else if identity.value.kind == CUSTOMER && !channel.CONVERSATION? then Refused(CHANNEL_FORBIDDEN_FOR_KIND)
    else
      match channel
      case PRINCIPAL(owner) => Decide(owner == identity.value.principalId)
      case CONVERSATION(conversation) => ConversationOutcome(readers, identity.value, conversation)
      case TEAM(team) => TeamOutcome(readers, identity.value, team)
      case CONTROL => Refused(CHANNEL_FORBIDDEN_FOR_KIND)
  }

  // ---------------------------------------------------------------- who may join what

  /** The principal's session is current. */
  predicate IsCurrent<A, R, T>(readers: Readers<A, R, T>, identity: Identity) {
    var version := readers.sessionVersionFor(identity.principalId);
    version.Some? && version.value == identity.sessionVersion
  }

  /** A conversation is for whom it may be read by; a team's queue for employees who may read it; a principal's own
      channel for that employee alone; the control channel for nobody. */
  predicate MayHear<A, R, T>(readers: Readers<A, R, T>, identity: Identity, channel: Channel) {
    var actor := readers.actorFor(identity.principalId);
    match channel
    case CONVERSATION(conversation) =>
      var resource := readers.loadForAuthorization(conversation, identity.principalId);
      actor.Some? && resource.Some? && readers.mayRead(actor.value, identity.assurance, resource.value, identity.kind)
    case TEAM(team) =>
      identity.kind == EMPLOYEE && actor.Some? && readers.teamFor(team).Some?
      && readers.mayReadQueue(actor.value, readers.teamFor(team).value)
    case PRINCIPAL(owner) => identity.kind == EMPLOYEE && owner == identity.principalId
    case CONTROL => false
  }

  /**
   * A join is admitted exactly for a connection with a current session that may hear the channel. Without a current
   * session it is refused for that, a channel no connection of its kind may join for that, and the rest as not
   * authorized.
   */
  lemma JoinsAreEarned<A, R, T>(readers: Readers<A, R, T>, identity: Option<Identity>, channel: Channel)
    ensures var outcome, current := JoinDecision(readers, identity, channel),
                                    identity.Some? && IsCurrent(readers, identity.value);
            && (outcome == Admitted <==> current && MayHear(readers, identity.value, channel))
            && (outcome == Refused(SESSION_REVOKED) <==> !current)
            && (outcome == Refused(CHANNEL_FORBIDDEN_FOR_KIND)
                <==> current && (channel.CONTROL? || (identity.value.kind == CUSTOMER && !channel.CONVERSATION?)))
  {
  }

  // ---------------------------------------------------------------- the per-pass cache

  /** The two ids of a resource joined by a NUL, as the cache keys it. */
  function ResourceKey(conversationId: string, principalId: string): string {
    conversationId + ['\0'] + principalId
  }

  /** Identifiers carry no NUL. */
  predicate IsId(s: string) {
    '\0' !in s
  }

  /** Two people, or two conversations, never share a cache entry. */
  lemma ResourceKeysAreDistinct(c: string, p: string, d: string, q: string)
    requires IsId(c) && IsId(d)
    requires ResourceKey(c, p) == ResourceKey(d, q)
    ensures c == d && p == q
  {
    var k, l := ResourceKey(c, p), ResourceKey(d, q);
    assert k[|c|] == '\0' && l[|d|] == '\0';
    assert forall i :: 0 <= i < |c| ==> k[i] == c[i] && c[i] in c;
    assert forall i :: 0 <= i < |d| ==> l[i] == d[i] && d[i] in d;
    assert |c| == |d|;
    assert c == k[..|c|] && d == l[..|d|];
    assert p == k[|c| + 1..] && q == l[|d| + 1..];
  }

  /** Reads memoised for exactly one sweep; an absent answer is remembered too. */
  class PassCache<A, R> {
    var sessionVersions: map<string, Option<int>>
    var actors: map<string, Option<A>>
    var resources: map<string, Option<R>>

    constructor ()
      ensures sessionVersions == map[] && actors == map[] && resources == map[]
    {
      sessionVersions, actors, resources := map[], map[], map[];
    }

    /** Everything remembered is what a fresh read would answer. */
    ghost predicate Faithful<T>(readers: Readers<A, R, T>)
      reads this
    {
      && (forall p :: p in sessionVersions ==> sessionVersions[p] == readers.sessionVersionFor(p))
      && (forall p :: p in actors ==> actors[p] == readers.actorFor(p))
      && (forall c, p :: IsId(c) && ResourceKey(c, p) in resources ==>
            resources[ResourceKey(c, p)] == readers.loadForAuthorization(c, p))
    }

    method SessionVersion<T>(readers: Readers<A, R, T>, p: string) returns (r: Option<int>)
      requires Faithful(readers)
      modifies this
      ensures Faithful(readers) && r == readers.sessionVersionFor(p)
    {
      if p !in sessionVersions {
        sessionVersions := sessionVersions[p := readers.sessionVersionFor(p)];
      }
      return sessionVersions[p];
    }

    method Actor<T>(readers: Readers<A, R, T>, p: string) returns (r: Option<A>)
      requires Faithful(readers)
      modifies this
      ensures Faithful(readers) && r == readers.actorFor(p)
    {
      if p !in actors {
        actors := actors[p := readers.actorFor(p)];
      }
      return actors[p];
    }

    method Resource<T>(readers: Readers<A, R, T>, c: string, p: string) returns (r: Option<R>)
      requires Faithful(readers) && IsId(c)
      modifies this
      ensures Faithful(readers) && r == readers.loadForAuthorization(c, p)
    {
      var key := ResourceKey(c, p);
      if key !in resources {
        forall d, q | IsId(d) && ResourceKey(d, q) == key
          ensures d == c && q == p
        {
          ResourceKeysAreDistinct(c, p, d, q);
        }
        resources := resources[key := readers.loadForAuthorization(c, p)];
      }
      return resources[key];
    }
  }

  // ---------------------------------------------------------------- the sweep

  datatype Revocation = Revocation(connectionId: string, channelKey: string)

  /** A connection and the channels it has joined, in the order the tables hold them. */
  datatype Connection = Connection(identity: Identity, joined: seq<(string, Channel)>)

  /** The connections a sweep with no cache would close. */
  function Doomed<A, R, T>(readers: Readers<A, R, T>, connections: seq<Connection>): seq<string> {
    if connections == [] then []
    else
      var last := connections[|connections| - 1];
      Doomed(readers, connections[..|connections| - 1])
      + (if SessionIsLive(readers, last.identity) then [] else [last.identity.connectionId])
  }

  /** The channels of one connection a fresh decision refuses. */
  function RefusedChannels<A, R, T>(readers: Readers<A, R, T>, identity: Identity,
      joined: seq<(string, Channel)>): seq<Revocation> {
    if joined == [] then []
    else
      var last := joined[|joined| - 1];
      RefusedChannels(readers, identity, joined[..|joined| - 1])
      + (if JoinDecision(readers, Some(identity), last.1).Refused? then [Revocation(identity.connectionId, last.0)] else [])
  }

  /** The channels a sweep with no cache would leave. */
  function Revoked<A, R, T>(readers: Readers<A, R, T>, connections: seq<Connection>): seq<Revocation> {
    if connections == [] then []
    else
      var last := connections[|connections| - 1];
      Revoked(readers, connections[..|connections| - 1])
      + (if SessionIsLive(readers, last.identity) then RefusedChannels(readers, last.identity, last.joined) else [])
  }

  predicate IdsAreClean(connections: seq<Connection>) {
    forall c :: c in connections ==> forall j :: j in c.joined ==> j.1.CONVERSATION? ==> IsId(j.1.conversationId)
  }

  class ConnectionManager<A, R, T> {
    const readers: Readers<A, R, T>
    var connections: seq<Connection>

    constructor (readers: Readers<A, R, T>)
      ensures this.readers == readers && connections == []
    {
      this.readers := readers;
      connections := [];
    }

    /** A live join passes no cache and reads everything fresh; the sweep passes its own. */
    method AuthorizeJoin(identity: Option<Identity>, channel: Channel, pass: PassCache?<A, R>) returns (outcome: JoinOutcome)
      requires pass != null ==> pass.Faithful(readers) && (channel.CONVERSATION? ==> IsId(channel.conversationId))
      modifies pass
      ensures pass != null ==> pass.Faithful(readers)
      ensures outcome == JoinDecision(readers, identity, channel)
      ensures outcome == Admitted
              <==> identity.Some? && IsCurrent(readers, identity.value) && MayHear(readers, identity.value, channel)
    {
      JoinsAreEarned(readers, identity, channel);
      if identity.None? {
        return Refused(SESSION_REVOKED);
      }
      var id := identity.value;
      var live: Option<int>;
      if pass == null { live := readers.sessionVersionFor(id.principalId); }
      else { live := pass.SessionVersion(readers, id.principalId); }
      if live.None? || live.value != id.sessionVersion {
        return Refused(SESSION_REVOKED);
      }
      if id.kind == CUSTOMER && !channel.CONVERSATION? {
        return Refused(CHANNEL_FORBIDDEN_FOR_KIND);
      }
      match channel
      case PRINCIPAL(owner) =>
        if owner != id.principalId {
          return Refused(NOT_AUTHORIZED);
        }
        return Admitted;
      case CONVERSATION(conversation) =>
        outcome := AuthorizeConversation(id, conversation, pass);
      case TEAM(team) =>
        if id.kind != EMPLOYEE {
          return Refused(NOT_AUTHORIZED);
        }
        var found := readers.teamFor(team);
        if found.None? {
          return Refused(NOT_AUTHORIZED);
        }
        var actor := readers.actorFor(id.principalId);
        if actor.None? {
          return Refused(NOT_AUTHORIZED);
        }
        if !readers.mayReadQueue(actor.value, found.value) {
          return Refused(NOT_AUTHORIZED);
        }
        return Admitted;
      case CONTROL =>
        return Refused(CHANNEL_FORBIDDEN_FOR_KIND);
    }

    method AuthorizeConversation(id: Identity, conversation: string, pass: PassCache?<A, R>) returns (outcome: JoinOutcome)
      requires pass != null ==> pass.Faithful(readers) && IsId(conversation)
      modifies pass
      ensures pass != null ==> pass.Faithful(readers)
      ensures outcome == ConversationOutcome(readers, id, conversation)
    {
      var resource: Option<R>;
      if pass == null { resource := readers.loadForAuthorization(conversation, id.principalId); }
      else { resource := pass.Resource(readers, conversation, id.principalId); }
      if resource.None? {
        return Refused(NOT_AUTHORIZED);
      }
      var resolved: Option<A>;
      if pass == null { resolved := readers.actorFor(id.principalId); }
      else { resolved := pass.Actor(readers, id.principalId); }
      if resolved.None? {
        return Refused(NOT_AUTHORIZED);
      }
      return Decide(readers.mayRead(resolved.value, id.assurance, resource.value, id.kind));
    }

    /** Re-authorizes every joined channel of every connection, reading each fact at most once. */
    method RevalidateAll() returns (doomed: seq<string>, revoked: seq<Revocation>)
      requires IdsAreClean(connections)
      ensures doomed == Doomed(readers, connections)
      ensures revoked == Revoked(readers, connections)
    {
      doomed, revoked := [], [];
      var pass := new PassCache<A, R>();
      for i := 0 to |connections|
        invariant pass.Faithful(readers)
        invariant doomed == Doomed(readers, connections[..i]) && revoked == Revoked(readers, connections[..i])
        modifies pass
      {
        assert connections[..i + 1][..i] == connections[..i];
        var id := connections[i].identity;
        var live := pass.SessionVersion(readers, id.principalId);
        if live.None? || live.value != id.sessionVersion {
          doomed := doomed + [id.connectionId];
          continue;
        }
        assert connections[i] in connections;
        var refused := RevalidateConnection(id, connections[i].joined, pass);
        revoked := revoked + refused;
      }
      assert connections[..|connections|] == connections;
    }

    /** The inner loop of the sweep: one live connection's channels. */
    method RevalidateConnection(id: Identity, joined: seq<(string, Channel)>, pass: PassCache<A, R>)
      returns (revoked: seq<Revocation>)
      requires pass.Faithful(readers)
      requires forall j :: j in joined ==> j.1.CONVERSATION? ==> IsId(j.1.conversationId)
      modifies pass
      ensures pass.Faithful(readers)
      ensures revoked == RefusedChannels(readers, id, joined)
    {
      revoked := [];
      for j := 0 to |joined|
        invariant pass.Faithful(readers)
        invariant revoked == RefusedChannels(readers, id, joined[..j])
      {
        assert joined[..j + 1][..j] == joined[..j];
        assert joined[j] in joined;
        var decision := AuthorizeJoin(Some(id), joined[j].1, pass);
        if decision.Refused? {
          revoked := revoked + [Revocation(id.connectionId, joined[j].0)];
        }
      }
      assert joined[..|joined|] == joined;
    }
  }

  // ---------------------------------------------------------------- what a sweep finds

  lemma {:induction false} DoomedAreTheStale<A, R, T>(readers: Readers<A, R, T>, connections: seq<Connection>, id: string)
    ensures id in Doomed(readers, connections)
            <==> exists c :: c in connections && c.identity.connectionId == id && !IsCurrent(readers, c.identity)
  {
    if connections != [] {
      var n := |connections| - 1;
      DoomedAreTheStale(readers, connections[..n], id);
      assert connections == connections[..n] + [connections[n]];
    }
  }

  lemma {:induction false} RefusedAreTheLapsed<A, R, T>(
      readers: Readers<A, R, T>, identity: Identity, joined: seq<(string, Channel)>, r: Revocation)
    ensures r in RefusedChannels(readers, identity, joined)
            <==> r.connectionId == identity.connectionId
                 && exists j :: j in joined && j.0 == r.channelKey
                                && !(IsCurrent(readers, identity) && MayHear(readers, identity, j.1))
  {
    hide JoinDecision, IsCurrent, MayHear;
    if joined != [] {
      var n := |joined| - 1;
      JoinsAreEarned(readers, Some(identity), joined[n].1);
      RefusedAreTheLapsed(readers, identity, joined[..n], r);
      assert joined == joined[..n] + [joined[n]];
    }
  }

  /** Revoked is exactly the joined channels, of connections that stay, that a fresh join would be refused. */
  lemma {:induction false} RevokedAreTheLapsed<A, R, T>(readers: Readers<A, R, T>, connections: seq<Connection>, r: Revocation)
    ensures r in Revoked(readers, connections) <==> exists c, j :: (
              && c in connections && IsCurrent(readers, c.identity) && j in c.joined
              && r == Revocation(c.identity.connectionId, j.0) && !MayHear(readers, c.identity, j.1))
  {
    hide MayHear, RefusedChannels;
    if connections != [] {
      var n := |connections| - 1;
      RevokedAreTheLapsed(readers, connections[..n], r);
      RefusedAreTheLapsed(readers, connections[n].identity, connections[n].joined, r);
      assert connections == connections[..n] + [connections[n]];
    }
  }
}
