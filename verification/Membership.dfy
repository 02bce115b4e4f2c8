/**
 * Who is in a conversation: creating internal conversations, adding, removing and leaving, each one serial
 * transaction over the participation rows.
 *
 * Principals are ordered, as the store's tie-break by id needs. Titles, channel policies and message counts
 * appear only as far as a command is refused over them.
 */
module Membership {
  import opened Conversations
  import opened Options
  import Sorting

  type ConversationId = string
  type PrincipalId = nat

  datatype Role = CREATOR | ADMIN | PARTICIPANT | OTHER_ROLE

  /** One row per principal and conversation; an ended participation keeps its row. */
  datatype Row = Row(principalId: PrincipalId, kind: PrincipalKind, role: Role, since: int, live: bool)

  /** `foundedAs` is the type a conversation was created with, which nothing in the store keeps. */
  datatype Conversation = Conversation(kind: ConversationType, rows: seq<Row>, foundedAs: ConversationType)

  type Store = map<ConversationId, Conversation>

  predicate IsChannelAdminRole(role: Role) {
    role == CREATOR || role == ADMIN
  }

  // ---------------------------------------------------------------- the store's queries

  predicate Earlier(a: Row, b: Row) {
    a.since < b.since || (a.since == b.since && a.principalId < b.principalId)
  }

  function EarliestFirst(): (Row, Row) -> bool {
    (a: Row, b: Row) => Earlier(a, b)
  }

  function LiveRows(rows: seq<Row>): seq<Row> {
    if rows == [] then []
    else
      var before := LiveRows(rows[..|rows| - 1]);
      if rows[|rows| - 1].live then before + [rows[|rows| - 1]] else before
  }

  /** The live rows, longest-standing first. */
  function Listed(rows: seq<Row>): seq<Row> {
    Sorting.Sort(EarliestFirst(), LiveRows(rows))
  }

  function Find(rows: seq<Row>, id: PrincipalId): Option<Row> {
    if rows == [] then None
    else if rows[0].principalId == id then Some(rows[0])
    else Find(rows[1..], id)
  }

  /** The first row of anyone else. */
  function FirstOther(rows: seq<Row>, id: PrincipalId): Option<Row> {
    if rows == [] then None
    else if rows[0].principalId != id then Some(rows[0])
    else FirstOther(rows[1..], id)
  }

  predicate AdminRemains(rows: seq<Row>, id: PrincipalId) {
    exists r :: r in rows && r.principalId != id && IsChannelAdminRole(r.role)
  }

  predicate HasRow(rows: seq<Row>, id: PrincipalId) {
    exists k :: 0 <= k < |rows| && rows[k].principalId == id
  }

  /** Every row of one principal, changed by `f`: the shape of the store's updates. */
  function Updated(rows: seq<Row>, id: PrincipalId, f: Row -> Row): seq<Row> {
    seq(|rows|, i requires 0 <= i < |rows| => if rows[i].principalId == id then f(rows[i]) else rows[i])
  }

  function Revived(was: Row, r: Row): Row {
    if was.live then was else was.(live := true, since := r.since, role := r.role)
  }

  /** The upsert: a dead row is revived with the caller's values, a live one is left exactly as it was. */
  function Upserted(rows: seq<Row>, r: Row): seq<Row> {
    if HasRow(rows, r.principalId)
    then Updated(rows, r.principalId, (was: Row) => Revived(was, r))
    else rows + [r]
  }

  function Ended(rows: seq<Row>, id: PrincipalId): seq<Row> {
    Updated(rows, id, (r: Row) => r.(live := false))
  }

  function WithRole(rows: seq<Row>, id: PrincipalId, role: Role): seq<Row> {
    Updated(rows, id, (r: Row) => if r.live then r.(role := role) else r)
  }

  /** The one-to-one between exactly these two. */
  predicate IsDirectOf(c: Conversation, a: PrincipalId, b: PrincipalId) {
    var listed := Listed(c.rows);
    c.kind == INTERNAL_DIRECT && |listed| == 2 && Find(listed, a).Some? && Find(listed, b).Some?
  }

  /** What the lookup may answer: any such thread, or none only if there is none. */
  ghost predicate DirectLookup(s: Store, a: PrincipalId, b: PrincipalId, found: Option<ConversationId>) {
    match found
    case Some(id) => id in s && IsDirectOf(s[id], a, b)
    case None => forall id :: id in s ==> !IsDirectOf(s[id], a, b)
  }

  // ---------------------------------------------------------------- the commands

  datatype CreateCommand = CreateCommand(
    kind: ConversationType, createdBy: PrincipalId, participantIds: seq<PrincipalId>,
    kinds: map<PrincipalId, PrincipalKind>, titled: bool, hasPolicy: bool, at: int)

  datatype CreateFailure =
    | CUSTOMER_IN_INTERNAL_CONVERSATION | DIRECT_REQUIRES_EXACTLY_ONE_OTHER | GROUP_REQUIRES_A_PARTICIPANT
    | TITLE_REQUIRED_FOR_GROUP | CHANNEL_REQUIRES_A_POLICY

  datatype CreateResult = Created(id: ConversationId, existing: bool) | NotCreated(reason: CreateFailure)

  /** Everyone named but the creator, once each, in the order first named. */
  function Others(ids: seq<PrincipalId>, createdBy: PrincipalId): seq<PrincipalId> {
    if ids == [] then []
    else
      var before, id := Others(ids[..|ids| - 1], createdBy), ids[|ids| - 1];
      if id == createdBy || id in before then before else before + [id]
  }

  function CheckCreate(cmd: CreateCommand): Option<CreateFailure> {
    var others := Others(cmd.participantIds, cmd.createdBy);
    if cmd.kind == INTERNAL_DIRECT && |others| != 1 then Some(DIRECT_REQUIRES_EXACTLY_ONE_OTHER)
    else if cmd.kind == INTERNAL_CHANNEL && !cmd.titled then Some(TITLE_REQUIRED_FOR_GROUP)
    else if cmd.kind == INTERNAL_CHANNEL && !cmd.hasPolicy then Some(CHANNEL_REQUIRES_A_POLICY)
    else if cmd.kind !in {INTERNAL_DIRECT, INTERNAL_CHANNEL} && |others| == 0 then Some(GROUP_REQUIRES_A_PARTICIPANT)
    else if cmd.kind !in {INTERNAL_DIRECT, INTERNAL_CHANNEL} && !cmd.titled then Some(TITLE_REQUIRED_FOR_GROUP)
    else if exists id :: id in [cmd.createdBy] + others && id in cmd.kinds && cmd.kinds[id] == CUSTOMER
    then Some(CUSTOMER_IN_INTERNAL_CONVERSATION)
    else None
  }

  function FoundingRows(cmd: CreateCommand): seq<Row> {
    var ids := [cmd.createdBy] + Others(cmd.participantIds, cmd.createdBy);
    seq(|ids|, i requires 0 <= i < |ids| =>
      Row(ids[i], EMPLOYEE, if ids[i] == cmd.createdBy then CREATOR else PARTICIPANT, cmd.at, true))
  }

  function Create(s: Store, cmd: CreateCommand, found: Option<ConversationId>, newId: ConversationId): (Store, CreateResult) {
    if CheckCreate(cmd).Some? then (s, NotCreated(CheckCreate(cmd).value))
    else if cmd.kind == INTERNAL_DIRECT && found.Some? then (s, Created(found.value, true))
    else (s[newId := Conversation(cmd.kind, FoundingRows(cmd), cmd.kind)], Created(newId, false))
  }

  datatype AddCommand = AddCommand(
    id: ConversationId, principalId: PrincipalId, kind: PrincipalKind, addedBy: PrincipalId, acknowledged: bool, at: int)

  datatype AddResult =
    | Added | CONVERSATION_NOT_FOUND | CUSTOMER_INTO_INTERNAL | ADDER_NOT_PARTICIPANT | ALREADY_PARTICIPANT
    | HISTORY_EXPOSURE_NOT_ACKNOWLEDGED

  function Add(s: Store, cmd: AddCommand): (Store, AddResult) {
    if cmd.id !in s then (s, CONVERSATION_NOT_FOUND)
    else
      var c := s[cmd.id];
      var listed := Listed(c.rows);
      if IsInternal(c.kind) && cmd.kind == CUSTOMER then (s, CUSTOMER_INTO_INTERNAL)
      else if Find(listed, cmd.addedBy).None? then (s, ADDER_NOT_PARTICIPANT)
      else if Find(listed, cmd.principalId).Some? then (s, ALREADY_PARTICIPANT)
      else if !cmd.acknowledged then (s, HISTORY_EXPOSURE_NOT_ACKNOWLEDGED)
      else
        var rows := Upserted(c.rows, Row(cmd.principalId, cmd.kind, PARTICIPANT, cmd.at, true));
        var kind := if c.kind == INTERNAL_DIRECT && |listed| >= 2 then INTERNAL_GROUP else c.kind;
        (s[cmd.id := c.(rows := rows, kind := kind)], Added)
  }

  datatype RemoveResult =
    | Removed | REMOVER_NOT_PARTICIPANT | CANNOT_REMOVE_CUSTOMER | CANNOT_REMOVE_SELF | NOT_THE_GROUP_ADMIN | NOT_A_PARTICIPANT

  function RowsOf(s: Store, id: ConversationId): seq<Row> {
    if id in s then s[id].rows else []
  }

  function Remove(s: Store, id: ConversationId, principalId: PrincipalId, removedBy: PrincipalId): (Store, RemoveResult) {
    var listed := Listed(RowsOf(s, id));
    var remover, target := Find(listed, removedBy), Find(listed, principalId);
    if remover.None? || id !in s then (s, REMOVER_NOT_PARTICIPANT)
    else if target.Some? && target.value.kind == CUSTOMER then (s, CANNOT_REMOVE_CUSTOMER)
    else if principalId == removedBy then (s, CANNOT_REMOVE_SELF)
    else if s[id].kind == INTERNAL_GROUP && remover.value.role != CREATOR then (s, NOT_THE_GROUP_ADMIN)
    else if target.None? then (s, NOT_A_PARTICIPANT)
    else (s[id := s[id].(rows := Ended(s[id].rows, principalId))], Removed)
  }

  datatype LeaveResult = Left(passedTo: Option<PrincipalId>) | NOT_AN_INTERNAL_GROUP | NOT_IN_IT

  /** Who takes over when someone leaves: the longest-standing of the rest, if there is a role to pass on. */
  function Successor(c: Conversation, leaver: Row): Option<Row> {
    var listed := Listed(c.rows);
    var passes := if c.kind == INTERNAL_CHANNEL
                  then IsChannelAdminRole(leaver.role) && !AdminRemains(listed, leaver.principalId)
                  else leaver.role == CREATOR;
    if passes then FirstOther(listed, leaver.principalId) else None
  }

  function Leave(s: Store, id: ConversationId, principalId: PrincipalId): (Store, LeaveResult) {
    if id !in s || s[id].kind !in {INTERNAL_GROUP, INTERNAL_CHANNEL} then (s, NOT_AN_INTERNAL_GROUP)
    else
      var c := s[id];
      var leaver := Find(Listed(c.rows), principalId);
      if leaver.None? then (s, NOT_IN_IT)
      else
        var successor := Successor(c, leaver.value);
        var ended := Ended(c.rows, principalId);
        if successor.None? then (s[id := c.(rows := ended)], Left(None))
        else
          var role := if c.kind == INTERNAL_CHANNEL then ADMIN else CREATOR;
          (s[id := c.(rows := WithRole(ended, successor.value.principalId, role))], Left(Some(successor.value.principalId)))
  }

  // ---------------------------------------------------------------- the code

  class ConversationStore {
    var conversations: Store

    constructor ()
      ensures conversations == map[]
    {
      conversations := map[];
    }

    /** Creates an internal conversation, or lands in the one-to-one the lookup found. */
    method CreateInternalConversation(cmd: CreateCommand, found: Option<ConversationId>, newId: ConversationId)
      returns (r: CreateResult)
      requires cmd.kind != CUSTOMER_CONVERSATION && newId !in conversations
      modifies this
      ensures (conversations, r) == Create(old(conversations), cmd, found, newId)
    {
      var others := OtherIds(cmd.participantIds, cmd.createdBy);
      if cmd.kind == INTERNAL_DIRECT {
        if |others| != 1 {
          return NotCreated(DIRECT_REQUIRES_EXACTLY_ONE_OTHER);
        }
      } else if cmd.kind == INTERNAL_CHANNEL {
        if !cmd.titled {
          return NotCreated(TITLE_REQUIRED_FOR_GROUP);
        }
        if !cmd.hasPolicy {
          return NotCreated(CHANNEL_REQUIRES_A_POLICY);
        }
      } else {
        if |others| == 0 {
          return NotCreated(GROUP_REQUIRES_A_PARTICIPANT);
        }
        if !cmd.titled {
          return NotCreated(TITLE_REQUIRED_FOR_GROUP);
        }
      }
      var ids := [cmd.createdBy] + others;
      for i := 0 to |ids|
        invariant conversations == old(conversations)
        invariant forall k :: 0 <= k < i ==> !(ids[k] in cmd.kinds && cmd.kinds[ids[k]] == CUSTOMER)
      {
        if ids[i] in cmd.kinds && cmd.kinds[ids[i]] == CUSTOMER {
          return NotCreated(CUSTOMER_IN_INTERNAL_CONVERSATION);
        }
      }
      assert CheckCreate(cmd).None?;
      if cmd.kind == INTERNAL_DIRECT && found.Some? {
        return Created(found.value, true);
      }
      var rows: seq<Row> := [];
      for i := 0 to |ids|
        invariant conversations == old(conversations)
        invariant rows == FoundingRows(cmd)[..i]
      {
        rows := rows + [Row(ids[i], EMPLOYEE, if ids[i] == cmd.createdBy then CREATOR else PARTICIPANT, cmd.at, true)];
      }
      assert rows == FoundingRows(cmd);
      assert forall id :: id in ids ==> !(id in cmd.kinds && cmd.kinds[id] == CUSTOMER);
      conversations := conversations[newId := Conversation(cmd.kind, rows, cmd.kind)];
      return Created(newId, false);
    }

    method OtherIds(ids: seq<PrincipalId>, createdBy: PrincipalId) returns (others: seq<PrincipalId>)
      ensures others == Others(ids, createdBy)
    {
      others := [];
      for i := 0 to |ids|
        invariant others == Others(ids[..i], createdBy)
      {
        assert ids[..i + 1][..i] == ids[..i];
        if ids[i] !in others && ids[i] != createdBy {
          others := others + [ids[i]];
        }
      }
      assert ids[..|ids|] == ids;
    }

    method AddParticipant(cmd: AddCommand) returns (r: AddResult)
      modifies this
      ensures (conversations, r) == Add(old(conversations), cmd)
    {
      hide Listed, Find, Upserted;
      if cmd.id !in conversations {
        return CONVERSATION_NOT_FOUND;
      }
      var kind := conversations[cmd.id].kind;
      if IsInternal(kind) && cmd.kind == CUSTOMER {
        return CUSTOMER_INTO_INTERNAL;
      }
      var participants := Listed(conversations[cmd.id].rows);
      if Find(participants, cmd.addedBy).None? {
        return ADDER_NOT_PARTICIPANT;
      }
      if Find(participants, cmd.principalId).Some? {
        return ALREADY_PARTICIPANT;
      }
      if !cmd.acknowledged {
        return HISTORY_EXPOSURE_NOT_ACKNOWLEDGED;
      }
      SetRows(cmd.id, Upserted(conversations[cmd.id].rows, Row(cmd.principalId, cmd.kind, PARTICIPANT, cmd.at, true)));
      if kind == INTERNAL_DIRECT && |participants| >= 2 {
        conversations := conversations[cmd.id := conversations[cmd.id].(kind := INTERNAL_GROUP)];
      }
      assert conversations == old(conversations)[cmd.id := conversations[cmd.id]];
      return Added;
    }

    method SetRows(id: ConversationId, rows: seq<Row>)
      requires id in conversations
      modifies this
      ensures conversations == old(conversations)[id := old(conversations[id]).(rows := rows)]
    {
      conversations := conversations[id := conversations[id].(rows := rows)];
    }

    method RemoveParticipant(id: ConversationId, principalId: PrincipalId, removedBy: PrincipalId) returns (r: RemoveResult)
      modifies this
      ensures (conversations, r) == Remove(old(conversations), id, principalId, removedBy)
    {
      hide Ended;
      if id !in conversations {
        return REMOVER_NOT_PARTICIPANT;
      }
      var participants := Listed(conversations[id].rows);
      var remover := Find(participants, removedBy);
      if remover.None? {
        return REMOVER_NOT_PARTICIPANT;
      }
      var target := Find(participants, principalId);
      if target.Some? && target.value.kind == CUSTOMER {
        return CANNOT_REMOVE_CUSTOMER;
      }
      if principalId == removedBy {
        return CANNOT_REMOVE_SELF;
      }
      if conversations[id].kind == INTERNAL_GROUP && remover.value.role != CREATOR {
        return NOT_THE_GROUP_ADMIN;
      }
      if target.None? {
        return NOT_A_PARTICIPANT;
      }
      SetRows(id, Ended(conversations[id].rows, principalId));
      return Removed;
    }

    method LeaveConversation(id: ConversationId, principalId: PrincipalId) returns (r: LeaveResult)
      modifies this
      ensures (conversations, r) == Leave(old(conversations), id, principalId)
    {
      hide Listed, Find, FirstOther, Ended, WithRole;
      if id !in conversations {
        return NOT_AN_INTERNAL_GROUP;
      }
      var kind := conversations[id].kind;
      if kind != INTERNAL_GROUP && kind != INTERNAL_CHANNEL {
        return NOT_AN_INTERNAL_GROUP;
      }
      var participants := Listed(conversations[id].rows);
      var leaver := Find(participants, principalId);
      if leaver.None? {
        return NOT_IN_IT;
      }
      var passes := if kind == INTERNAL_CHANNEL
                    then IsChannelAdminRole(leaver.value.role) && !AdminRemains(participants, leaver.value.principalId)
                    else leaver.value.role == CREATOR;
      var successor := if passes then FirstOther(participants, leaver.value.principalId) else None;
      SetRows(id, Ended(conversations[id].rows, principalId));
      if successor.None? {
        return Left(None);
      }
      SetRows(id, WithRole(conversations[id].rows, successor.value.principalId,
                           if kind == INTERNAL_CHANNEL then ADMIN else CREATOR));
      assert conversations == old(conversations)[id := conversations[id]];
      return Left(Some(successor.value.principalId));
    }
  }
}
