/**
 * What each membership command is answered and what it changes, said of the rows alone.
 */
module MembershipAnswers {
  import opened Conversations
  import opened Options
  import opened Membership
  import opened MembershipLaws

  // ---------------------------------------------------------------- the rows

  /** A live row of the principal. */
  predicate LiveAt(c: Conversation, k: int, p: PrincipalId) {
    0 <= k < |c.rows| && c.rows[k].principalId == p && c.rows[k].live
  }

  ghost predicate LiveIn(c: Conversation, p: PrincipalId) {
    exists k :: LiveAt(c, k, p)
  }

  predicate TwoAreLive(c: Conversation) {
    exists i, j :: 0 <= i < j < |c.rows| && c.rows[i].live && c.rows[j].live
  }

  /** No other conversation is touched. */
  ghost predicate OnlyIn(s: Store, t: Store, id: ConversationId) {
    t.Keys == s.Keys && forall x :: x in s && x != id ==> t[x] == s[x]
  }

  /** Nobody else's row is touched, and no row comes or goes. */
  ghost predicate OnlyRowOf(before: seq<Row>, after: seq<Row>, p: PrincipalId) {
    |after| == |before| && forall k :: 0 <= k < |before| && before[k].principalId != p ==> after[k] == before[k]
  }

  lemma FoundIsLive(c: Conversation, p: PrincipalId)
    ensures Find(Listed(c.rows), p).Some? <==> LiveIn(c, p)
    ensures Find(Listed(c.rows), p).Some? ==> exists k :: LiveAt(c, k, p) && c.rows[k] == Find(Listed(c.rows), p).value
  {
    hide Find, Listed;
    PresentMeans(c, p);
    if k :| 0 <= k < |c.rows| && c.rows[k].principalId == p && c.rows[k].live {
      assert LiveAt(c, k, p);
    }
    if Present(c, p) {
      var k :| 0 <= k < |c.rows| && c.rows[k] == Find(Listed(c.rows), p).value && c.rows[k].principalId == p && c.rows[k].live;
      assert LiveAt(c, k, p);
    }
  }

  lemma {:induction false} TwoOrMore(rows: seq<Row>)
    ensures Count(rows, IsLive()) >= 2 <==> exists i, j :: 0 <= i < j < |rows| && rows[i].live && rows[j].live
  {
    if i, j :| 0 <= i < j < |rows| && rows[i].live && rows[j].live {
      CountTwo(rows, IsLive(), i, j);
    }
    if Count(rows, IsLive()) >= 2 {
      var n := |rows| - 1;
      if rows[n].live {
        SomeoneCounts(rows[..n], IsLive());
        var i :| 0 <= i < n && IsLive()(rows[..n][i]);
        assert rows[i].live;
      } else {
        TwoOrMore(rows[..n]);
        var i, j :| 0 <= i < j < n && rows[..n][i].live && rows[..n][j].live;
        assert rows[i].live && rows[j].live;
      }
    }
  }

  lemma {:induction false} OneRowEach(events: seq<Event>, id: ConversationId)
    requires id in Run(events)
    ensures Keyed(Run(events)[id].rows)
  {
    hide Run;
    EveryRunIsSafe(events);
    assert ConversationSafe(Run(events)[id]);
  }

  // ---------------------------------------------------------------- adding

  /** Every answer to an add is for the first of its reasons that applies. */
  lemma EveryAddHasItsReason(s: Store, cmd: AddCommand)
    ensures var (t, r) := Add(s, cmd);
            && (r != Added ==> t == s)
            && if cmd.id !in s then r == AddResult.CONVERSATION_NOT_FOUND
               else if s[cmd.id].kind != CUSTOMER_CONVERSATION && cmd.kind == CUSTOMER then r == CUSTOMER_INTO_INTERNAL
               else if !LiveIn(s[cmd.id], cmd.addedBy) then r == ADDER_NOT_PARTICIPANT
               else if LiveIn(s[cmd.id], cmd.principalId) then r == ALREADY_PARTICIPANT
               else if !cmd.acknowledged then r == HISTORY_EXPOSURE_NOT_ACKNOWLEDGED
               else r == Added
  {
    hide Listed, Find, Upserted, LiveIn;
    if cmd.id in s {
      FoundIsLive(s[cmd.id], cmd.addedBy);
      FoundIsLive(s[cmd.id], cmd.principalId);
    }
  }

  /**
   * An add gives the principal a live row from now on, the old one if there is one; everybody else's stays; and a
   * one-to-one of two becomes a group.
   */
  lemma WhatAnAddDoes(s: Store, cmd: AddCommand)
    requires Add(s, cmd).1 == Added
    ensures cmd.id in s && OnlyIn(s, Add(s, cmd).0, cmd.id)
    ensures var c, d := s[cmd.id], Add(s, cmd).0[cmd.id];
            && LiveIn(d, cmd.principalId)
            && d.kind == (if c.kind == INTERNAL_DIRECT && TwoAreLive(c) then INTERNAL_GROUP else c.kind)
            && d.foundedAs == c.foundedAs
            && if exists k :: 0 <= k < |c.rows| && c.rows[k].principalId == cmd.principalId
               then OnlyRowOf(c.rows, d.rows, cmd.principalId)
                    && forall k :: 0 <= k < |c.rows| && c.rows[k].principalId == cmd.principalId ==>
                         d.rows[k] == c.rows[k].(live := true, since := cmd.at, role := PARTICIPANT)
               else d.rows == c.rows + [Row(cmd.principalId, cmd.kind, PARTICIPANT, cmd.at, true)]
  {
    hide Listed, Find;
    var c, d := s[cmd.id], Add(s, cmd).0[cmd.id];
    ListedIsLive(c.rows);
    TwoOrMore(c.rows);
    FoundIsLive(c, cmd.principalId);
    forall k | 0 <= k < |c.rows| && c.rows[k].principalId == cmd.principalId
      ensures !c.rows[k].live
    {
      assert c.rows[k].live ==> LiveAt(c, k, cmd.principalId);
    }
    if k :| 0 <= k < |c.rows| && c.rows[k].principalId == cmd.principalId {
      assert LiveAt(d, k, cmd.principalId);
    } else {
      assert LiveAt(d, |c.rows|, cmd.principalId);
    }
  }

  // ---------------------------------------------------------------- removing

  /** Every answer to a removal is for the first of its reasons that applies. */
  lemma EveryRemovalHasItsReason(events: seq<Event>, id: ConversationId, principalId: PrincipalId, removedBy: PrincipalId)
    ensures var s := Run(events);
            var (t, r) := Remove(s, id, principalId, removedBy);
            && (r != RemoveResult.Removed ==> t == s)
            && if id !in s || !LiveIn(s[id], removedBy) then r == REMOVER_NOT_PARTICIPANT
               else if exists k :: LiveAt(s[id], k, principalId) && s[id].rows[k].kind == CUSTOMER
                 then r == CANNOT_REMOVE_CUSTOMER
               else if principalId == removedBy then r == CANNOT_REMOVE_SELF
               else if s[id].kind == INTERNAL_GROUP && !exists k :: LiveAt(s[id], k, removedBy) && s[id].rows[k].role == CREATOR
               then r == NOT_THE_GROUP_ADMIN
               else if !LiveIn(s[id], principalId) then r == NOT_A_PARTICIPANT
               else r == RemoveResult.Removed
  {
    hide Listed, Find, Run;
    var s := Run(events);
    if id in s {
      OneRowEach(events, id);
      FoundIsLive(s[id], removedBy);
      FoundIsLive(s[id], principalId);
    } else {
      NobodyListed(removedBy);
    }
  }

  lemma NobodyListed(p: PrincipalId)
    ensures Find(Listed([]), p).None?
  {
    ListedIsLive([]);
    FindFinds(Listed([]), p);
  }

  /** A removal ends the target's live participation, and nothing else. */
  lemma WhatARemovalDoes(s: Store, id: ConversationId, principalId: PrincipalId, removedBy: PrincipalId)
    requires Remove(s, id, principalId, removedBy).1 == RemoveResult.Removed
    ensures var t := Remove(s, id, principalId, removedBy).0;
            && id in s && OnlyIn(s, t, id)
            && LiveIn(s[id], principalId) && !LiveIn(t[id], principalId)
            && t[id] == s[id].(rows := t[id].rows) && OnlyRowOf(s[id].rows, t[id].rows, principalId)
            && forall k :: 0 <= k < |s[id].rows| && s[id].rows[k].principalId == principalId ==>
                 t[id].rows[k] == s[id].rows[k].(live := false)
  {
    hide Listed, Find;
    FoundIsLive(s[id], principalId);
  }

  // ---------------------------------------------------------------- leaving

  /** Who may manage: the creator, and in a channel its administrators too. */
  predicate Manages(kind: ConversationType, role: Role) {
    role == CREATOR || (kind == INTERNAL_CHANNEL && role == ADMIN)
  }

  /** Somebody else live would still manage the channel. */
  predicate ManagedWithout(c: Conversation, p: PrincipalId) {
    exists k :: 0 <= k < |c.rows| && c.rows[k].live && c.rows[k].principalId != p && Manages(c.kind, c.rows[k].role)
  }

  predicate SomebodyElse(c: Conversation, p: PrincipalId) {
    exists k :: 0 <= k < |c.rows| && c.rows[k].live && c.rows[k].principalId != p
  }

  lemma AdminsAreListed(c: Conversation, p: PrincipalId)
    requires c.kind == INTERNAL_CHANNEL
    ensures AdminRemains(Listed(c.rows), p) <==> ManagedWithout(c, p)
  {
    hide Listed;
    ListedIsLive(c.rows);
    if AdminRemains(Listed(c.rows), p) {
      var r :| r in Listed(c.rows) && r.principalId != p && IsChannelAdminRole(r.role);
      var k :| 0 <= k < |c.rows| && c.rows[k] == r;
    }
    if ManagedWithout(c, p) {
      var k :| 0 <= k < |c.rows| && c.rows[k].live && c.rows[k].principalId != p && Manages(c.kind, c.rows[k].role);
      assert c.rows[k] in Listed(c.rows);
    }
  }

  lemma FirstOtherIsSomebody(c: Conversation, p: PrincipalId)
    ensures FirstOther(Listed(c.rows), p).Some? <==> SomebodyElse(c, p)
    ensures FirstOther(Listed(c.rows), p).Some? ==>
              exists k :: 0 <= k < |c.rows| && c.rows[k].live && c.rows[k].principalId != p
                          && c.rows[k] == FirstOther(Listed(c.rows), p).value
  {
    hide Listed, Earlier;
    ListedIsLive(c.rows);
    FirstOtherIsEarliest(Listed(c.rows), p);
    if SomebodyElse(c, p) {
      var k :| 0 <= k < |c.rows| && c.rows[k].live && c.rows[k].principalId != p;
      assert c.rows[k] in Listed(c.rows);
    }
    if FirstOther(Listed(c.rows), p).Some? {
      var k :| 0 <= k < |c.rows| && c.rows[k] == FirstOther(Listed(c.rows), p).value;
    }
  }

  /**
   * Every answer to a leave: only groups and channels are left, and only by those in them. The role passes on
   * exactly if somebody stays and the leaver created the group, or managed the channel with nobody else to.
   */
  lemma EveryLeaveHasItsReason(events: seq<Event>, id: ConversationId, p: PrincipalId)
    ensures var s := Run(events);
            var (t, r) := Leave(s, id, p);
            && (!r.Left? ==> t == s)
            && (r == NOT_AN_INTERNAL_GROUP <==> id !in s || s[id].kind !in {INTERNAL_GROUP, INTERNAL_CHANNEL})
            && (r == NOT_IN_IT <==> id in s && s[id].kind in {INTERNAL_GROUP, INTERNAL_CHANNEL} && !LiveIn(s[id], p))
            && (r.Left? ==>
                  (r.passedTo.Some? <==>
                     && SomebodyElse(s[id], p)
                     && (exists k :: LiveAt(s[id], k, p) && Manages(s[id].kind, s[id].rows[k].role))
                     && (s[id].kind == INTERNAL_CHANNEL ==> !ManagedWithout(s[id], p))))
  {
    hide Listed, Find, Run, FirstOther, AdminRemains;
    var s := Run(events);
    if id in s {
      OneRowEach(events, id);
      FoundIsLive(s[id], p);
      FirstOtherIsSomebody(s[id], p);
      if s[id].kind == INTERNAL_CHANNEL {
        AdminsAreListed(s[id], p);
      }
      FoundHasTheId(s[id], p);
    }
  }

  lemma FoundHasTheId(c: Conversation, p: PrincipalId)
    ensures Find(Listed(c.rows), p).Some? ==> Find(Listed(c.rows), p).value.principalId == p
  {
    FindFinds(Listed(c.rows), p);
  }

  /** A leave ends the leaver's participation and gives whoever takes over the role; nothing else changes. */
  lemma WhatALeaveDoes(s: Store, id: ConversationId, p: PrincipalId)
    requires Leave(s, id, p).1.Left? && id in s && Keyed(s[id].rows)
    ensures var (t, r) := Leave(s, id, p);
            && OnlyIn(s, t, id) && t[id] == s[id].(rows := t[id].rows) && |t[id].rows| == |s[id].rows|
            && !LiveIn(t[id], p)
            && forall k :: 0 <= k < |s[id].rows| ==>
                 var was, now := s[id].rows[k], t[id].rows[k];
                 if was.principalId == p then now == was.(live := false)
                 else if r.passedTo == Some(was.principalId)
                 then now == was.(role := if s[id].kind == INTERNAL_CHANNEL then ADMIN else CREATOR) && was.live
                 else now == was
  {
    hide Listed, Find, FirstOther, AdminRemains;
    var c := s[id];
    FoundHasTheId(c, p);
    FirstOtherIsSomebody(c, p);
  }

  // ---------------------------------------------------------------- creating

  /** Named besides the creator. */
  predicate NamesOther(cmd: CreateCommand, p: PrincipalId) {
    p in cmd.participantIds && p != cmd.createdBy
  }

  lemma {:induction false} OthersAreTheNamed(ids: seq<PrincipalId>, createdBy: PrincipalId)
    ensures forall p :: p in Others(ids, createdBy) <==> p in ids && p != createdBy
    ensures forall i, j :: 0 <= i < j < |Others(ids, createdBy)| ==> Others(ids, createdBy)[i] != Others(ids, createdBy)[j]
  {
    if ids != [] {
      OthersAreTheNamed(ids[..|ids| - 1], createdBy);
      assert ids == ids[..|ids| - 1] + [ids[|ids| - 1]];
    }
  }

  /** Everybody the command names but the creator. */
  function NamedBy(cmd: CreateCommand): set<PrincipalId> {
    set p | p in cmd.participantIds && p != cmd.createdBy
  }

  predicate NamesACustomer(cmd: CreateCommand) {
    CalledCustomer(cmd, cmd.createdBy) || exists p :: p in cmd.participantIds && CalledCustomer(cmd, p)
  }

  function SetOf(ids: seq<PrincipalId>): set<PrincipalId> {
    set p | p in ids
  }

  lemma {:induction false} DistinctSize(ids: seq<PrincipalId>)
    requires forall i, j :: 0 <= i < j < |ids| ==> ids[i] != ids[j]
    ensures |SetOf(ids)| == |ids|
  {
    if ids != [] {
      var n := |ids| - 1;
      DistinctSize(ids[..n]);
      assert ids == ids[..n] + [ids[n]] && ids[n] !in SetOf(ids[..n]);
      assert SetOf(ids) == SetOf(ids[..n]) + {ids[n]};
    }
  }

  lemma OthersCount(cmd: CreateCommand)
    ensures |Others(cmd.participantIds, cmd.createdBy)| == |NamedBy(cmd)|
  {
    hide Others;
    var others := Others(cmd.participantIds, cmd.createdBy);
    OthersAreTheNamed(cmd.participantIds, cmd.createdBy);
    DistinctSize(others);
    assert SetOf(others) == NamedBy(cmd);
  }

  lemma CustomersAreNamed(cmd: CreateCommand)
    ensures NamesACustomer(cmd)
            <==> exists id :: id in [cmd.createdBy] + Others(cmd.participantIds, cmd.createdBy)
                              && id in cmd.kinds && cmd.kinds[id] == CUSTOMER
  {
    hide Others;
    var ids := [cmd.createdBy] + Others(cmd.participantIds, cmd.createdBy);
    OthersAreTheNamed(cmd.participantIds, cmd.createdBy);
    forall id ensures id in ids <==> id == cmd.createdBy || id in cmd.participantIds {
    }
    if CalledCustomer(cmd, cmd.createdBy) {
      assert cmd.createdBy in ids;
    }
    if p :| p in cmd.participantIds && CalledCustomer(cmd, p) {
      assert p in ids;
    }
  }

  /** Every refusal of a create, in order: the type's own demands, then a customer among those it names. */
  lemma EveryCreateHasItsReason(cmd: CreateCommand)
    ensures CheckCreate(cmd)
            == if cmd.kind == INTERNAL_DIRECT && |NamedBy(cmd)| != 1 then Some(DIRECT_REQUIRES_EXACTLY_ONE_OTHER)
               else if cmd.kind == INTERNAL_CHANNEL && !cmd.titled then Some(TITLE_REQUIRED_FOR_GROUP)
               else if cmd.kind == INTERNAL_CHANNEL && !cmd.hasPolicy then Some(CHANNEL_REQUIRES_A_POLICY)
               else if cmd.kind !in {INTERNAL_DIRECT, INTERNAL_CHANNEL} && NamedBy(cmd) == {}
               then Some(GROUP_REQUIRES_A_PARTICIPANT)
               else if cmd.kind !in {INTERNAL_DIRECT, INTERNAL_CHANNEL} && !cmd.titled then Some(TITLE_REQUIRED_FOR_GROUP)
               else if NamesACustomer(cmd) then Some(CUSTOMER_IN_INTERNAL_CONVERSATION)
               else None
  {
    hide Others, NamedBy, NamesACustomer;
    OthersCount(cmd);
    CustomersAreNamed(cmd);
  }

  /** A create that goes through and finds nothing to land in founds the conversation, with a live row for each. */
  lemma WhatACreateDoes(s: Store, cmd: CreateCommand, found: Option<ConversationId>, newId: ConversationId, p: PrincipalId)
    requires CheckCreate(cmd).None?
    ensures var (t, r) := Create(s, cmd, found, newId);
            if cmd.kind == INTERNAL_DIRECT && found.Some? then t == s && r == Created(found.value, true)
            else
              && r == Created(newId, false) && newId in t && t == s[newId := t[newId]]
              && t[newId].kind == cmd.kind && t[newId].foundedAs == cmd.kind && Keyed(t[newId].rows)
              && (LiveIn(t[newId], p) <==> p == cmd.createdBy || NamesOther(cmd, p))
              && forall k :: 0 <= k < |t[newId].rows| ==>
                   var row := t[newId].rows[k];
                   row == Row(row.principalId, EMPLOYEE, if row.principalId == cmd.createdBy then CREATOR else PARTICIPANT,
                              cmd.at, true)
  {
    hide Others, CheckCreate;
    var others, rows := Others(cmd.participantIds, cmd.createdBy), FoundingRows(cmd);
    OthersAreTheNamed(cmd.participantIds, cmd.createdBy);
    var c := Conversation(cmd.kind, rows, cmd.kind);
    forall i, j | 0 <= i < j < |rows|
      ensures rows[i].principalId != rows[j].principalId
    {
      assert rows[j].principalId == others[j - 1] && others[j - 1] in others;
      assert i > 0 ==> rows[i].principalId == others[i - 1];
    }
    if p == cmd.createdBy {
      assert LiveAt(c, 0, p);
    } else if p in others {
      var k :| 0 <= k < |others| && others[k] == p;
      assert LiveAt(c, k + 1, p);
    }
  }
}
