/**
 * What a send is answered and what it writes, said of the command and the store alone.
 */
module SendLaws {
  import opened Conversations
  import opened Options
  import opened Messages
  import opened MessageLaws
  import Mentions

  // ---------------------------------------------------------------- text

  predicate AllSpace(s: string) {
    forall i :: 0 <= i < |s| ==> IsSpace(s[i])
  }

  lemma {:induction false} TrimStartIsExact(s: string) returns (n: nat)
    ensures n <= |s| && AllSpace(s[..n]) && TrimStart(s) == s[n..]
    ensures TrimStart(s) != [] ==> !IsSpace(TrimStart(s)[0])
  {
    if s != [] && IsSpace(s[0]) {
      n := TrimStartIsExact(s[1..]);
      assert s[1..][n..] == s[n + 1..];
      forall i | 0 <= i < n + 1
        ensures IsSpace(s[i])
      {
        assert i > 0 ==> s[1..][..n][i - 1] == s[i];
      }
      n := n + 1;
    } else {
      n := 0;
    }
  }

  lemma {:induction false} TrimEndIsExact(s: string) returns (n: nat)
    ensures n <= |s| && AllSpace(s[n..]) && TrimEnd(s) == s[..n]
    ensures TrimEnd(s) != [] ==> !IsSpace(TrimEnd(s)[|TrimEnd(s)| - 1])
  {
    if s != [] && IsSpace(s[|s| - 1]) {
      n := TrimEndIsExact(s[..|s| - 1]);
      assert s[..|s| - 1][..n] == s[..n];
      forall i | 0 <= i < |s| - n
        ensures IsSpace(s[n..][i])
      {
        assert i < |s| - 1 - n ==> s[..|s| - 1][n..][i] == s[n..][i];
      }
    } else {
      n := |s|;
    }
  }

  /** A text without the space around it: what was taken away is all space, and what is left has none at its ends. */
  lemma TrimIsExact(s: string) returns (from: nat, to: nat)
    ensures from <= to <= |s| && Trim(s) == s[from..to] && AllSpace(s[..from]) && AllSpace(s[to..])
    ensures Trim(s) != [] ==> !IsSpace(Trim(s)[0]) && !IsSpace(Trim(s)[|Trim(s)| - 1])
  {
    hide TrimStart, TrimEnd, IsSpace;
    from := TrimStartIsExact(s);
    var rest := TrimStart(s);
    var n := TrimEndIsExact(rest);
    to := from + n;
    assert s[from..][..n] == s[from..to];
    assert rest[n..] == s[to..];
  }

  // ---------------------------------------------------------------- permissions

  /** The one permission a message of this visibility needs in a conversation of this type. */
  predicate Needs(kind: ConversationType, visibility: Visibility, action: Action) {
    match kind
    case CUSTOMER_CONVERSATION => action == if visibility == CUSTOMER_VISIBLE then REPLY_CUSTOMER else NOTE_INTERNAL
    case INTERNAL_ANNOUNCEMENT => action == ANNOUNCEMENT_POST
    case INTERNAL_DIRECT => action == MESSAGE_SEND
    case INTERNAL_GROUP => action == MESSAGE_SEND
    case INTERNAL_CHANNEL => action == MESSAGE_SEND
  }

  /** Nothing is written without the permission it needs. */
  lemma NothingWithoutPermission(s: Store, cmd: Command, action: Action)
    requires Wrote(s, cmd) && cmd.conversationId in s.conversations
    requires Needs(s.conversations[cmd.conversationId].kind, Send(s, cmd).1.message.visibility, action)
    ensures cmd.may(action)
  {
    hide Precheck, FindByClientId, CheckReply, CheckMentions, Mentions.Recipients, Trim, Participants;
  }

  /** And nothing is refused as not authorized with it. */
  lemma NotAuthorizedIsThatPermission(s: Store, cmd: Command, action: Action)
    requires Send(s, cmd).1 == Refused(NOT_AUTHORIZED)
    requires cmd.conversationId in s.conversations ==> Needs(s.conversations[cmd.conversationId].kind, cmd.visibility, action)
    ensures cmd.conversationId in s.conversations && !cmd.may(action)
  {
    hide FindByClientId, FindMessage, CheckMentions, Mentions.Recipients, Trim, Participants;
    if cmd.conversationId in s.conversations {
      assert action == ActionFor(s.conversations[cmd.conversationId].kind, cmd.visibility);
    }
  }

  // ---------------------------------------------------------------- every answer

  /** What stands in the way of a send, each for its own reason. */
  ghost predicate Obstacle(s: Store, cmd: Command, reason: Failure) {
    match reason
    case EMPTY_BODY => Trim(cmd.body) == "" && !cmd.hasAttachment
    case BODY_TOO_LONG => |Trim(cmd.body)| > 10_000
    case CUSTOMER_CANNOT_SEND_INTERNAL => cmd.kind == CUSTOMER && cmd.visibility == INTERNAL
    case CONVERSATION_NOT_FOUND => cmd.conversationId !in s.conversations
    case NOT_AUTHORIZED =>
      cmd.conversationId in s.conversations
      && exists action :: Needs(s.conversations[cmd.conversationId].kind, cmd.visibility, action) && !cmd.may(action)
    case REPLY_TARGET_NOT_IN_CONVERSATION =>
      cmd.replyTo.Some?
      && forall i :: 0 <= i < |s.messages| ==> !MayAnswer(s.messages[i], cmd.conversationId, cmd.replyTo.value, cmd.visibility)
    case MENTION_REFUSED(_) =>
      cmd.conversationId in s.conversations
      && !Mentions.Proper(cmd.mentions, |Trim(cmd.body)|, LivePeople(s, cmd),
                          s.conversations[cmd.conversationId].kind == INTERNAL_GROUP)
  }

  /** A message that may be answered: in the conversation, and not a note unless the answer is one. */
  predicate MayAnswer(m: Message, c: ConversationId, id: MessageId, visibility: Visibility) {
    m.conversationId == c && m.id == id && (m.visibility == INTERNAL ==> visibility == INTERNAL)
  }

  ghost function LivePeople(s: Store, cmd: Command): set<PrincipalId>
    requires cmd.conversationId in s.conversations
  {
    set k | 0 <= k < |s.conversations[cmd.conversationId].participants|
            && s.conversations[cmd.conversationId].participants[k].live
          :: s.conversations[cmd.conversationId].participants[k].principalId
  }

  /** A message of the same sender in the same conversation was sent under the same client id. */
  ghost predicate SentBefore(s: Store, cmd: Command, i: nat) {
    && i < |s.messages| && cmd.clientId.Some? && s.messages[i].clientId == cmd.clientId
    && s.messages[i].conversationId == cmd.conversationId && s.messages[i].sender == cmd.actor
  }

  /** The order obstacles are met in; the first five come before the look for an earlier send. */
  function Rank(reason: Failure): nat {
    match reason
    case EMPTY_BODY => 0
    case BODY_TOO_LONG => 1
    case CUSTOMER_CANNOT_SEND_INTERNAL => 2
    case CONVERSATION_NOT_FOUND => 3
    case NOT_AUTHORIZED => 4
    case REPLY_TARGET_NOT_IN_CONVERSATION => 5
    case MENTION_REFUSED(_) => 6
  }

  ghost predicate NoneBefore(s: Store, cmd: Command, rank: nat) {
    forall reason :: Rank(reason) < rank ==> !Obstacle(s, cmd, reason)
  }

  lemma EarlyObstacles(s: Store, cmd: Command)
    ensures var checked := Check(s, cmd);
            if NoneBefore(s, cmd, 5) then checked.Refuse? ==> Rank(checked.reason) >= 5
            else checked.Refuse? && Rank(checked.reason) < 5 && Obstacle(s, cmd, checked.reason)
                 && NoneBefore(s, cmd, Rank(checked.reason))
  {
    hide FindByClientId, FindMessage, CheckMentions, Trim, Mentions.Proper;
    if cmd.conversationId in s.conversations {
      var kind := s.conversations[cmd.conversationId].kind;
      assert Needs(kind, cmd.visibility, ActionFor(kind, cmd.visibility));
      forall action | Needs(kind, cmd.visibility, action)
        ensures action == ActionFor(kind, cmd.visibility)
      {
      }
    }
    if !NoneBefore(s, cmd, 5) {
      var reason :| Rank(reason) < 5 && Obstacle(s, cmd, reason);
      FirstObstacle(s, cmd, reason);
    }
  }

  lemma FirstObstacle(s: Store, cmd: Command, reason: Failure)
    requires Rank(reason) < 5 && Obstacle(s, cmd, reason)
    ensures Check(s, cmd).Refuse? && Rank(Check(s, cmd).reason) <= Rank(reason)
  {
    hide FindByClientId, FindMessage, CheckMentions, Trim, Mentions.Proper;
  }

  lemma ReplyObstacle(events: seq<Event>, cmd: Command)
    ensures var s := Run(NO_MESSAGES, events).store;
            && (CheckReply(s, cmd).Some? <==> Obstacle(s, cmd, REPLY_TARGET_NOT_IN_CONVERSATION))
            && (CheckReply(s, cmd).Some? ==> CheckReply(s, cmd).value == REPLY_TARGET_NOT_IN_CONVERSATION)
  {
    hide Run, AllNumbered, KeysUnique, RepliesLookBack, OneEventEach, CustomersWriteNoNotes;
    var s := Run(NO_MESSAGES, events).store;
    EveryRunWritesSafely(events);
    if cmd.replyTo.Some? {
      FindMessageFinds(s.messages, cmd.conversationId, cmd.replyTo.value);
      var found := FindMessage(s.messages, cmd.conversationId, cmd.replyTo.value);
      if found.Some? {
        OnlyOneHasTheId(s.messages, s.nextId, found.value);
      }
    }
  }

  lemma LiveOnesAreLive(s: Store, cmd: Command)
    requires cmd.conversationId in s.conversations
    ensures (set p | p in Participants(s, cmd)) == LivePeople(s, cmd)
  {
    hide LiveIds;
    forall id ensures id in Participants(s, cmd) <==> id in LivePeople(s, cmd) {
      LiveIdsAreLive(s.conversations[cmd.conversationId].participants, id);
    }
  }

  lemma MentionObstacle(s: Store, cmd: Command, reason: Mentions.Failure)
    requires cmd.conversationId in s.conversations
    ensures CheckMentions(s, cmd).Rejected? <==> Obstacle(s, cmd, MENTION_REFUSED(reason))
  {
    hide Mentions.Proper, Mentions.Validate, Mentions.InOrder, Trim, Participants, LivePeople;
    LiveOnesAreLive(s, cmd);
    Mentions.ValidateIsExact(cmd.mentions, |Trim(cmd.body)|, LivePeople(s, cmd),
                             s.conversations[cmd.conversationId].kind == INTERNAL_GROUP);
  }

  lemma KeyIsFound(s: Store, cmd: Command)
    ensures (exists i :: SentBefore(s, cmd, i))
            <==> cmd.clientId.Some? && FindByClientId(s.messages, cmd.conversationId, cmd.actor, cmd.clientId.value).Some?
  {
    hide FindByClientId;
    if cmd.clientId.Some? {
      FindByClientIdFinds(s.messages, cmd.conversationId, cmd.actor, cmd.clientId.value);
      if FindByClientId(s.messages, cmd.conversationId, cmd.actor, cmd.clientId.value).Some? {
        var i: nat :| i < |s.messages|
          && s.messages[i] == FindByClientId(s.messages, cmd.conversationId, cmd.actor, cmd.clientId.value).value;
        assert SentBefore(s, cmd, i);
      }
    }
  }

  /**
   * Every answer has its reason, after any run. A send is refused for the first obstacle in its way, in the order
   * in which they are met; one that meets none of the first five is answered with the earlier send if there was
   * one; and it is written exactly if nothing at all stands in its way and there was none.
   */
  lemma EveryAnswerHasItsReason(events: seq<Event>, cmd: Command)
    ensures var s := Run(NO_MESSAGES, events).store;
            var r, before := Send(s, cmd).1, exists i :: SentBefore(s, cmd, i);
            && (r.Refused? ==> Obstacle(s, cmd, r.reason) && NoneBefore(s, cmd, Rank(r.reason))
                               && (Rank(r.reason) >= 5 ==> !before))
            && (r.Sent? && r.duplicate <==> NoneBefore(s, cmd, 5) && before)
            && (r.Sent? && !r.duplicate <==> NoneBefore(s, cmd, 7) && !before)
  {
    hide Run, ActionFor, FindByClientId, CheckReply, CheckMentions, Participants, Mentions.Recipients, Trim, Obstacle,
         NoneBefore, Rank;
    var s := Run(NO_MESSAGES, events).store;
    EarlyObstacles(s, cmd);
    ReplyObstacle(events, cmd);
    KeyIsFound(s, cmd);
    FoundLate(s, cmd);
    LaterObstacles(s, cmd);
    if NoneBefore(s, cmd, 5) {
      RankOfTheEarly(s, cmd);
      forall reason ensures CheckMentions(s, cmd).Rejected? <==> Obstacle(s, cmd, MENTION_REFUSED(reason)) {
        MentionObstacle(s, cmd, reason);
      }
    } else {
      NoneBeforeIsLess(s, cmd);
    }
  }

  lemma RankOfTheEarly(s: Store, cmd: Command)
    requires NoneBefore(s, cmd, 5)
    ensures Precheck(cmd).None? && cmd.conversationId in s.conversations
    ensures cmd.may(ActionFor(s.conversations[cmd.conversationId].kind, cmd.visibility))
    ensures Rank(REPLY_TARGET_NOT_IN_CONVERSATION) == 5 && forall reason :: Rank(MENTION_REFUSED(reason)) == 6
  {
    hide Trim;
    FoundLate(s, cmd);
    assert !Obstacle(s, cmd, EMPTY_BODY) && !Obstacle(s, cmd, BODY_TOO_LONG);
    assert !Obstacle(s, cmd, CUSTOMER_CANNOT_SEND_INTERNAL) && !Obstacle(s, cmd, NOT_AUTHORIZED);
    assert Needs(s.conversations[cmd.conversationId].kind, cmd.visibility,
                 ActionFor(s.conversations[cmd.conversationId].kind, cmd.visibility));
  }

  lemma NoneBeforeIsLess(s: Store, cmd: Command)
    ensures NoneBefore(s, cmd, 7) ==> NoneBefore(s, cmd, 5)
  {
    hide Obstacle;
  }

  lemma FoundLate(s: Store, cmd: Command)
    ensures NoneBefore(s, cmd, 5) ==> cmd.conversationId in s.conversations
  {
    assert Rank(CONVERSATION_NOT_FOUND) < 5;
  }

  lemma LaterObstacles(s: Store, cmd: Command)
    ensures NoneBefore(s, cmd, 6) <==> NoneBefore(s, cmd, 5) && !Obstacle(s, cmd, REPLY_TARGET_NOT_IN_CONVERSATION)
    ensures NoneBefore(s, cmd, 7) <==> NoneBefore(s, cmd, 6) && forall reason :: !Obstacle(s, cmd, MENTION_REFUSED(reason))
  {
    hide Obstacle;
    assert Rank(REPLY_TARGET_NOT_IN_CONVERSATION) == 5;
    assert forall reason :: Rank(MENTION_REFUSED(reason)) == 6;
  }

  // ---------------------------------------------------------------- what is written

  /** The start of a text that fits into a hundred and forty characters. */
  predicate ShownOf(preview: string, body: string) {
    preview <= body && |preview| <= 140 && (|preview| < 140 ==> preview == body)
  }

  /** A send that writes adds one message, which is what the command says, and touches no other conversation. */
  lemma TheMessageIsTheCommand(s: Store, cmd: Command)
    requires Wrote(s, cmd) && cmd.conversationId in s.conversations
    ensures var (t, r) := Send(s, cmd);
            var m := r.message;
            && t.messages == s.messages + [m] && t.revisions == s.revisions && t.nextId == s.nextId + 1
            && m.id == s.nextId && m.conversationId == cmd.conversationId
            && m.seqNo == s.conversations[cmd.conversationId].lastSeq + 1
            && m.visibility == cmd.visibility && m.sender == cmd.actor && m.senderKind == cmd.kind
            && m.displayName == cmd.displayName && m.body == Trim(cmd.body) && m.replyTo == cmd.replyTo
            && m.clientId == cmd.clientId && multiset(m.mentions) == multiset(cmd.mentions) && !m.edited && !m.redacted
            && t.conversations.Keys == s.conversations.Keys
            && forall c :: c in s.conversations && c != cmd.conversationId ==> t.conversations[c] == s.conversations[c]
  {
    hide Precheck, ActionFor, FindByClientId, CheckReply, Participants, Mentions.Recipients, Trim, Mentions.Validate,
         Mentions.Proper, Mentions.InOrder, Events, Touched, Activated, Unarchived;
    Mentions.ValidateIsExact(cmd.mentions, |Trim(cmd.body)|, (set p | p in Participants(s, cmd)),
                             s.conversations[cmd.conversationId].kind == INTERNAL_GROUP);
  }

  /** Its own conversation counts the message, and shows it or, for a note to a customer's, nothing. */
  lemma TheConversationCountsIt(s: Store, cmd: Command)
    requires Wrote(s, cmd) && cmd.conversationId in s.conversations
    ensures var (t, r) := Send(s, cmd);
            var was, now := s.conversations[cmd.conversationId], t.conversations[cmd.conversationId];
            && now.kind == was.kind && now.lastSeq == was.lastSeq + 1 && now.currentOwner == was.currentOwner
            && if was.kind == CUSTOMER_CONVERSATION && cmd.visibility == INTERNAL then now.preview == ""
               else ShownOf(now.preview, Trim(cmd.body))
  {
    hide Check, Participants, Mentions.Recipients, Trim, Events, Activated, Unarchived;
  }

  /** The answer names the live participants, and the author answered if it is somebody else. */
  lemma TheAnswerNamesPeople(events: seq<Event>, cmd: Command, id: PrincipalId)
    requires Wrote(Run(NO_MESSAGES, events).store, cmd)
    requires cmd.conversationId in Run(NO_MESSAGES, events).store.conversations
    ensures var s := Run(NO_MESSAGES, events).store;
            var r := Send(s, cmd).1;
            && (id in r.participants <==> id in LivePeople(s, cmd))
            && (r.repliedToAuthor == Some(id) <==>
                  cmd.replyTo.Some? && id != cmd.actor
                  && exists i :: 0 <= i < |s.messages| && s.messages[i].id == cmd.replyTo.value
                                 && s.messages[i].conversationId == cmd.conversationId && s.messages[i].sender == id)
  {
    hide Run, Check, Mentions.Recipients, Trim, Events, FindMessage,
         AllNumbered, KeysUnique, RepliesLookBack, OneEventEach, CustomersWriteNoNotes;
    var s := Run(NO_MESSAGES, events).store;
    EveryRunWritesSafely(events);
    LiveOnesAreLive(s, cmd);
    assert id in LivePeople(s, cmd) <==> id in (set p | p in Participants(s, cmd));
    if cmd.replyTo.Some? {
      FindMessageFinds(s.messages, cmd.conversationId, cmd.replyTo.value);
      var found := FindMessage(s.messages, cmd.conversationId, cmd.replyTo.value);
      if found.Some? {
        OnlyOneHasTheId(s.messages, s.nextId, found.value);
      }
    }
  }
}
