/**
 * The message write path: one send is one transaction over one locked conversation, which allocates a
 * sequence number, inserts the message, and appends its events, or refuses and writes nothing.
 *
 * The store holds every conversation. `decide()` is an arbitrary predicate of the action asked about, carried
 * by the command; message ids are drawn from a counter, standing for generated ids that never repeat.
 */
module Messages {
  import opened Conversations
  import opened Options
  import Mentions

  type ConversationId = string
  type PrincipalId = string
  type MessageId = nat

  datatype Visibility = INTERNAL | CUSTOMER_VISIBLE

  datatype Lifecycle = NEW | QUEUED | ASSIGNED | ACTIVE | WAITING_CUSTOMER | WAITING_INTERNAL | RESOLVED | CLOSED

  datatype Action = MESSAGE_SEND | ANNOUNCEMENT_POST | NOTE_INTERNAL | REPLY_CUSTOMER

  datatype Participant = Participant(principalId: PrincipalId, live: bool, archived: bool)

  datatype Conversation = Conversation(
    kind: ConversationType, state: Option<Lifecycle>, currentOwner: Option<PrincipalId>,
    participants: seq<Participant>, lastSeq: nat, preview: string)

  datatype Message = Message(
    id: MessageId, conversationId: ConversationId, seqNo: nat, visibility: Visibility,
    sender: PrincipalId, senderKind: PrincipalKind, displayName: string, body: string,
    replyTo: Option<MessageId>, clientId: Option<string>, mentions: seq<Mentions.Mention>, edited: bool, redacted: bool)

  datatype OutboxRow =
    | MessageCreated(messageId: MessageId, conversationId: ConversationId, seqNo: nat,
                     senderKind: PrincipalKind, visibility: Visibility)
    | MessageMentioned(messageId: MessageId, conversationId: ConversationId, seqNo: nat,
                       principalIds: seq<PrincipalId>, all: bool)
    | MessageRevised(messageId: MessageId, conversationId: ConversationId, redaction: bool)

  datatype Revision = Revision(messageId: MessageId, redaction: bool, previousBody: string, actor: PrincipalId)

  datatype Store = Store(
    conversations: map<ConversationId, Conversation>, messages: seq<Message>, outbox: seq<OutboxRow>,
    revisions: seq<Revision>, nextId: MessageId)

  const EMPTY := Store(map[], [], [], [], 0)

  datatype Command = Command(
    conversationId: ConversationId, actor: PrincipalId, kind: PrincipalKind, displayName: string, body: string,
    visibility: Visibility, replyTo: Option<MessageId>, clientId: Option<string>, mentions: seq<Mentions.Mention>,
    hasAttachment: bool, may: Action -> bool)

  datatype Failure =
    | CONVERSATION_NOT_FOUND | NOT_AUTHORIZED | EMPTY_BODY | BODY_TOO_LONG | REPLY_TARGET_NOT_IN_CONVERSATION
    | CUSTOMER_CANNOT_SEND_INTERNAL | MENTION_REFUSED(reason: Mentions.Failure)

  datatype Result =
    | Refused(reason: Failure)
    | Sent(message: Message, duplicate: bool, participants: seq<PrincipalId>, mentioned: seq<PrincipalId>,
           repliedToAuthor: Option<PrincipalId>)

  const MAX_BODY := 10_000
  const PREVIEW_LENGTH := 140

  // ---------------------------------------------------------------- text

  predicate IsSpace(c: char) {
    c in {' ', '\t', '\n', '\r', '\U{0B}', '\U{0C}', '\U{A0}', '\U{FEFF}', '\U{2028}', '\U{2029}'}
  }

  function TrimStart(s: string): string {
    if s != [] && IsSpace(s[0]) then TrimStart(s[1..]) else s
  }

  function TrimEnd(s: string): string {
    if s != [] && IsSpace(s[|s| - 1]) then TrimEnd(s[..|s| - 1]) else s
  }

  function Trim(s: string): string {
    TrimEnd(TrimStart(s))
  }

  function PreviewOf(body: string): string {
    if |body| > PREVIEW_LENGTH then body[..PREVIEW_LENGTH] else body
  }

  // ---------------------------------------------------------------- lookups, all within one conversation

  function FindByClientId(messages: seq<Message>, c: ConversationId, sender: PrincipalId, clientId: string): Option<Message> {
    if messages == [] then None
    else
      var m := messages[|messages| - 1];
      if m.conversationId == c && m.sender == sender && m.clientId == Some(clientId) then Some(m)
      else FindByClientId(messages[..|messages| - 1], c, sender, clientId)
  }

  function FindMessage(messages: seq<Message>, c: ConversationId, id: MessageId): Option<Message> {
    if messages == [] then None
    else
      var m := messages[|messages| - 1];
      if m.conversationId == c && m.id == id then Some(m) else FindMessage(messages[..|messages| - 1], c, id)
  }

  function LiveIds(participants: seq<Participant>): seq<PrincipalId> {
    if participants == [] then []
    else
      var p := participants[|participants| - 1];
      var before := LiveIds(participants[..|participants| - 1]);
      if p.live then before + [p.principalId] else before
  }

  /** A conversation that receives a message leaves the archive of everyone in it but the sender. */
  function Unarchived(participants: seq<Participant>, sender: PrincipalId): seq<Participant> {
    seq(|participants|, i requires 0 <= i < |participants| =>
      var p := participants[i];
      if p.principalId != sender && p.live then p.(archived := false) else p)
  }

  // ---------------------------------------------------------------- one send

  function ActionFor(kind: ConversationType, visibility: Visibility): Action {
    if kind == INTERNAL_ANNOUNCEMENT then ANNOUNCEMENT_POST
    else if IsInternal(kind) then MESSAGE_SEND
    else if visibility == INTERNAL then NOTE_INTERNAL
    else REPLY_CUSTOMER
  }

  /** What can be refused before the transaction opens. */
  function Precheck(cmd: Command): Option<Failure> {
    var body := Trim(cmd.body);
    if |body| == 0 && !cmd.hasAttachment then Some(EMPTY_BODY)
    else if |body| > MAX_BODY then Some(BODY_TOO_LONG)
    else if cmd.kind == CUSTOMER && cmd.visibility == INTERNAL then Some(CUSTOMER_CANNOT_SEND_INTERNAL)
    else None
  }

  function CheckReply(s: Store, cmd: Command): Option<Failure> {
    if cmd.replyTo.None? then None
    else
      match FindMessage(s.messages, cmd.conversationId, cmd.replyTo.value)
      case None => Some(REPLY_TARGET_NOT_IN_CONVERSATION)
      case Some(target) =>
        if target.visibility == INTERNAL && cmd.visibility == CUSTOMER_VISIBLE then Some(REPLY_TARGET_NOT_IN_CONVERSATION)
        else None
  }

  function Participants(s: Store, cmd: Command): seq<PrincipalId>
    requires cmd.conversationId in s.conversations
  {
    LiveIds(s.conversations[cmd.conversationId].participants)
  }

  function CheckMentions(s: Store, cmd: Command): Mentions.Validated
    requires cmd.conversationId in s.conversations
  {
    Mentions.Validate(cmd.mentions, |Trim(cmd.body)|, (set p | p in Participants(s, cmd)),
                      s.conversations[cmd.conversationId].kind == INTERNAL_GROUP)
  }

  /** Everything the transaction decides before it writes: a refusal, an earlier send of the same, or neither. */
  datatype Checked = Refuse(reason: Failure) | Earlier(message: Message) | Proceed(mentions: seq<Mentions.Mention>)

  function Check(s: Store, cmd: Command): Checked {
    if Precheck(cmd).Some? then Refuse(Precheck(cmd).value)
    else if cmd.conversationId !in s.conversations then Refuse(CONVERSATION_NOT_FOUND)
    else if !cmd.may(ActionFor(s.conversations[cmd.conversationId].kind, cmd.visibility)) then Refuse(NOT_AUTHORIZED)
    else
      var earlier := if cmd.clientId.None? then None
                     else FindByClientId(s.messages, cmd.conversationId, cmd.actor, cmd.clientId.value);
      if earlier.Some? then Earlier(earlier.value)
      else if CheckReply(s, cmd).Some? then Refuse(CheckReply(s, cmd).value)
      else
        match CheckMentions(s, cmd)
        case Rejected(reason) => Refuse(MENTION_REFUSED(reason))
        case Accepted(mentions) => Proceed(mentions)
  }

  /** The message a send inserts. */
  function Written(s: Store, cmd: Command, mentions: seq<Mentions.Mention>): Message
    requires cmd.conversationId in s.conversations
  {
    Message(s.nextId, cmd.conversationId, s.conversations[cmd.conversationId].lastSeq + 1, cmd.visibility,
            cmd.actor, cmd.kind, cmd.displayName, Trim(cmd.body), cmd.replyTo, cmd.clientId, mentions, false, false)
  }

  function CreatedRow(m: Message): OutboxRow {
    MessageCreated(m.id, m.conversationId, m.seqNo, m.senderKind, m.visibility)
  }

  predicate MentionsAll(mentions: seq<Mentions.Mention>) {
    exists m :: m in mentions && m.ALL?
  }

  function Events(m: Message, notify: seq<PrincipalId>): seq<OutboxRow> {
    [CreatedRow(m)]
    + if |notify| > 0 then [MessageMentioned(m.id, m.conversationId, m.seqNo, notify, MentionsAll(m.mentions))] else []
  }

  /** The owner's own customer-visible reply is what makes an assigned conversation active. */
  function Activated(c: Conversation, cmd: Command): Option<Lifecycle> {
    if cmd.visibility == CUSTOMER_VISIBLE && c.currentOwner == Some(cmd.actor) && c.state == Some(ASSIGNED)
    then Some(ACTIVE) else c.state
  }

  /** A note in a customer conversation leaves a neutral marker instead of its text. */
  function Touched(c: Conversation, m: Message): string {
    if m.visibility != INTERNAL || IsInternal(c.kind) then PreviewOf(m.body) else ""
  }

  function Write(s: Store, cmd: Command, mentions: seq<Mentions.Mention>): Store
    requires cmd.conversationId in s.conversations
  {
    var c, m := s.conversations[cmd.conversationId], Written(s, cmd, mentions);
    var notify := Mentions.Recipients(mentions, Participants(s, cmd), cmd.actor);
    Store(
      s.conversations[cmd.conversationId := c.(
        state := Activated(c, cmd), participants := Unarchived(c.participants, cmd.actor),
        lastSeq := c.lastSeq + 1, preview := Touched(c, m))],
      s.messages + [m], s.outbox + Events(m, notify), s.revisions, s.nextId + 1)
  }

  function RepliedToAuthor(s: Store, cmd: Command): Option<PrincipalId> {
    if cmd.replyTo.None? then None
    else
      match FindMessage(s.messages, cmd.conversationId, cmd.replyTo.value)
      case None => None
      case Some(target) => if target.sender == cmd.actor then None else Some(target.sender)
  }

  function Send(s: Store, cmd: Command): (Store, Result) {
    match Check(s, cmd)
    case Refuse(reason) => (s, Refused(reason))
    case Earlier(message) => (s, Sent(message, true, [], [], None))
    case Proceed(mentions) =>
      if cmd.conversationId !in s.conversations then (s, Refused(CONVERSATION_NOT_FOUND))
      else
        (Write(s, cmd, mentions),
         Sent(Written(s, cmd, mentions), false, Participants(s, cmd),
              Mentions.Recipients(mentions, Participants(s, cmd), cmd.actor), RepliedToAuthor(s, cmd)))
  }

  // ---------------------------------------------------------------- the code

  class MessageStore {
    var conversations: map<ConversationId, Conversation>
    var messages: seq<Message>
    var outbox: seq<OutboxRow>
    var revisions: seq<Revision>
    var nextId: MessageId

    function View(): Store
      reads this
    {
      Store(conversations, messages, outbox, revisions, nextId)
    }

    constructor ()
      ensures View() == EMPTY
    {
      conversations, messages, outbox, revisions, nextId := map[], [], [], [], 0;
    }

    method NextSequence(id: ConversationId) returns (n: nat)
      requires id in conversations
      modifies this`conversations
      ensures n == old(conversations[id]).lastSeq + 1
      ensures conversations == old(conversations)[id := old(conversations[id]).(lastSeq := n)]
    {
      n := conversations[id].lastSeq + 1;
      conversations := conversations[id := conversations[id].(lastSeq := n)];
    }

    method UnarchiveForOthers(id: ConversationId, sender: PrincipalId)
      requires id in conversations
      modifies this`conversations
      ensures conversations == old(conversations)[id := old(conversations[id]).(
                participants := Unarchived(old(conversations[id]).participants, sender))]
    {
      var participants := Unarchived(conversations[id].participants, sender);
      conversations := conversations[id := conversations[id].(participants := participants)];
    }

    method TouchConversation(id: ConversationId, preview: string)
      requires id in conversations
      modifies this`conversations
      ensures conversations == old(conversations)[id := old(conversations[id]).(preview := preview)]
    {
      conversations := conversations[id := conversations[id].(preview := preview)];
    }

    method ActivateOnOwnerReply(id: ConversationId)
      requires id in conversations
      modifies this`conversations
      ensures conversations == if old(conversations[id]).state == Some(ASSIGNED)
                               then old(conversations)[id := old(conversations[id]).(state := Some(ACTIVE))]
                               else old(conversations)
    {
      if conversations[id].state == Some(ASSIGNED) {
        conversations := conversations[id := conversations[id].(state := Some(ACTIVE))];
      }
    }

    method SendMessage(cmd: Command) returns (r: Result)
      modifies this
      ensures (View(), r) == Send(old(View()), cmd)
    {
      hide Trim, FindByClientId, FindMessage, CheckMentions, CheckReply, Write, Written;
      var body := Trim(cmd.body);
      if |body| == 0 && !cmd.hasAttachment {
        return Refused(EMPTY_BODY);
      }
      if |body| > MAX_BODY {
        return Refused(BODY_TOO_LONG);
      }
      if cmd.kind == CUSTOMER && cmd.visibility == INTERNAL {
        return Refused(CUSTOMER_CANNOT_SEND_INTERNAL);
      }
      r := SendInTransaction(cmd, body);
    }

    method SendInTransaction(cmd: Command, body: string) returns (r: Result)
      requires body == Trim(cmd.body) && Precheck(cmd).None?
      modifies this
      ensures (View(), r) == Send(old(View()), cmd)
    {
      hide Trim, LiveIds, FindByClientId, FindMessage, Mentions.Validate, Mentions.Recipients, IsInternal, Unarchived,
           PreviewOf, Precheck, Write, Written, Mentions.Proper, Mentions.InOrder;
      if cmd.conversationId !in conversations {
        return Refused(CONVERSATION_NOT_FOUND);
      }
      var conversation := conversations[cmd.conversationId];
      var action := if conversation.kind == INTERNAL_ANNOUNCEMENT then ANNOUNCEMENT_POST
                    else if IsInternal(conversation.kind) then MESSAGE_SEND
                    else if cmd.visibility == INTERNAL then NOTE_INTERNAL else REPLY_CUSTOMER;
      if !cmd.may(action) {
        return Refused(NOT_AUTHORIZED);
      }
      if cmd.clientId.Some? {
        var existing := FindByClientId(messages, cmd.conversationId, cmd.actor, cmd.clientId.value);
        if existing.Some? {
          return Sent(existing.value, true, [], [], None);
        }
      }
      var repliedToAuthor: Option<PrincipalId> := None;
      if cmd.replyTo.Some? {
        var target := FindMessage(messages, cmd.conversationId, cmd.replyTo.value);
        if target.None? {
          return Refused(REPLY_TARGET_NOT_IN_CONVERSATION);
        }
        if target.value.sender != cmd.actor {
          repliedToAuthor := Some(target.value.sender);
        }
        if target.value.visibility == INTERNAL && cmd.visibility == CUSTOMER_VISIBLE {
          return Refused(REPLY_TARGET_NOT_IN_CONVERSATION);
        }
      }
      var live := LiveIds(conversation.participants);
      var check := Mentions.ValidateMentions(cmd.mentions, body, (set p | p in live), conversation.kind == INTERNAL_GROUP);
      if check.Rejected? {
        return Refused(MENTION_REFUSED(check.reason));
      }
      r := WriteMessage(cmd, body, check.mentions, live, repliedToAuthor);
    }

    /** The writes of a send that nothing refused, in the order the transaction makes them. */
    method WriteMessage(cmd: Command, body: string, mentions: seq<Mentions.Mention>, live: seq<PrincipalId>,
                        repliedToAuthor: Option<PrincipalId>) returns (r: Result)
      requires cmd.conversationId in conversations && body == Trim(cmd.body) && live == Participants(View(), cmd)
      modifies this
      ensures View() == Write(old(View()), cmd, mentions)
      ensures r == Sent(Written(old(View()), cmd, mentions), false, live,
                        Mentions.Recipients(mentions, live, cmd.actor), repliedToAuthor)
    {
      hide Trim, LiveIds, Mentions.Recipients, IsInternal, Unarchived, PreviewOf;
      var conversation := conversations[cmd.conversationId];
      var n := NextSequence(cmd.conversationId);
      var message := Message(nextId, cmd.conversationId, n, cmd.visibility, cmd.actor, cmd.kind, cmd.displayName,
                             body, cmd.replyTo, cmd.clientId, mentions, false, false);
      nextId := nextId + 1;
      messages := messages + [message];
      UnarchiveForOthers(cmd.conversationId, cmd.actor);
      var events := [MessageCreated(message.id, cmd.conversationId, message.seqNo, message.senderKind, message.visibility)];
      var notify := Mentions.MentionRecipients(mentions, live, cmd.actor);
      if |notify| > 0 {
        events := events + [MessageMentioned(message.id, cmd.conversationId, message.seqNo, notify, MentionsAll(mentions))];
      }
      outbox := outbox + events;
      if cmd.visibility == CUSTOMER_VISIBLE && conversation.currentOwner == Some(cmd.actor) {
        ActivateOnOwnerReply(cmd.conversationId);
      }
      var preview := if message.visibility != INTERNAL || IsInternal(conversation.kind) then PreviewOf(body) else "";
      TouchConversation(cmd.conversationId, preview);
      r := Sent(message, false, live, notify, repliedToAuthor);
    }
  }
}
