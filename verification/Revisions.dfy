/**
 * Correcting and redacting a message: the row is loaded locked, its text goes to the revision history, and
 * the body, the conversation's preview and an event are written in the same transaction.
 */
module Revisions {
  import opened Conversations
  import opened Options
  import opened Messages

  /** `caption` stands for what the store shows for a message without text: its attachment's name, or nothing. */
  datatype ReviseCommand = ReviseCommand(
    conversationId: ConversationId, messageId: MessageId, actor: PrincipalId, caption: MessageId -> string)

  datatype ReviseFailure = MESSAGE_NOT_FOUND | NOT_THE_SENDER | ALREADY_REDACTED | EMPTY_TEXT | TEXT_TOO_LONG | UNCHANGED

  datatype ReviseResult = Revised(message: Message) | NotRevised(reason: ReviseFailure)

  const REFRESHED_LENGTH := 200

  /** The newest message of a conversation that has not been redacted. */
  function Newest(messages: seq<Message>, c: ConversationId): Option<Message> {
    if messages == [] then None
    else
      var m := messages[|messages| - 1];
      if m.conversationId == c && !m.redacted then Some(m) else Newest(messages[..|messages| - 1], c)
  }

  /** The store's recomputed preview; it does not look at visibility. */
  function Refreshed(messages: seq<Message>, c: ConversationId, caption: MessageId -> string): string {
    match Newest(messages, c)
    case None => ""
    case Some(m) =>
      var text := if |m.body| > REFRESHED_LENGTH then m.body[..REFRESHED_LENGTH] else m.body;
      if text != "" then text else caption(m.id)
  }

  function RefreshPreview(s: Store, c: ConversationId, caption: MessageId -> string): Store {
    if c !in s.conversations then s
    else s.(conversations := s.conversations[c := s.conversations[c].(preview := Refreshed(s.messages, c, caption))])
  }

  function Replaced(messages: seq<Message>, id: MessageId, m: Message): seq<Message> {
    seq(|messages|, i requires 0 <= i < |messages| => if messages[i].id == id then m else messages[i])
  }

  /** One revision: what the text was, what it becomes, and the event that says so. */
  function Revise(s: Store, cmd: ReviseCommand, existing: Message, next: Message): Store {
    var redaction := next.redacted;
    var written := s.(messages := Replaced(s.messages, existing.id, next),
                      revisions := s.revisions + [Revision(existing.id, redaction, existing.body, cmd.actor)]);
    var row := MessageRevised(existing.id, cmd.conversationId, redaction);
    RefreshPreview(written, cmd.conversationId, cmd.caption).(outbox := s.outbox + [row])
  }

  function Edit(s: Store, cmd: ReviseCommand, text: string): (Store, ReviseResult) {
    var body := Trim(text);
    if body == "" then (s, NotRevised(EMPTY_TEXT))
    else if |body| > MAX_BODY then (s, NotRevised(TEXT_TOO_LONG))
    else
      match FindMessage(s.messages, cmd.conversationId, cmd.messageId)
      case None => (s, NotRevised(MESSAGE_NOT_FOUND))
      case Some(existing) =>
        if existing.sender != cmd.actor then (s, NotRevised(NOT_THE_SENDER))
        else if existing.redacted then (s, NotRevised(ALREADY_REDACTED))
        else if existing.body == body then (s, NotRevised(UNCHANGED))
        else
          var next := existing.(body := body, edited := true);
          (Revise(s, cmd, existing, next), Revised(next))
  }

  function Redact(s: Store, cmd: ReviseCommand): (Store, ReviseResult) {
    match FindMessage(s.messages, cmd.conversationId, cmd.messageId)
    case None => (s, NotRevised(MESSAGE_NOT_FOUND))
    case Some(existing) =>
      if existing.sender != cmd.actor then (s, NotRevised(NOT_THE_SENDER))
      else if existing.redacted then (s, Revised(existing))
      else
        var next := existing.(body := "", redacted := true);
        (Revise(s, cmd, existing, next), Revised(next))
  }

  // ---------------------------------------------------------------- the code

  method ApplyRevision(store: MessageStore, cmd: ReviseCommand, existing: Message, next: Message)
    modifies store
    ensures store.View() == Revise(old(store.View()), cmd, existing, next)
  {
    hide Refreshed;
    store.revisions := store.revisions + [Revision(existing.id, next.redacted, existing.body, cmd.actor)];
    store.messages := Replaced(store.messages, existing.id, next);
    if cmd.conversationId in store.conversations {
      store.TouchConversation(cmd.conversationId, Refreshed(store.messages, cmd.conversationId, cmd.caption));
    }
    store.outbox := store.outbox + [MessageRevised(existing.id, cmd.conversationId, next.redacted)];
  }

  method EditMessage(store: MessageStore, cmd: ReviseCommand, text: string) returns (r: ReviseResult)
    modifies store
    ensures (store.View(), r) == Edit(old(store.View()), cmd, text)
  {
    hide Revise, FindMessage, Trim;
    var body := Trim(text);
    if body == "" {
      return NotRevised(EMPTY_TEXT);
    }
    if |body| > MAX_BODY {
      return NotRevised(TEXT_TOO_LONG);
    }
    var existing := FindMessage(store.messages, cmd.conversationId, cmd.messageId);
    if existing.None? {
      return NotRevised(MESSAGE_NOT_FOUND);
    }
    if existing.value.sender != cmd.actor {
      return NotRevised(NOT_THE_SENDER);
    }
    if existing.value.redacted {
      return NotRevised(ALREADY_REDACTED);
    }
    if existing.value.body == body {
      return NotRevised(UNCHANGED);
    }
    var next := existing.value.(body := body, edited := true);
    ApplyRevision(store, cmd, existing.value, next);
    return Revised(next);
  }

  method RedactMessage(store: MessageStore, cmd: ReviseCommand) returns (r: ReviseResult)
    modifies store
    ensures (store.View(), r) == Redact(old(store.View()), cmd)
  {
    hide Revise, FindMessage;
    var existing := FindMessage(store.messages, cmd.conversationId, cmd.messageId);
    if existing.None? {
      return NotRevised(MESSAGE_NOT_FOUND);
    }
    if existing.value.sender != cmd.actor {
      return NotRevised(NOT_THE_SENDER);
    }
    if existing.value.redacted {
      return Revised(existing.value);
    }
    var next := existing.value.(body := "", redacted := true);
    ApplyRevision(store, cmd, existing.value, next);
    return Revised(next);
  }
}
