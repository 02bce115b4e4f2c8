/**
 * What every run of sends, corrections, redactions and outside changes keeps, over all conversations at once.
 */
module MessageLaws {
  import opened Conversations
  import opened Options
  import opened Messages
  import opened Revisions
  import Mentions

  /** `texts` is an observer's record: every text a message has had, the one it was sent with first. */
  datatype World = World(store: Store, texts: map<MessageId, seq<string>>)

  const NO_MESSAGES := World(Messages.EMPTY, map[])

  datatype Event =
    | ChangedOutside(id: ConversationId, conversation: Conversation)
    | Sends(command: Command)
    | Edits(revise: ReviseCommand, text: string)
    | Redacts(revise: ReviseCommand)
    | Refreshes(id: ConversationId, caption: MessageId -> string)

  /** Other parts open conversations, empty, and change them; a change keeps its numbering, its preview and its side. */
  function Outside(s: Store, id: ConversationId, c: Conversation): Store {
    if id in s.conversations then
      var was := s.conversations[id];
      if c.lastSeq == was.lastSeq && c.preview == was.preview && IsInternal(c.kind) == IsInternal(was.kind)
      then s.(conversations := s.conversations[id := c]) else s
    else if c.lastSeq == 0 && c.preview == "" then s.(conversations := s.conversations[id := c])
    else s
  }

  function TextsOf(texts: map<MessageId, seq<string>>, id: MessageId): seq<string> {
    if id in texts then texts[id] else []
  }

  function Step(w: World, e: Event): World {
    match e
    case ChangedOutside(id, c) => w.(store := Outside(w.store, id, c))
    case Sends(cmd) =>
      var (store, r) := Send(w.store, cmd);
      World(store, if r.Sent? && !r.duplicate then w.texts[r.message.id := [r.message.body]] else w.texts)
    case Edits(cmd, text) => Told(w, Edit(w.store, cmd, text).0, Edit(w.store, cmd, text).1)
    case Redacts(cmd) => Told(w, Redact(w.store, cmd).0, Redact(w.store, cmd).1)
    case Refreshes(id, caption) => w.(store := RefreshPreview(w.store, id, caption))
  }

  /** A change of text is one more text of its message. */
  function Told(w: World, store: Store, r: ReviseResult): World {
    World(store, if r.Revised? && store != w.store
                 then w.texts[r.message.id := TextsOf(w.texts, r.message.id) + [r.message.body]] else w.texts)
  }

  function Run(w: World, events: seq<Event>): World {
    if events == [] then w else Step(Run(w, events[..|events| - 1]), events[|events| - 1])
  }

  // ---------------------------------------------------------------- what a correction cannot touch

  /** A message without its text. */
  function Frame(m: Message): Message {
    m.(body := "", edited := false, redacted := false)
  }

  function Frames(messages: seq<Message>): seq<Message> {
    seq(|messages|, i requires 0 <= i < |messages| => Frame(messages[i]))
  }

  /** The messages of one conversation, in order. */
  function Thread(messages: seq<Message>, c: ConversationId): seq<Message> {
    if messages == [] then []
    else
      var before := Thread(messages[..|messages| - 1], c);
      if messages[|messages| - 1].conversationId == c then before + [messages[|messages| - 1]] else before
  }

  function CreatedRows(outbox: seq<OutboxRow>): seq<OutboxRow> {
    if outbox == [] then []
    else
      var before := CreatedRows(outbox[..|outbox| - 1]);
      if outbox[|outbox| - 1].MessageCreated? then before + [outbox[|outbox| - 1]] else before
  }

  // ---------------------------------------------------------------- the invariants

  function LastSeq(s: Store, c: ConversationId): nat {
    if c in s.conversations then s.conversations[c].lastSeq else 0
  }

  ghost predicate Numbered(s: Store, fs: seq<Message>, c: ConversationId) {
    var thread := Thread(fs, c);
    |thread| == LastSeq(s, c) && forall k :: 0 <= k < |thread| ==> thread[k].seqNo == k + 1
  }

  /** Every conversation's messages are numbered 1, 2, 3, up to its last sequence, with no gap and no repeat. */
  ghost predicate AllNumbered(s: Store, fs: seq<Message>) {
    forall c :: Numbered(s, fs, c)
  }

  ghost predicate IdsIncrease(fs: seq<Message>, nextId: MessageId) {
    && (forall i :: 0 <= i < |fs| ==> fs[i].id < nextId)
    && (forall i, j :: 0 <= i < j < |fs| ==> fs[i].id < fs[j].id)
  }

  predicate SameKey(a: Message, b: Message) {
    a.conversationId == b.conversationId && a.sender == b.sender && a.clientId.Some? && a.clientId == b.clientId
  }

  ghost predicate KeysUnique(fs: seq<Message>) {
    forall i, j :: 0 <= i < j < |fs| ==> !SameKey(fs[i], fs[j])
  }

  /** A reply and its target: the same conversation, an earlier message, and no note behind a customer's back. */
  predicate RepliesTo(reply: Message, target: Message) {
    && reply.replyTo == Some(target.id) && reply.conversationId == target.conversationId && target.seqNo < reply.seqNo
    && (reply.visibility == CUSTOMER_VISIBLE ==> target.visibility == CUSTOMER_VISIBLE)
  }

  ghost predicate RepliesLookBack(fs: seq<Message>) {
    forall i :: 0 <= i < |fs| && fs[i].replyTo.Some? ==> exists j :: 0 <= j < i && RepliesTo(fs[i], fs[j])
  }

  ghost predicate CustomersWriteNoNotes(fs: seq<Message>) {
    forall i :: 0 <= i < |fs| && fs[i].senderKind == CUSTOMER ==> fs[i].visibility == CUSTOMER_VISIBLE
  }

  ghost predicate OneEventEach(outbox: seq<OutboxRow>, fs: seq<Message>) {
    CreatedRows(outbox) == seq(|fs|, i requires 0 <= i < |fs| => CreatedRow(fs[i]))
  }

  ghost predicate WriteSafe(s: Store, fs: seq<Message>) {
    && AllNumbered(s, fs) && IdsIncrease(fs, s.nextId) && KeysUnique(fs) && RepliesLookBack(fs)
    && CustomersWriteNoNotes(fs) && OneEventEach(s.outbox, fs)
  }

  // ---------------------------------------------------------------- lookups

  lemma {:induction false} FindMessageFinds(messages: seq<Message>, c: ConversationId, id: MessageId)
    ensures FindMessage(messages, c, id).Some? ==>
              exists i :: 0 <= i < |messages| && messages[i] == FindMessage(messages, c, id).value
                          && messages[i].conversationId == c && messages[i].id == id
    ensures FindMessage(messages, c, id).None? ==>
              forall i :: 0 <= i < |messages| ==> !(messages[i].conversationId == c && messages[i].id == id)
  {
    if messages != [] {
      FindMessageFinds(messages[..|messages| - 1], c, id);
    }
  }

  lemma {:induction false} FindByClientIdFinds(messages: seq<Message>, c: ConversationId, sender: PrincipalId, k: string)
    ensures var r := FindByClientId(messages, c, sender, k);
            && (r.Some? ==> exists i :: 0 <= i < |messages| && messages[i] == r.value && r.value.conversationId == c
                                        && r.value.sender == sender && r.value.clientId == Some(k))
            && (r.None? ==> forall i :: 0 <= i < |messages| ==>
                              !(messages[i].conversationId == c && messages[i].sender == sender
                                && messages[i].clientId == Some(k)))
  {
    if messages != [] {
      FindByClientIdFinds(messages[..|messages| - 1], c, sender, k);
    }
  }

  // ---------------------------------------------------------------- a send keeps them

  lemma ThreadAppended(fs: seq<Message>, m: Message, c: ConversationId)
    ensures Thread(fs + [m], c) == Thread(fs, c) + if m.conversationId == c then [m] else []
  {
    assert (fs + [m])[..|fs|] == fs;
  }

  lemma {:induction false} ThreadIsFrom(fs: seq<Message>, c: ConversationId, i: nat)
    requires i < |fs| && fs[i].conversationId == c
    ensures fs[i] in Thread(fs, c)
  {
    if i < |fs| - 1 {
      ThreadIsFrom(fs[..|fs| - 1], c, i);
    }
  }

  lemma {:induction false} CreatedRowsAppended(outbox: seq<OutboxRow>, more: seq<OutboxRow>)
    ensures CreatedRows(outbox + more) == CreatedRows(outbox) + CreatedRows(more)
  {
    if more == [] {
      assert outbox + more == outbox;
    } else {
      CreatedRowsAppended(outbox, more[..|more| - 1]);
      assert (outbox + more)[..|outbox + more| - 1] == outbox + more[..|more| - 1];
    }
  }

  lemma EventsHoldOneCreated(m: Message, notify: seq<PrincipalId>)
    ensures CreatedRows(Events(m, notify)) == [CreatedRow(m)]
  {
    var first := [CreatedRow(m)];
    assert CreatedRows(first) == CreatedRows(first[..0]) + first;
    if |notify| > 0 {
      assert Events(m, notify)[..1] == first;
    } else {
      assert Events(m, notify) == first;
    }
  }

  lemma FramesAppended(messages: seq<Message>, m: Message)
    ensures Frames(messages + [m]) == Frames(messages) + [Frame(m)]
  {
  }

  lemma NumberedOnwards(s: Store, fs: seq<Message>, f: Message, t: Store, c: ConversationId)
    requires Numbered(s, fs, c)
    requires LastSeq(t, c) == LastSeq(s, c) + if f.conversationId == c then 1 else 0
    requires f.conversationId == c ==> f.seqNo == LastSeq(s, c) + 1
    ensures Numbered(t, fs + [f], c)
  {
    ThreadAppended(fs, f, c);
  }

  lemma KeyIsNew(s: Store, cmd: Command, f: Message)
    requires f.conversationId == cmd.conversationId && f.sender == cmd.actor && f.clientId == cmd.clientId
    requires cmd.clientId.Some? ==> FindByClientId(s.messages, cmd.conversationId, cmd.actor, cmd.clientId.value).None?
    requires KeysUnique(Frames(s.messages))
    ensures KeysUnique(Frames(s.messages) + [f])
  {
    hide FindByClientId;
    if cmd.clientId.Some? {
      FindByClientIdFinds(s.messages, cmd.conversationId, cmd.actor, cmd.clientId.value);
    }
  }

  lemma EarlierIsNumberedLower(s: Store, fs: seq<Message>, i: nat)
    requires i < |fs| && Numbered(s, fs, fs[i].conversationId)
    ensures fs[i].seqNo <= LastSeq(s, fs[i].conversationId)
  {
    ThreadIsFrom(fs, fs[i].conversationId, i);
  }

  lemma ReplyLooksBack(s: Store, cmd: Command, f: Message)
    requires AllNumbered(s, Frames(s.messages)) && RepliesLookBack(Frames(s.messages)) && CheckReply(s, cmd).None?
    requires f.conversationId == cmd.conversationId && f.replyTo == cmd.replyTo && f.visibility == cmd.visibility
    requires f.seqNo == LastSeq(s, cmd.conversationId) + 1
    ensures RepliesLookBack(Frames(s.messages) + [f])
  {
    hide FindMessage, Numbered;
    var fs := Frames(s.messages);
    forall i | 0 <= i < |fs + [f]| && (fs + [f])[i].replyTo.Some?
      ensures exists j :: 0 <= j < i && RepliesTo((fs + [f])[i], (fs + [f])[j])
    {
      if i < |fs| {
        var j :| 0 <= j < i && RepliesTo(fs[i], fs[j]);
        assert (fs + [f])[j] == fs[j];
      } else {
        FindMessageFinds(s.messages, cmd.conversationId, cmd.replyTo.value);
        var j :| 0 <= j < |s.messages| && s.messages[j] == FindMessage(s.messages, cmd.conversationId, cmd.replyTo.value).value;
        EarlierIsNumberedLower(s, fs, j);
        assert RepliesTo((fs + [f])[i], (fs + [f])[j]);
      }
    }
  }

  lemma OneEventMore(s: Store, m: Message, notify: seq<PrincipalId>)
    requires OneEventEach(s.outbox, Frames(s.messages))
    ensures OneEventEach(s.outbox + Events(m, notify), Frames(s.messages) + [Frame(m)])
  {
    hide Events;
    CreatedRowsAppended(s.outbox, Events(m, notify));
    EventsHoldOneCreated(m, notify);
  }

  lemma WriteKeeps(s: Store, cmd: Command, mentions: seq<Mentions.Mention>)
    requires WriteSafe(s, Frames(s.messages)) && Check(s, cmd) == Proceed(mentions)
    ensures WriteSafe(Write(s, cmd, mentions), Frames(Write(s, cmd, mentions).messages))
  {
    hide FindByClientId, CheckMentions, Mentions.Recipients, Thread, CreatedRows, RepliesLookBack, KeysUnique, OneEventEach,
         Numbered, Touched, Activated, Unarchived, Trim, Participants, Events;
    var m, t := Written(s, cmd, mentions), Write(s, cmd, mentions);
    var fs, f := Frames(s.messages), Frame(m);
    FramesAppended(s.messages, m);
    forall c
      ensures Numbered(t, fs + [f], c)
    {
      NumberedOnwards(s, fs, f, t, c);
    }
    KeyIsNew(s, cmd, f);
    ReplyLooksBack(s, cmd, f);
    OneEventMore(s, m, Mentions.Recipients(mentions, Participants(s, cmd), cmd.actor));
  }

  // ---------------------------------------------------------------- and so does everything else

  lemma RevisedRowsCreateNothing(outbox: seq<OutboxRow>, row: OutboxRow)
    requires !row.MessageCreated?
    ensures CreatedRows(outbox + [row]) == CreatedRows(outbox)
  {
    assert (outbox + [row])[..|outbox|] == outbox;
  }

  lemma OnlyOneHasTheId(messages: seq<Message>, nextId: MessageId, existing: Message)
    requires IdsIncrease(Frames(messages), nextId) && existing in messages
    ensures forall i :: 0 <= i < |messages| && messages[i].id == existing.id ==> messages[i] == existing
  {
    var k :| 0 <= k < |messages| && messages[k] == existing;
    var fs := Frames(messages);
    forall i | 0 <= i < |messages| && messages[i].id == existing.id
      ensures messages[i] == existing
    {
      assert fs[i].id == fs[k].id;
    }
  }

  lemma ReplacedKeepsFrames(messages: seq<Message>, existing: Message, next: Message)
    requires Frame(next) == Frame(existing)
    requires forall i :: 0 <= i < |messages| && messages[i].id == existing.id ==> messages[i] == existing
    ensures Frames(Replaced(messages, existing.id, next)) == Frames(messages)
  {
  }

  lemma FoundIsThere(s: Store, c: ConversationId, id: MessageId)
    requires FindMessage(s.messages, c, id).Some?
    ensures FindMessage(s.messages, c, id).value in s.messages
  {
    FindMessageFinds(s.messages, c, id);
  }

  lemma SameNumbering(s: Store, t: Store, fs: seq<Message>)
    requires AllNumbered(s, fs) && forall c :: LastSeq(t, c) == LastSeq(s, c)
    ensures AllNumbered(t, fs)
  {
    hide Thread, LastSeq;
    forall c
      ensures Numbered(t, fs, c)
    {
      assert Numbered(s, fs, c);
    }
  }

  lemma ReviseKeeps(s: Store, cmd: ReviseCommand, existing: Message, next: Message)
    requires WriteSafe(s, Frames(s.messages)) && existing in s.messages && Frame(next) == Frame(existing)
    ensures var t := Revise(s, cmd, existing, next);
            WriteSafe(t, Frames(t.messages)) && Frames(t.messages) == Frames(s.messages)
  {
    hide Refreshed, Frame, AllNumbered, KeysUnique, RepliesLookBack, CreatedRows, IdsIncrease, CustomersWriteNoNotes;
    OnlyOneHasTheId(s.messages, s.nextId, existing);
    ReplacedKeepsFrames(s.messages, existing, next);
    RevisedRowsCreateNothing(s.outbox, MessageRevised(existing.id, cmd.conversationId, next.redacted));
    SameNumbering(s, Revise(s, cmd, existing, next), Frames(s.messages));
  }

  lemma OutsideKeeps(s: Store, id: ConversationId, c: Conversation)
    requires WriteSafe(s, Frames(s.messages))
    ensures WriteSafe(Outside(s, id, c), Frames(s.messages)) && Outside(s, id, c).messages == s.messages
  {
    hide Frame, AllNumbered, KeysUnique, RepliesLookBack, CreatedRows, IdsIncrease, CustomersWriteNoNotes;
    SameNumbering(s, Outside(s, id, c), Frames(s.messages));
  }

  lemma RefreshKeeps(s: Store, c: ConversationId, caption: MessageId -> string)
    requires WriteSafe(s, Frames(s.messages))
    ensures WriteSafe(RefreshPreview(s, c, caption), Frames(s.messages)) && RefreshPreview(s, c, caption).messages == s.messages
  {
    hide Refreshed, Frame, AllNumbered, KeysUnique, RepliesLookBack, CreatedRows, IdsIncrease, CustomersWriteNoNotes;
    SameNumbering(s, RefreshPreview(s, c, caption), Frames(s.messages));
  }

  lemma StepKeepsWrites(w: World, e: Event)
    requires WriteSafe(w.store, Frames(w.store.messages))
    ensures WriteSafe(Step(w, e).store, Frames(Step(w, e).store.messages))
  {
    hide WriteSafe, Check, Write, Revise, FindMessage, Outside, Trim, RefreshPreview;
    match e
    case ChangedOutside(id, c) => OutsideKeeps(w.store, id, c);
    case Sends(cmd) =>
      if Check(w.store, cmd).Proceed? {
        WriteKeeps(w.store, cmd, Check(w.store, cmd).mentions);
      }
    case Edits(cmd, text) =>
      if Edit(w.store, cmd, text).1.Revised? {
        FoundIsThere(w.store, cmd.conversationId, cmd.messageId);
        var existing := FindMessage(w.store.messages, cmd.conversationId, cmd.messageId).value;
        ReviseKeeps(w.store, cmd, existing, existing.(body := Trim(text), edited := true));
      }
    case Redacts(cmd) =>
      if Redact(w.store, cmd).1.Revised? {
        FoundIsThere(w.store, cmd.conversationId, cmd.messageId);
        var existing := FindMessage(w.store.messages, cmd.conversationId, cmd.messageId).value;
        ReviseKeeps(w.store, cmd, existing, existing.(body := "", redacted := true));
      }
    case Refreshes(id, caption) => RefreshKeeps(w.store, id, caption);
  }

  lemma {:induction false} EveryRunWritesSafely(events: seq<Event>)
    ensures WriteSafe(Run(NO_MESSAGES, events).store, Frames(Run(NO_MESSAGES, events).store.messages))
  {
    hide Step;
    if events == [] {
      assert Frames(NO_MESSAGES.store.messages) == [];
    } else {
      EveryRunWritesSafely(events[..|events| - 1]);
      StepKeepsWrites(Run(NO_MESSAGES, events[..|events| - 1]), events[|events| - 1]);
    }
  }

  // ---------------------------------------------------------------- sequences, events, keys and replies

  lemma {:induction false} ThreadMembers(fs: seq<Message>, c: ConversationId, k: nat)
    requires k < |Thread(fs, c)|
    ensures exists i :: 0 <= i < |fs| && fs[i].conversationId == c && fs[i] == Thread(fs, c)[k]
  {
    if k < |Thread(fs[..|fs| - 1], c)| {
      ThreadMembers(fs[..|fs| - 1], c, k);
      var i :| 0 <= i < |fs| - 1 && fs[..|fs| - 1][i].conversationId == c && fs[..|fs| - 1][i] == Thread(fs[..|fs| - 1], c)[k];
      assert fs[i] == Thread(fs, c)[k];
    }
  }

  lemma {:induction false} ThreadIsNumberedApart(fs: seq<Message>, c: ConversationId, i: nat, j: nat)
    requires i < j < |fs| && fs[i].conversationId == c && fs[j].conversationId == c
    requires forall k :: 0 <= k < |Thread(fs, c)| ==> Thread(fs, c)[k].seqNo == k + 1
    ensures fs[i].seqNo < fs[j].seqNo
    decreases |fs|
  {
    var init := fs[..|fs| - 1];
    assert forall k :: 0 <= k < |Thread(init, c)| ==> Thread(init, c)[k] == Thread(fs, c)[k];
    if j < |fs| - 1 {
      ThreadIsNumberedApart(init, c, i, j);
    } else {
      ThreadIsFrom(init, c, i);
      assert Thread(fs, c)[|Thread(init, c)|] == fs[j];
    }
  }

  /**
   * After any run, the sequence numbers in a conversation are exactly 1 to its last one, and later messages
   * have higher numbers.
   */
  lemma SequencesHaveNoGaps(events: seq<Event>, c: ConversationId, n: int)
    ensures var s := Run(NO_MESSAGES, events).store;
            && (c in s.conversations && 1 <= n <= s.conversations[c].lastSeq <==>
                  exists i :: 0 <= i < |s.messages| && s.messages[i].conversationId == c && s.messages[i].seqNo == n)
            && (forall i, j :: 0 <= i < j < |s.messages| && s.messages[i].conversationId == s.messages[j].conversationId == c ==>
                  s.messages[i].seqNo < s.messages[j].seqNo)
  {
    hide Run, Thread;
    EveryRunWritesSafely(events);
    var s := Run(NO_MESSAGES, events).store;
    var fs := Frames(s.messages);
    assert Numbered(s, fs, c);
    if c in s.conversations && 1 <= n <= s.conversations[c].lastSeq {
      ThreadMembers(fs, c, n - 1);
      var i :| 0 <= i < |fs| && fs[i].conversationId == c && fs[i] == Thread(fs, c)[n - 1];
      assert s.messages[i].conversationId == c && s.messages[i].seqNo == n;
    }
    forall i | 0 <= i < |s.messages| && s.messages[i].conversationId == c
      ensures 1 <= s.messages[i].seqNo <= LastSeq(s, c)
    {
      ThreadIsFrom(fs, c, i);
    }
    forall i, j | 0 <= i < j < |s.messages| && s.messages[i].conversationId == c && s.messages[j].conversationId == c
      ensures s.messages[i].seqNo < s.messages[j].seqNo
    {
      ThreadIsNumberedApart(fs, c, i, j);
    }
  }

  /** The outbox announces every message once, in the order they were written, and announces nothing else as new. */
  lemma EveryMessageIsAnnouncedOnce(events: seq<Event>)
    ensures var s := Run(NO_MESSAGES, events).store;
            CreatedRows(s.outbox) == seq(|s.messages|, i requires 0 <= i < |s.messages| => CreatedRow(s.messages[i]))
  {
    hide Run;
    EveryRunWritesSafely(events);
  }

  /** An idempotency key names at most one message, ever. */
  lemma KeysNameOneMessage(events: seq<Event>, i: nat, j: nat)
    ensures var messages := Run(NO_MESSAGES, events).store.messages;
            i < |messages| && j < |messages| && SameKey(messages[i], messages[j]) ==> i == j
  {
    hide Run;
    EveryRunWritesSafely(events);
    var messages := Run(NO_MESSAGES, events).store.messages;
    if i < |messages| && j < |messages| && SameKey(messages[i], messages[j]) {
      OneMessagePerKey(messages, i, j);
    }
  }

  lemma FramesStay(w: World, e: Event)
    requires WriteSafe(w.store, Frames(w.store.messages))
    ensures Frames(w.store.messages) <= Frames(Step(w, e).store.messages)
  {
    hide Check, Refreshed, FindMessage, Trim, AllNumbered, KeysUnique, RepliesLookBack, OneEventEach;
    match e
    case ChangedOutside(_, _) =>
    case Sends(cmd) =>
    case Edits(cmd, text) =>
      if Edit(w.store, cmd, text).1.Revised? {
        FoundIsThere(w.store, cmd.conversationId, cmd.messageId);
        var existing := FindMessage(w.store.messages, cmd.conversationId, cmd.messageId).value;
        OnlyOneHasTheId(w.store.messages, w.store.nextId, existing);
      }
    case Redacts(cmd) =>
      if Redact(w.store, cmd).1.Revised? {
        FoundIsThere(w.store, cmd.conversationId, cmd.messageId);
        var existing := FindMessage(w.store.messages, cmd.conversationId, cmd.messageId).value;
        OnlyOneHasTheId(w.store.messages, w.store.nextId, existing);
      }
    case Refreshes(_, _) =>
  }

  lemma {:induction false} FramesStayOnwards(w: World, more: seq<Event>)
    requires WriteSafe(w.store, Frames(w.store.messages))
    ensures WriteSafe(Run(w, more).store, Frames(Run(w, more).store.messages))
    ensures Frames(w.store.messages) <= Frames(Run(w, more).store.messages)
  {
    hide Step, WriteSafe;
    if more != [] {
      FramesStayOnwards(w, more[..|more| - 1]);
      StepKeepsWrites(Run(w, more[..|more| - 1]), more[|more| - 1]);
      FramesStay(Run(w, more[..|more| - 1]), more[|more| - 1]);
    }
  }

  /**
   * A retry is harmless for good: whatever has happened since a message was sent, a later send under the same
   * key is either refused before it gets that far or answered with that very message, and writes nothing.
   */
  lemma RetryReturnsTheOriginal(events: seq<Event>, more: seq<Event>, i: nat, retry: Command)
    requires var s := Run(NO_MESSAGES, events).store;
             i < |s.messages| && s.messages[i].clientId.Some? && retry.clientId == s.messages[i].clientId
             && retry.conversationId == s.messages[i].conversationId && retry.actor == s.messages[i].sender
    ensures var v := Run(Run(NO_MESSAGES, events), more).store;
            var (after, r) := Send(v, retry);
            && after == v
            && (r.Sent? ==> r.duplicate && i < |v.messages| && r.message == v.messages[i]
                            && Frame(r.message) == Frame(Run(NO_MESSAGES, events).store.messages[i]))
            && (r.Refused? ==> Precheck(retry).Some? || retry.conversationId !in v.conversations
                               || !retry.may(ActionFor(v.conversations[retry.conversationId].kind, retry.visibility)))
  {
    hide Run, FindByClientId, CheckReply, CheckMentions, Precheck, AllNumbered, RepliesLookBack, OneEventEach;
    EveryRunWritesSafely(events);
    FramesStayOnwards(Run(NO_MESSAGES, events), more);
    var s, v := Run(NO_MESSAGES, events).store, Run(Run(NO_MESSAGES, events), more).store;
    assert Frames(v.messages)[i] == Frames(s.messages)[i];
    assert Frame(v.messages[i]) == Frame(s.messages[i]);
    FindByClientIdFinds(v.messages, retry.conversationId, retry.actor, retry.clientId.value);
    var r := FindByClientId(v.messages, retry.conversationId, retry.actor, retry.clientId.value);
    var j :| 0 <= j < |v.messages| && v.messages[j] == r.value;
    OneMessagePerKey(v.messages, i, j);
  }

  lemma OneMessagePerKey(messages: seq<Message>, i: nat, j: nat)
    requires KeysUnique(Frames(messages)) && i < |messages| && j < |messages| && SameKey(messages[i], messages[j])
    ensures i == j
  {
    var fs := Frames(messages);
    assert SameKey(fs[i], fs[j]) && SameKey(fs[j], fs[i]);
  }

  /** A walk along reply links, from a message towards what it answers. */
  ghost predicate IsReplyChain(messages: seq<Message>, path: seq<nat>) {
    && (forall k :: 0 <= k < |path| ==> path[k] < |messages|)
    && (forall k :: 0 < k < |path| ==> messages[path[k - 1]].replyTo == Some(messages[path[k]].id))
  }

  lemma OneReplyBack(fs: seq<Message>, nextId: MessageId, i: nat, j: nat)
    requires RepliesLookBack(fs) && IdsIncrease(fs, nextId) && i < |fs| && j < |fs| && fs[i].replyTo == Some(fs[j].id)
    ensures j < i && RepliesTo(fs[i], fs[j])
  {
    var k :| 0 <= k < i && RepliesTo(fs[i], fs[k]);
    assert fs[k].id == fs[j].id;
  }

  /**
   * Replies stay within their conversation and always look back, and no chain of replies that starts at a
   * message a customer can see ever reaches an internal note, however long it is.
   */
  lemma {:induction false} NoChainReachesANote(events: seq<Event>, path: seq<nat>)
    requires path != [] && IsReplyChain(Run(NO_MESSAGES, events).store.messages, path)
    ensures var messages := Run(NO_MESSAGES, events).store.messages;
            var first, last := messages[path[0]], messages[path[|path| - 1]];
            && last.conversationId == first.conversationId
            && (|path| > 1 ==> path[|path| - 1] < path[0] && last.seqNo < first.seqNo)
            && (first.visibility == CUSTOMER_VISIBLE ==> last.visibility == CUSTOMER_VISIBLE)
    decreases |path|
  {
    hide Run;
    EveryRunWritesSafely(events);
    var s := Run(NO_MESSAGES, events).store;
    if |path| > 1 {
      var init := path[..|path| - 1];
      NoChainReachesANote(events, init);
      OneReplyBack(Frames(s.messages), s.nextId, path[|path| - 2], path[|path| - 1]);
    }
  }

  /** No customer's message is a note. */
  lemma CustomersNeverWriteNotes(events: seq<Event>, i: nat)
    ensures var messages := Run(NO_MESSAGES, events).store.messages;
            i < |messages| && messages[i].senderKind == CUSTOMER ==> messages[i].visibility == CUSTOMER_VISIBLE
  {
    hide Run;
    EveryRunWritesSafely(events);
    var s := Run(NO_MESSAGES, events).store;
    if i < |s.messages| {
      assert Frames(s.messages)[i] == Frame(s.messages[i]);
    }
  }

  // ---------------------------------------------------------------- what else a send does

  lemma {:induction false} LiveIdsAreLive(participants: seq<Participant>, id: PrincipalId)
    ensures id in LiveIds(participants)
            <==> exists k :: 0 <= k < |participants| && participants[k].principalId == id && participants[k].live
  {
    if participants != [] {
      LiveIdsAreLive(participants[..|participants| - 1], id);
      assert participants == participants[..|participants| - 1] + [participants[|participants| - 1]];
    }
  }

  /** A send that wrote: the only kind that changes the store. */
  predicate Wrote(s: Store, cmd: Command) {
    Send(s, cmd).1.Sent? && !Send(s, cmd).1.duplicate
  }

  /** A refused send and a retry leave everything as it was. */
  lemma OnlyWritingSendsWrite(s: Store, cmd: Command)
    ensures Send(s, cmd).0 != s <==> Wrote(s, cmd)
  {
    hide Check, Events, Mentions.Recipients, Trim, Participants, PreviewOf;
    if Wrote(s, cmd) {
      assert |Send(s, cmd).0.messages| == |s.messages| + 1;
    }
  }

  /** Nothing but this program's own code changes the conversation. */
  ghost predicate Undisturbed(more: seq<Event>, c: ConversationId) {
    forall i :: 0 <= i < |more| && more[i].ChangedOutside? ==> more[i].id != c
  }

  /** Somebody else's message was written to the conversation on the way. */
  ghost predicate OtherSent(w: World, more: seq<Event>, c: ConversationId, id: PrincipalId) {
    if more == [] then false
    else
      var e, before := more[|more| - 1], more[..|more| - 1];
      (e.Sends? && e.command.conversationId == c && e.command.actor != id && Wrote(Run(w, before).store, e.command))
      || OtherSent(w, before, c, id)
  }

  /** The conversation's owner wrote something its customer can see on the way. */
  ghost predicate OwnerReplied(w: World, more: seq<Event>, c: ConversationId, owner: Option<PrincipalId>) {
    if more == [] then false
    else
      var e, before := more[|more| - 1], more[..|more| - 1];
      (e.Sends? && e.command.conversationId == c && Some(e.command.actor) == owner
       && e.command.visibility == CUSTOMER_VISIBLE && Wrote(Run(w, before).store, e.command))
      || OwnerReplied(w, before, c, owner)
  }

  /** One step's hand in a conversation's participants, owner and state. */
  lemma StepTouches(w: World, e: Event, c: ConversationId)
    requires c in w.store.conversations && (e.ChangedOutside? ==> e.id != c)
    ensures var s, t := w.store, Step(w, e).store;
            && c in t.conversations && t.conversations[c].currentOwner == s.conversations[c].currentOwner
            && if e.Sends? && e.command.conversationId == c && Wrote(s, e.command)
               then t.conversations[c].participants == Unarchived(s.conversations[c].participants, e.command.actor)
                    && t.conversations[c].state == Activated(s.conversations[c], e.command)
               else t.conversations[c].participants == s.conversations[c].participants
                    && t.conversations[c].state == s.conversations[c].state
  {
    hide Check, Events, Mentions.Recipients, Trim, Participants, PreviewOf, Unarchived, Activated, Refreshed,
         FindMessage, Replaced;
  }

  /**
   * Nobody misses a message for having archived the thread, and nobody finds it back for any other reason: over
   * any stretch of a run, a live participant has it archived exactly if they had and only their own messages
   * were written meanwhile.
   */
  lemma {:induction false} OthersMessagesUnarchive(w: World, more: seq<Event>, c: ConversationId, k: nat)
    requires c in w.store.conversations && k < |w.store.conversations[c].participants| && Undisturbed(more, c)
    ensures var v := Run(w, more).store;
            && c in v.conversations && |v.conversations[c].participants| == |w.store.conversations[c].participants|
            && var p, q := w.store.conversations[c].participants[k], v.conversations[c].participants[k];
               && q.principalId == p.principalId && q.live == p.live
               && (q.archived <==> p.archived && !(p.live && OtherSent(w, more, c, p.principalId)))
  {
    hide Step, Wrote;
    if more != [] {
      OthersMessagesUnarchive(w, more[..|more| - 1], c, k);
      StepTouches(Run(w, more[..|more| - 1]), more[|more| - 1], c);
    }
  }

  /**
   * Over any stretch of a run an assigned conversation becomes active exactly if its owner has meanwhile written
   * something its customer can see; nothing else moves it on, and nothing moves it back.
   */
  lemma {:induction false} OwnersReplyActivates(w: World, more: seq<Event>, c: ConversationId)
    requires c in w.store.conversations && Undisturbed(more, c)
    ensures var s, v := w.store.conversations, Run(w, more).store.conversations;
            && c in v && v[c].currentOwner == s[c].currentOwner
            && v[c].state == if s[c].state == Some(ASSIGNED) && OwnerReplied(w, more, c, s[c].currentOwner)
                             then Some(ACTIVE) else s[c].state
  {
    hide Step, Wrote;
    if more != [] {
      OwnersReplyActivates(w, more[..|more| - 1], c);
      StepTouches(Run(w, more[..|more| - 1]), more[|more| - 1], c);
    }
  }

  /**
   * Mentions are announced once, in the transaction of their message, and only if they name somebody: every
   * name in the row is a live participant other than the sender.
   */
  lemma MentionedAreLiveAndNotTheSender(s: Store, cmd: Command, id: PrincipalId)
    requires Wrote(s, cmd) && cmd.conversationId in s.conversations
    ensures var (t, r) := Send(s, cmd);
            var row := MessageMentioned(r.message.id, cmd.conversationId, r.message.seqNo, r.mentioned,
              MentionsAll(r.message.mentions));
            && |s.outbox| + 1 <= |t.outbox| <= |s.outbox| + 2 && t.outbox[..|s.outbox|] == s.outbox
            && (|t.outbox| == |s.outbox| + 2 <==> r.mentioned != [])
            && (r.mentioned != [] ==> t.outbox[|s.outbox| + 1] == row)
            && (id in r.mentioned ==> id != cmd.actor && id in r.participants)
            && (id in r.participants <==>
                  exists k :: 0 <= k < |s.conversations[cmd.conversationId].participants|
                              && s.conversations[cmd.conversationId].participants[k].principalId == id
                              && s.conversations[cmd.conversationId].participants[k].live)
  {
    hide FindByClientId, CheckReply, Precheck, Trim, PreviewOf, LiveIds, Mentions.Validate, Mentions.Recipients, Unarchived;
    var live := Participants(s, cmd);
    var mentions := Check(s, cmd).mentions;
    LiveIdsAreLive(s.conversations[cmd.conversationId].participants, id);
    Mentions.RecipientsAreNamed(mentions, live, cmd.actor);
    StoredMentionsNameParticipants(cmd.mentions, mentions, |Trim(cmd.body)|, live,
                                   s.conversations[cmd.conversationId].kind == INTERNAL_GROUP, id);
  }

  lemma StoredMentionsNameParticipants(
      sent: seq<Mentions.Mention>, stored: seq<Mentions.Mention>, length: nat, live: seq<PrincipalId>,
      allowAll: bool, id: PrincipalId)
    requires Mentions.Validate(sent, length, (set p | p in live), allowAll) == Mentions.Accepted(stored)
    ensures (exists m :: m in stored && Mentions.Names(m, live, id)) ==> id in live
  {
    hide Mentions.Validate, Mentions.InOrder;
    Mentions.ValidateIsExact(sent, length, (set p | p in live), allowAll);
    Mentions.AcceptedNamesParticipants(sent, length, live, allowAll, id);
    if m :| m in stored && Mentions.Names(m, live, id) {
      assert m in multiset(stored);
      assert m in multiset(sent);
      assert m in sent;
    }
  }

  // ---------------------------------------------------------------- short runs

  lemma OneMore(w: World, events: seq<Event>, e: Event)
    ensures Run(w, events + [e]) == Step(Run(w, events), e)
  {
    assert (events + [e])[..|events|] == events;
  }

  lemma ThreeEvents(a: Event, b: Event, c: Event)
    ensures Run(NO_MESSAGES, [a, b, c]) == Step(Step(Step(NO_MESSAGES, a), b), c)
  {
    hide Step, Run;
    var none: seq<Event> := [];
    assert Run(NO_MESSAGES, none) == NO_MESSAGES by {
      NoEvents();
    }
    OneMore(NO_MESSAGES, none, a);
    OneMore(NO_MESSAGES, [a], b);
    OneMore(NO_MESSAGES, [a, b], c);
    assert none + [a] == [a] && [a] + [b] == [a, b] && [a, b] + [c] == [a, b, c];
  }

  lemma NoEvents()
    ensures Run(NO_MESSAGES, []) == NO_MESSAGES
  {
  }

  lemma AlreadyTrimmed(s: string)
    requires s != [] && !IsSpace(s[0]) && !IsSpace(s[|s| - 1])
    ensures Trim(s) == s
  {
  }
}
