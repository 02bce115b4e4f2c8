/**
 * What a customer conversation shows in a list. A send keeps notes out of it; recomputing it, which a
 * correction, a redaction and the binding of an attachment do, takes the newest message left, note or not.
 */
module PreviewLaws {
  import opened Conversations
  import opened Options
  import opened Messages
  import opened Revisions
  import opened MessageLaws
  import Mentions

  type Captions = MessageId -> string

  // ---------------------------------------------------------------- sends alone

  /** What a customer conversation shows in a list is empty, or the start of something its customer may read. */
  ghost predicate PreviewSafe(s: Store) {
    forall c :: c in s.conversations && !IsInternal(s.conversations[c].kind) && s.conversations[c].preview != "" ==>
      exists i :: 0 <= i < |s.messages| && s.messages[i].conversationId == c && s.messages[i].visibility == CUSTOMER_VISIBLE
                  && s.conversations[c].preview == PreviewOf(s.messages[i].body)
  }

  lemma SendKeepsPreviews(s: Store, cmd: Command)
    requires PreviewSafe(s)
    ensures PreviewSafe(Send(s, cmd).0)
  {
    hide Check, Events, Mentions.Recipients, Trim, PreviewOf, IsInternal, Participants;
    if Check(s, cmd).Proceed? && cmd.conversationId in s.conversations {
      var mentions := Check(s, cmd).mentions;
      var t, m := Write(s, cmd, mentions), Written(s, cmd, mentions);
      forall c | c in t.conversations && !IsInternal(t.conversations[c].kind) && t.conversations[c].preview != ""
        ensures exists i :: 0 <= i < |t.messages|
                            && t.messages[i].conversationId == c && t.messages[i].visibility == CUSTOMER_VISIBLE
                            && t.conversations[c].preview == PreviewOf(t.messages[i].body)
      {
        if c == cmd.conversationId {
          assert t.messages[|s.messages|] == m;
        } else {
          var i :| 0 <= i < |s.messages| && s.messages[i].conversationId == c && s.messages[i].visibility == CUSTOMER_VISIBLE
                   && s.conversations[c].preview == PreviewOf(s.messages[i].body);
          assert t.messages[i] == s.messages[i];
        }
      }
    }
  }

  /** While messages are only sent, no internal note's text ever reaches the preview of a customer conversation. */
  lemma {:induction false} SendsNeverShowNotes(events: seq<Event>)
    requires forall i :: 0 <= i < |events| ==> events[i].Sends? || events[i].ChangedOutside?
    ensures PreviewSafe(Run(NO_MESSAGES, events).store)
  {
    hide Send;
    if events != [] {
      var before, last := Run(NO_MESSAGES, events[..|events| - 1]), events[|events| - 1];
      SendsNeverShowNotes(events[..|events| - 1]);
      if last.Sends? {
        SendKeepsPreviews(before.store, last.command);
      }
    }
  }

  // ---------------------------------------------------------------- whose text it is

  /** A preview could have been taken from a message: from its text, or from its caption if it has none. */
  predicate ReadsLike(m: Message, preview: string, captions: Captions) {
    preview != "" && (preview <= m.body || (m.body == "" && preview == captions(m.id)))
  }

  /** A message of the conversation, not redacted, that reads like its preview. */
  ghost predicate Shown(messages: seq<Message>, c: ConversationId, preview: string, captions: Captions, i: nat) {
    i < |messages| && messages[i].conversationId == c && !messages[i].redacted && ReadsLike(messages[i], preview, captions)
  }

  /** The preview reads like a note, and like nothing later that the customer may see. */
  ghost predicate NoteShown(messages: seq<Message>, c: ConversationId, preview: string, captions: Captions) {
    exists i: nat :: Shown(messages, c, preview, captions, i) && messages[i].visibility == INTERNAL
      && forall j: nat :: Shown(messages, c, preview, captions, j) && messages[j].visibility == CUSTOMER_VISIBLE ==> j < i
  }

  /** The newest message left unredacted is a note with something to show. */
  predicate NoteIsNewest(messages: seq<Message>, c: ConversationId, captions: Captions) {
    var newest := Newest(messages, c);
    newest.Some? && newest.value.visibility == INTERNAL && (newest.value.body != "" || captions(newest.value.id) != "")
  }

  lemma {:induction false} NewestIsLast(messages: seq<Message>, c: ConversationId)
    ensures match Newest(messages, c)
            case None => forall i :: 0 <= i < |messages| && messages[i].conversationId == c ==> messages[i].redacted
            case Some(m) =>
              exists k :: 0 <= k < |messages| && messages[k] == m && m.conversationId == c && !m.redacted
                && forall i :: k < i < |messages| && messages[i].conversationId == c ==> messages[i].redacted
  {
    if messages != [] && !(messages[|messages| - 1].conversationId == c && !messages[|messages| - 1].redacted) {
      NewestIsLast(messages[..|messages| - 1], c);
    }
  }

  /** A preview just recomputed carries a note exactly when the newest message left is one. */
  lemma RefreshedShowsTheNewest(messages: seq<Message>, c: ConversationId, captions: Captions)
    ensures NoteShown(messages, c, Refreshed(messages, c, captions), captions) <==> NoteIsNewest(messages, c, captions)
  {
    hide Newest;
    var p := Refreshed(messages, c, captions);
    NewestIsLast(messages, c);
    if Newest(messages, c).Some? {
      var m := Newest(messages, c).value;
      var k: nat :| k < |messages| && messages[k] == m && m.conversationId == c && !m.redacted
        && forall i :: k < i < |messages| && messages[i].conversationId == c ==> messages[i].redacted;
      assert p != "" <==> m.body != "" || captions(m.id) != "";
      assert p != "" ==> Shown(messages, c, p, captions, k);
      assert forall j: nat :: Shown(messages, c, p, captions, j) ==> j <= k;
    }
  }

  /** A preview just sent never does, whatever the captions. */
  lemma SentShowsNoNote(messages: seq<Message>, m: Message, captions: Captions)
    requires !m.redacted
    ensures var preview := if m.visibility == INTERNAL then "" else PreviewOf(m.body);
            !NoteShown(messages + [m], m.conversationId, preview, captions)
  {
    var preview := if m.visibility == INTERNAL then "" else PreviewOf(m.body);
    if preview != "" {
      assert Shown(messages + [m], m.conversationId, preview, captions, |messages|);
    }
  }

  // ---------------------------------------------------------------- what happens elsewhere

  /** One conversation's messages are the same in both, at the same places. */
  ghost predicate SameIn(a: seq<Message>, b: seq<Message>, c: ConversationId) {
    && |a| <= |b|
    && (forall i :: 0 <= i < |a| ==> a[i] == b[i] || (a[i].conversationId != c && b[i].conversationId != c))
    && (forall i :: |a| <= i < |b| ==> b[i].conversationId != c)
  }

  lemma {:induction false} NewestIsSame(a: seq<Message>, b: seq<Message>, c: ConversationId)
    requires SameIn(a, b, c)
    ensures Newest(b, c) == Newest(a, c)
    decreases |b|
  {
    if |b| > |a| {
      NewestIsSame(a, b[..|b| - 1], c);
    } else if |b| > 0 {
      NewestIsSame(a[..|a| - 1], b[..|b| - 1], c);
    }
  }

  lemma NoteShownIsSame(a: seq<Message>, b: seq<Message>, c: ConversationId, preview: string, captions: Captions)
    requires SameIn(a, b, c)
    ensures NoteShown(b, c, preview, captions) <==> NoteShown(a, c, preview, captions)
  {
    hide ReadsLike;
    assert forall i: nat :: Shown(b, c, preview, captions, i) <==> Shown(a, c, preview, captions, i);
    assert forall i: nat :: Shown(a, c, preview, captions, i) ==> a[i] == b[i];
  }

  /** A successful change of a message's text. */
  predicate Changed(w: World, e: Event) {
    match e
    case Edits(cmd, text) => Edit(w.store, cmd, text).1.Revised?
    case Redacts(cmd) => Redact(w.store, cmd).1.Revised? && Redact(w.store, cmd).0 != w.store
    case _ => false
  }

  /** The event recomputes the conversation's preview; the captions are those it finds. */
  ghost predicate Recomputes(w: World, e: Event, c: ConversationId) {
    match e
    case Edits(cmd, _) => cmd.conversationId == c && Changed(w, e)
    case Redacts(cmd) => cmd.conversationId == c && Changed(w, e)
    case Refreshes(id, _) => id == c && c in w.store.conversations
    case _ => false
  }

  ghost predicate SendsTo(w: World, e: Event, c: ConversationId) {
    e.Sends? && e.command.conversationId == c && Wrote(w.store, e.command)
  }

  function CaptionsOf(e: Event): Captions {
    match e
    case Edits(cmd, _) => cmd.caption
    case Redacts(cmd) => cmd.caption
    case Refreshes(_, caption) => caption
    case _ => (id: MessageId) => ""
  }

  /** The captions with which the conversation's preview was last recomputed, if that was after its last message. */
  ghost function LastRecomputed(events: seq<Event>, c: ConversationId): Option<Captions> {
    if events == [] then None
    else
      var w, e := Run(NO_MESSAGES, events[..|events| - 1]), events[|events| - 1];
      if Recomputes(w, e, c) then Some(CaptionsOf(e))
      else if SendsTo(w, e, c) then None
      else LastRecomputed(events[..|events| - 1], c)
  }

  lemma RevisionIsElsewhere(w: World, cmd: ReviseCommand, next: Message, c: ConversationId)
    requires WriteSafe(w.store, Frames(w.store.messages)) && cmd.conversationId != c
    requires FindMessage(w.store.messages, cmd.conversationId, cmd.messageId).Some?
    requires next.conversationId == cmd.conversationId
    ensures var existing := FindMessage(w.store.messages, cmd.conversationId, cmd.messageId).value;
            SameIn(w.store.messages, Revise(w.store, cmd, existing, next).messages, c)
  {
    hide FindMessage, Refreshed, AllNumbered, KeysUnique, RepliesLookBack, OneEventEach, CustomersWriteNoNotes;
    FindMessageFinds(w.store.messages, cmd.conversationId, cmd.messageId);
    var existing := FindMessage(w.store.messages, cmd.conversationId, cmd.messageId).value;
    OnlyOneHasTheId(w.store.messages, w.store.nextId, existing);
  }

  lemma PreviewElsewhere(s: Store, cmd: ReviseCommand, existing: Message, next: Message, c: ConversationId)
    requires cmd.conversationId != c && c in s.conversations
    ensures var t := Revise(s, cmd, existing, next); c in t.conversations && t.conversations[c] == s.conversations[c]
  {
  }

  /** A step that neither writes to the conversation nor recomputes its preview changes neither. */
  lemma ElsewhereKeeps(w: World, e: Event, c: ConversationId)
    requires WriteSafe(w.store, Frames(w.store.messages)) && c in w.store.conversations
    requires !Recomputes(w, e, c) && !SendsTo(w, e, c)
    ensures var s, t := w.store, Step(w, e).store;
            && SameIn(s.messages, t.messages, c) && c in t.conversations
            && t.conversations[c].preview == s.conversations[c].preview
            && IsInternal(t.conversations[c].kind) == IsInternal(s.conversations[c].kind)
  {
    hide WriteSafe, Check, Events, Mentions.Recipients, Participants, Unarchived, Activated, Touched, Trim, FindMessage,
         Refreshed, Revise, IsInternal;
    match e
    case ChangedOutside(_, _) =>
    case Sends(cmd) =>
    case Refreshes(_, _) =>
    case Edits(cmd, text) =>
      if Changed(w, e) {
        FindMessageFinds(w.store.messages, cmd.conversationId, cmd.messageId);
        var existing := FindMessage(w.store.messages, cmd.conversationId, cmd.messageId).value;
        RevisionIsElsewhere(w, cmd, existing.(body := Trim(text), edited := true), c);
        PreviewElsewhere(w.store, cmd, existing, existing.(body := Trim(text), edited := true), c);
      }
    case Redacts(cmd) =>
      if Changed(w, e) {
        FindMessageFinds(w.store.messages, cmd.conversationId, cmd.messageId);
        var existing := FindMessage(w.store.messages, cmd.conversationId, cmd.messageId).value;
        RevisionIsElsewhere(w, cmd, existing.(body := "", redacted := true), c);
        PreviewElsewhere(w.store, cmd, existing, existing.(body := "", redacted := true), c);
      }
  }

  // ---------------------------------------------------------------- over whole runs

  /** What a step that recomputes leaves there. */
  lemma RecomputedIsRefreshed(w: World, e: Event, c: ConversationId)
    requires c in w.store.conversations && Recomputes(w, e, c)
    ensures var t := Step(w, e).store;
            && c in t.conversations && t.conversations[c].preview == Refreshed(t.messages, c, CaptionsOf(e))
            && t.conversations[c].kind == w.store.conversations[c].kind
  {
    hide Refreshed, Trim, FindMessage, Replaced;
  }

  lemma SentIsTouched(w: World, e: Event, c: ConversationId)
    requires SendsTo(w, e, c)
    ensures var s, t := w.store, Step(w, e).store;
            && c in s.conversations && c in t.conversations && t.conversations[c].kind == s.conversations[c].kind
            && exists m: Message :: t.messages == s.messages + [m] && m.conversationId == c && !m.redacted
                           && t.conversations[c].preview == Touched(s.conversations[c], m)
  {
    hide Check, Events, Mentions.Recipients, Participants, Unarchived, Activated, Touched, Trim;
    var m := Written(w.store, e.command, Check(w.store, e.command).mentions);
    assert Step(w, e).store.messages == w.store.messages + [m];
  }

  lemma NotOpenedYet(s: Store, c: ConversationId)
    requires WriteSafe(s, Frames(s.messages)) && c !in s.conversations
    ensures forall i :: 0 <= i < |s.messages| ==> s.messages[i].conversationId != c
  {
    assert Numbered(s, Frames(s.messages), c);
    forall i | 0 <= i < |s.messages|
      ensures s.messages[i].conversationId != c
    {
      if s.messages[i].conversationId == c {
        ThreadIsFrom(Frames(s.messages), c, i);
      }
    }
  }

  /**
   * When a note is shown, over any run of sends, corrections, redactions, refreshes and outside changes: never
   * while the last thing to touch the conversation's preview was a message; and once it has been recomputed
   * since, exactly if the newest message left unredacted is a note with something to show, which is then
   * what the preview says.
   */
  lemma {:induction false} NotesShowExactlyWhen(events: seq<Event>, c: ConversationId, captions: Captions)
    requires c in Run(NO_MESSAGES, events).store.conversations
    requires !IsInternal(Run(NO_MESSAGES, events).store.conversations[c].kind)
    ensures var s, last := Run(NO_MESSAGES, events).store, LastRecomputed(events, c);
            && (last.None? ==> !NoteShown(s.messages, c, s.conversations[c].preview, captions))
            && (last == Some(captions) ==>
                  s.conversations[c].preview == Refreshed(s.messages, c, captions)
                  && (NoteShown(s.messages, c, s.conversations[c].preview, captions) <==> NoteIsNewest(s.messages, c, captions)))
  {
    hide Step, WriteSafe, NoteShown, NoteIsNewest, Refreshed, Recomputes, SendsTo, CaptionsOf, SameIn, PreviewOf, IsInternal;
    if events != [] {
      var before, e := events[..|events| - 1], events[|events| - 1];
      var w, v := Run(NO_MESSAGES, before), Run(NO_MESSAGES, events);
      EveryRunWritesSafely(before);
      if c !in w.store.conversations {
        JustOpened(w, e, c, captions);
      } else if Recomputes(w, e, c) {
        RecomputedIsRefreshed(w, e, c);
        RefreshedShowsTheNewest(v.store.messages, c, CaptionsOf(e));
      } else if SendsTo(w, e, c) {
        SentIsTouched(w, e, c);
        var m: Message :| v.store.messages == w.store.messages + [m] && m.conversationId == c && !m.redacted
          && v.store.conversations[c].preview == Touched(w.store.conversations[c], m);
        SentShowsNoNote(w.store.messages, m, captions);
      } else {
        ElsewhereKeeps(w, e, c);
        NotesShowExactlyWhen(before, c, captions);
        NoteShownIsSame(w.store.messages, v.store.messages, c, v.store.conversations[c].preview, captions);
        RefreshedIsSame(w.store.messages, v.store.messages, c, captions);
      }
    }
  }

  lemma RefreshedIsSame(a: seq<Message>, b: seq<Message>, c: ConversationId, captions: Captions)
    requires SameIn(a, b, c)
    ensures Refreshed(b, c, captions) == Refreshed(a, c, captions)
    ensures NoteIsNewest(b, c, captions) <==> NoteIsNewest(a, c, captions)
  {
    hide Newest, SameIn;
    NewestIsSame(a, b, c);
  }

  lemma OnlyOutsideOpens(w: World, e: Event, c: ConversationId)
    requires c !in w.store.conversations && c in Step(w, e).store.conversations
    ensures e.ChangedOutside? && Step(w, e).store.conversations[c].preview == "" && Step(w, e).store.messages == w.store.messages
  {
    hide Check, Events, Mentions.Recipients, Participants, Unarchived, Activated, Touched, FindMessage, Refreshed, Trim;
  }

  lemma JustOpened(w: World, e: Event, c: ConversationId, captions: Captions)
    requires WriteSafe(w.store, Frames(w.store.messages)) && c !in w.store.conversations && c in Step(w, e).store.conversations
    ensures var t := Step(w, e).store;
            && !NoteShown(t.messages, c, t.conversations[c].preview, captions) && !NoteIsNewest(t.messages, c, captions)
            && t.conversations[c].preview == Refreshed(t.messages, c, captions)
  {
    hide WriteSafe, Step, Newest;
    OnlyOutsideOpens(w, e, c);
    NotOpenedYet(w.store, c);
    NewestIsLast(w.store.messages, c);
  }

  // ---------------------------------------------------------------- a run that shows one

  const TICKET := Conversation(CUSTOMER_CONVERSATION, Some(NEW), None, [], 0, "")

  function Says(body: string, visibility: Visibility): Command {
    Command("t", "a", EMPLOYEE, "A", body, visibility, None, None, [], false, (action: Action) => true)
  }

  const REVISE_FIRST := ReviseCommand("t", 0, "a", (id: MessageId) => "")

  lemma SaysIsSent(s: Store, body: string, visibility: Visibility)
    requires "t" in s.conversations && s.conversations["t"].kind == CUSTOMER_CONVERSATION
    requires 0 < |body| < 100 && !IsSpace(body[0]) && !IsSpace(body[|body| - 1])
    ensures var t, m := Send(s, Says(body, visibility)).0, Written(s, Says(body, visibility), []);
            && t.messages == s.messages + [m] && m.body == body && t.nextId == s.nextId + 1
            && "t" in t.conversations && t.conversations["t"].kind == CUSTOMER_CONVERSATION
  {
    hide Trim, LiveIds, Mentions.Recipients, Unarchived;
    AlreadyTrimmed(body);
    assert Check(s, Says(body, visibility)) == Proceed([]);
  }

  /** A reply, a note, and then the reply is corrected or redacted: the customer's list shows the note. */
  lemma ACorrectionShowsTheNote(redacts: bool)
    ensures var revision := if redacts then Redacts(REVISE_FIRST) else Edits(REVISE_FIRST, "hi");
            var s := Run(NO_MESSAGES, [ChangedOutside("t", TICKET), Sends(Says("hello", CUSTOMER_VISIBLE)),
                                       Sends(Says("fraud?", INTERNAL)), revision]).store;
            && "t" in s.conversations && !IsInternal(s.conversations["t"].kind) && s.conversations["t"].preview == "fraud?"
            && NoteShown(s.messages, "t", "fraud?", REVISE_FIRST.caption)
  {
    hide Run, Step, NoteShown, Refreshed, Newest;
    var revision := if redacts then Redacts(REVISE_FIRST) else Edits(REVISE_FIRST, "hi");
    var sent := [ChangedOutside("t", TICKET), Sends(Says("hello", CUSTOMER_VISIBLE)), Sends(Says("fraud?", INTERNAL))];
    ThreeEvents(sent[0], sent[1], sent[2]);
    OneMore(NO_MESSAGES, sent, revision);
    assert sent + [revision] == [sent[0], sent[1], sent[2], revision];
    AReplyAndANote();
    var w := Run(NO_MESSAGES, sent);
    RevisedFirst(w, revision);
    var s := Step(w, revision).store;
    NewestOfTwo(s.messages);
    RefreshedShowsTheNewest(s.messages, "t", REVISE_FIRST.caption);
    assert Refreshed(s.messages, "t", REVISE_FIRST.caption) == "fraud?" by {
      TextOfTheNewest(s.messages, REVISE_FIRST.caption);
    }
  }

  /** The two messages as they were sent. */
  predicate ReplyThenNote(s: Store) {
    && "t" in s.conversations && s.conversations["t"].kind == CUSTOMER_CONVERSATION && |s.messages| == 2
    && s.messages[0].id == 0 && s.messages[0].conversationId == "t" && s.messages[0].sender == "a"
    && s.messages[0].body == "hello" && !s.messages[0].redacted
    && NoteOfT(s.messages[1])
  }

  predicate NoteOfT(m: Message) {
    m.id == 1 && m.conversationId == "t" && m.body == "fraud?" && m.visibility == INTERNAL && !m.redacted
  }

  lemma AReplyAndANote()
    ensures var begun := Step(NO_MESSAGES, ChangedOutside("t", TICKET));
            ReplyThenNote(Step(Step(begun, Sends(Says("hello", CUSTOMER_VISIBLE))), Sends(Says("fraud?", INTERNAL))).store)
  {
    hide Send;
    var w := Step(NO_MESSAGES, ChangedOutside("t", TICKET));
    SaysIsSent(w.store, "hello", CUSTOMER_VISIBLE);
    var v := Step(w, Sends(Says("hello", CUSTOMER_VISIBLE)));
    SaysIsSent(v.store, "fraud?", INTERNAL);
  }

  lemma RevisedFirst(w: World, revision: Event)
    requires ReplyThenNote(w.store) && revision in {Redacts(REVISE_FIRST), Edits(REVISE_FIRST, "hi")}
    ensures var t := Step(w, revision).store;
            && "t" in t.conversations && t.conversations["t"].kind == CUSTOMER_CONVERSATION
            && t.conversations["t"].preview == Refreshed(t.messages, "t", REVISE_FIRST.caption)
            && |t.messages| == 2 && NoteOfT(t.messages[1])
  {
    hide Refreshed, Trim;
    AlreadyTrimmed("hi");
    var messages := w.store.messages;
    assert messages[..1] == [messages[0]];
    assert FindMessage(messages, "t", 0) == Some(messages[0]);
  }

  lemma NewestOfTwo(messages: seq<Message>)
    requires |messages| == 2 && NoteOfT(messages[1])
    ensures Newest(messages, "t") == Some(messages[1])
  {
  }

  lemma TextOfTheNewest(messages: seq<Message>, captions: Captions)
    requires |messages| == 2 && NoteOfT(messages[1])
    ensures Refreshed(messages, "t", captions) == "fraud?"
  {
  }
}
