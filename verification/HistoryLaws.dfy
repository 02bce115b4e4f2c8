/**
 * What corrections and redactions leave behind: a faithful history of every message's texts, and mentions that
 * belong to the first of them.
 */
module HistoryLaws {
  import opened Conversations
  import opened Options
  import opened Messages
  import opened Revisions
  import opened MessageLaws
  import Mentions

  /** A message's own revisions, oldest first. */
  function RevisionsOf(revisions: seq<Revision>, id: MessageId): seq<Revision> {
    if revisions == [] then []
    else
      var before := RevisionsOf(revisions[..|revisions| - 1], id);
      if revisions[|revisions| - 1].messageId == id then before + [revisions[|revisions| - 1]] else before
  }

  function Previous(revisions: seq<Revision>): seq<string> {
    seq(|revisions|, i requires 0 <= i < |revisions| => revisions[i].previousBody)
  }

  /** The history of one message against every text it has really had. */
  ghost predicate Faithful(m: Message, history: seq<Revision>, texts: seq<string>) {
    && Previous(history) + [m.body] == texts
    && (forall k :: 0 <= k < |history| ==> history[k].actor == m.sender)
    && (forall k :: 0 <= k < |history| && !history[k].redaction ==> texts[k] != texts[k + 1])
    && (forall k :: 0 <= k < |history| && history[k].redaction ==> k == |history| - 1)
    && (m.redacted <==> exists k :: 0 <= k < |history| && history[k].redaction)
    && (m.redacted ==> m.body == "")
  }

  ghost predicate HistorySafe(w: World) {
    && (forall i :: 0 <= i < |w.store.messages| ==>
          var m := w.store.messages[i];
          Faithful(m, RevisionsOf(w.store.revisions, m.id), TextsOf(w.texts, m.id)))
    && (forall r :: r in w.store.revisions ==> r.messageId < w.store.nextId)
  }

  lemma RevisionsAppended(revisions: seq<Revision>, r: Revision, id: MessageId)
    ensures RevisionsOf(revisions + [r], id) == RevisionsOf(revisions, id) + if r.messageId == id then [r] else []
  {
    assert (revisions + [r])[..|revisions|] == revisions;
  }

  lemma {:induction false} NoRevisionsYet(revisions: seq<Revision>, id: MessageId)
    requires forall r :: r in revisions ==> r.messageId < id
    ensures RevisionsOf(revisions, id) == []
  {
    if revisions != [] {
      NoRevisionsYet(revisions[..|revisions| - 1], id);
    }
  }

  /** A revised message: one more revision, one more text. */
  lemma RevisedIsFaithful(m: Message, history: seq<Revision>, texts: seq<string>, next: Message, r: Revision)
    requires Faithful(m, history, texts) && !m.redacted && next.sender == m.sender
    requires r.previousBody == m.body && r.actor == m.sender && r.redaction == next.redacted
    requires if next.redacted then next.body == "" else next.body != m.body
    ensures Faithful(next, history + [r], texts + [next.body])
  {
    assert Previous(history + [r]) == Previous(history) + [m.body];
    if next.redacted {
      assert (history + [r])[|history|].redaction;
    }
  }

  function MoreTexts(texts: map<MessageId, seq<string>>, m: Message): map<MessageId, seq<string>> {
    texts[m.id := TextsOf(texts, m.id) + [m.body]]
  }

  /** One message's history, whether it is the revised one or another. */
  lemma OneHistory(w: World, existing: Message, next: Message, r: Revision, m: Message)
    requires Faithful(m, RevisionsOf(w.store.revisions, m.id), TextsOf(w.texts, m.id))
    requires m.id == existing.id ==> m == existing
    requires !existing.redacted && Frame(next) == Frame(existing) && r.actor == existing.sender
    requires r.messageId == existing.id && r.previousBody == existing.body && r.redaction == next.redacted
    requires if next.redacted then next.body == "" else next.body != existing.body
    ensures var n := if m.id == existing.id then next else m;
            Faithful(n, RevisionsOf(w.store.revisions + [r], n.id), TextsOf(MoreTexts(w.texts, next), n.id))
  {
    hide Faithful, RevisionsOf;
    assert next.id == Frame(next).id == existing.id && next.sender == Frame(next).sender == existing.sender;
    RevisionsAppended(w.store.revisions, r, m.id);
    if m.id == existing.id {
      RevisedIsFaithful(m, RevisionsOf(w.store.revisions, m.id), TextsOf(w.texts, m.id), next, r);
    } else {
      assert RevisionsOf(w.store.revisions, m.id) + [] == RevisionsOf(w.store.revisions, m.id);
    }
  }

  lemma ReviseIsFaithful(w: World, cmd: ReviseCommand, existing: Message, next: Message)
    requires HistorySafe(w) && WriteSafe(w.store, Frames(w.store.messages)) && existing in w.store.messages
    requires !existing.redacted && Frame(next) == Frame(existing) && cmd.actor == existing.sender
    requires if next.redacted then next.body == "" else next.body != existing.body
    ensures HistorySafe(World(Revise(w.store, cmd, existing, next), MoreTexts(w.texts, next)))
  {
    hide Refreshed, Faithful, RevisionsOf, TextsOf, MoreTexts, Frame,
         AllNumbered, KeysUnique, RepliesLookBack, OneEventEach, CustomersWriteNoNotes;
    var s, t := w.store, Revise(w.store, cmd, existing, next);
    var r := Revision(existing.id, next.redacted, existing.body, cmd.actor);
    OnlyOneHasTheId(s.messages, s.nextId, existing);
    assert t.revisions == s.revisions + [r];
    forall i | 0 <= i < |t.messages|
      ensures Faithful(t.messages[i], RevisionsOf(t.revisions, t.messages[i].id),
              TextsOf(MoreTexts(w.texts, next), t.messages[i].id))
    {
      OneHistory(w, existing, next, r, s.messages[i]);
    }
    IdIsOld(s, existing);
  }

  lemma IdIsOld(s: Store, m: Message)
    requires IdsIncrease(Frames(s.messages), s.nextId) && m in s.messages
    ensures m.id < s.nextId
  {
    var k :| 0 <= k < |s.messages| && s.messages[k] == m;
    assert Frames(s.messages)[k].id < s.nextId;
  }

  lemma SendIsFaithful(w: World, cmd: Command)
    requires HistorySafe(w) && WriteSafe(w.store, Frames(w.store.messages))
    ensures HistorySafe(Step(w, Sends(cmd)))
  {
    hide Check, Events, Mentions.Recipients, Trim, RevisionsOf, Faithful, AllNumbered, KeysUnique, RepliesLookBack, OneEventEach;
    if Check(w.store, cmd).Proceed? && cmd.conversationId in w.store.conversations {
      var v, m := Step(w, Sends(cmd)), Written(w.store, cmd, Check(w.store, cmd).mentions);
      NoRevisionsYet(w.store.revisions, m.id);
      SentIsFaithful(m);
      forall i | 0 <= i < |v.store.messages|
        ensures var m := v.store.messages[i];
                Faithful(m, RevisionsOf(v.store.revisions, m.id), TextsOf(v.texts, m.id))
      {
        if i < |w.store.messages| {
          assert Frames(w.store.messages)[i].id < m.id;
        }
      }
    }
  }

  lemma SentIsFaithful(m: Message)
    requires !m.redacted
    ensures Faithful(m, [], [m.body])
  {
  }

  lemma StepIsFaithful(w: World, e: Event)
    requires HistorySafe(w) && WriteSafe(w.store, Frames(w.store.messages))
    ensures HistorySafe(Step(w, e))
  {
    hide WriteSafe, Send, FindMessage, Trim, Faithful, Revise;
    match e
    case ChangedOutside(_, _) =>
    case Sends(cmd) => SendIsFaithful(w, cmd);
    case Edits(cmd, text) =>
      if Edit(w.store, cmd, text).1.Revised? {
        FoundIsThere(w.store, cmd.conversationId, cmd.messageId);
        var existing := FindMessage(w.store.messages, cmd.conversationId, cmd.messageId).value;
        ReviseChangesTheStore(w.store, cmd, existing, existing.(body := Trim(text), edited := true));
        ReviseIsFaithful(w, cmd, existing, existing.(body := Trim(text), edited := true));
      }
    case Redacts(cmd) =>
      if Redact(w.store, cmd).1.Revised? {
        FoundIsThere(w.store, cmd.conversationId, cmd.messageId);
        var existing := FindMessage(w.store.messages, cmd.conversationId, cmd.messageId).value;
        if !existing.redacted {
          ReviseChangesTheStore(w.store, cmd, existing, existing.(body := "", redacted := true));
          ReviseIsFaithful(w, cmd, existing, existing.(body := "", redacted := true));
        }
      }
    case Refreshes(_, _) =>
  }

  lemma ReviseChangesTheStore(s: Store, cmd: ReviseCommand, existing: Message, next: Message)
    ensures Revise(s, cmd, existing, next) != s
  {
    hide Refreshed;
    assert |Revise(s, cmd, existing, next).outbox| == |s.outbox| + 1;
  }

  lemma {:induction false} EveryHistoryIsFaithful(events: seq<Event>)
    ensures HistorySafe(Run(NO_MESSAGES, events))
  {
    hide Step;
    if events != [] {
      EveryHistoryIsFaithful(events[..|events| - 1]);
      EveryRunWritesSafely(events[..|events| - 1]);
      StepIsFaithful(Run(NO_MESSAGES, events[..|events| - 1]), events[|events| - 1]);
    }
  }

  /**
   * After any run of sends, corrections and redactions a message's history holds every text it has had: its
   * first revision the text it was sent with, each later one the text its predecessor wrote, and the message
   * the last. No correction repeats what it replaced; there is at most one redaction and nothing follows it.
   */
  lemma HistoryIsFaithful(events: seq<Event>, i: nat)
    ensures var w := Run(NO_MESSAGES, events);
            i < |w.store.messages| ==>
              var m := w.store.messages[i];
              Faithful(m, RevisionsOf(w.store.revisions, m.id), TextsOf(w.texts, m.id))
  {
    hide Run, Faithful;
    EveryHistoryIsFaithful(events);
  }

  /** Redacting again, or correcting what was redacted, changes nothing. */
  lemma RedactionIsFinal(s: Store, cmd: ReviseCommand, text: string)
    requires Redact(s, cmd).1.Revised? && IdsIncrease(Frames(s.messages), s.nextId)
    ensures var t := Redact(s, cmd).0;
            Redact(t, cmd) == (t, Redact(s, cmd).1) && Edit(t, cmd, text).0 == t
  {
    hide Trim;
    var existing := FindMessage(s.messages, cmd.conversationId, cmd.messageId).value;
    FindMessageFinds(s.messages, cmd.conversationId, cmd.messageId);
    if !existing.redacted {
      OnlyOneHasTheId(s.messages, s.nextId, existing);
      var next := existing.(body := "", redacted := true);
      FindReplaced(s.messages, cmd.conversationId, cmd.messageId, next);
    }
  }

  lemma {:induction false} FindReplaced(messages: seq<Message>, c: ConversationId, id: MessageId, next: Message)
    requires next.id == id && next.conversationId == c && FindMessage(messages, c, id).Some?
    requires forall i :: 0 <= i < |messages| && messages[i].id == id ==> messages[i].conversationId == c
    ensures FindMessage(Replaced(messages, id, next), c, id) == Some(next)
  {
    var k := |messages| - 1;
    var replaced := Replaced(messages, id, next);
    if messages[k].id != id {
      FindReplaced(messages[..k], c, id, next);
      assert replaced[..k] == Replaced(messages[..k], id, next);
    }
  }

  // ---------------------------------------------------------------- the mentions

  ghost predicate MentionsFit(m: Message, length: nat) {
    forall k :: 0 <= k < |m.mentions| ==> Mentions.InBody(m.mentions[k], length)
  }

  /** A message's mentions fit the text it was sent with, in reading order and apart. */
  ghost predicate MentionsSentWell(w: World, m: Message) {
    && m.id in w.texts && w.texts[m.id] != [] && MentionsFit(m, |w.texts[m.id][0]|)
    && Mentions.InOrder(m.mentions) && Mentions.AllApart(m.mentions)
  }

  ghost predicate MentionsFitWhatWasSent(w: World) {
    forall i :: 0 <= i < |w.store.messages| ==> MentionsSentWell(w, w.store.messages[i])
  }

  lemma SentMentionsFit(s: Store, cmd: Command)
    requires Check(s, cmd).Proceed? && cmd.conversationId in s.conversations
    ensures var mentions := Check(s, cmd).mentions;
            MentionsFit(Written(s, cmd, mentions), |Trim(cmd.body)|) && Mentions.InOrder(mentions) && Mentions.AllApart(mentions)
  {
    hide Trim, FindByClientId, CheckReply, Precheck, Participants,
         Mentions.AllApart, Mentions.InOrder, Mentions.SortByOffset, Mentions.Scan;
    var allowAll := s.conversations[cmd.conversationId].kind == INTERNAL_GROUP;
    var mentions := Check(s, cmd).mentions;
    Mentions.ValidateIsExact(cmd.mentions, |Trim(cmd.body)|, (set p | p in Participants(s, cmd)), allowAll);
    Mentions.ApartInAnyOrder(cmd.mentions, mentions);
    Mentions.GoodInAnyOrder(cmd.mentions, mentions, |Trim(cmd.body)|, (set p | p in Participants(s, cmd)), allowAll);
  }

  lemma SendKeepsMentions(w: World, cmd: Command)
    requires MentionsFitWhatWasSent(w) && IdsIncrease(Frames(w.store.messages), w.store.nextId)
    ensures MentionsFitWhatWasSent(Step(w, Sends(cmd)))
  {
    hide Check, Events, Mentions.Recipients, Mentions.InOrder, Mentions.AllApart, MentionsFit, Trim, Participants;
    if Check(w.store, cmd).Proceed? && cmd.conversationId in w.store.conversations {
      SentMentionsFit(w.store, cmd);
      forall i | 0 <= i < |w.store.messages|
        ensures w.store.messages[i].id != w.store.nextId
      {
        assert Frames(w.store.messages)[i].id < w.store.nextId;
      }
    }
  }

  lemma StepKeepsMentions(w: World, e: Event)
    requires MentionsFitWhatWasSent(w) && WriteSafe(w.store, Frames(w.store.messages))
    ensures MentionsFitWhatWasSent(Step(w, e))
  {
    hide Send, MentionsSentWell, Trim, FindMessage, Refreshed,
         AllNumbered, KeysUnique, RepliesLookBack, OneEventEach, CustomersWriteNoNotes;
    match e
    case ChangedOutside(id, c) => SameMessages(w, Step(w, e));
    case Sends(cmd) => SendKeepsMentions(w, cmd);
    case Edits(cmd, text) =>
      if Edit(w.store, cmd, text).1.Revised? {
        RevisionKeepsMentions(w, cmd, Edit(w.store, cmd, text).0, Edit(w.store, cmd, text).1.message);
      } else {
        SameMessages(w, Step(w, e));
      }
    case Redacts(cmd) =>
      if Redact(w.store, cmd).1.Revised? {
        RevisionKeepsMentions(w, cmd, Redact(w.store, cmd).0, Redact(w.store, cmd).1.message);
      } else {
        SameMessages(w, Step(w, e));
      }
    case Refreshes(_, _) => SameMessages(w, Step(w, e));
  }

  lemma SameMessages(w: World, v: World)
    requires MentionsFitWhatWasSent(w) && v.store.messages == w.store.messages && v.texts == w.texts
    ensures MentionsFitWhatWasSent(v)
  {
  }

  lemma RevisionKeepsMentions(w: World, cmd: ReviseCommand, store: Store, next: Message)
    requires MentionsFitWhatWasSent(w) && WriteSafe(w.store, Frames(w.store.messages))
    requires FindMessage(w.store.messages, cmd.conversationId, cmd.messageId).Some?
    requires var existing := FindMessage(w.store.messages, cmd.conversationId, cmd.messageId).value;
             Frame(next) == Frame(existing)
             && (store.messages == w.store.messages || store.messages == Replaced(w.store.messages, existing.id, next))
    ensures MentionsFitWhatWasSent(Told(w, store, Revised(next)))
  {
    hide FindMessage, Mentions.InBody, Mentions.InOrder, Mentions.AllApart,
         AllNumbered, KeysUnique, RepliesLookBack, OneEventEach, CustomersWriteNoNotes;
    FoundIsThere(w.store, cmd.conversationId, cmd.messageId);
    var existing := FindMessage(w.store.messages, cmd.conversationId, cmd.messageId).value;
    OnlyOneHasTheId(w.store.messages, w.store.nextId, existing);
    assert next.mentions == Frame(next).mentions == existing.mentions && next.id == Frame(next).id == existing.id;
  }

  /** Over any run, every stored mention lies within the text its message was first sent with. */
  lemma {:induction false} MentionsFitTheFirstText(events: seq<Event>)
    ensures MentionsFitWhatWasSent(Run(NO_MESSAGES, events))
  {
    hide Step;
    if events != [] {
      MentionsFitTheFirstText(events[..|events| - 1]);
      EveryRunWritesSafely(events[..|events| - 1]);
      StepKeepsMentions(Run(NO_MESSAGES, events[..|events| - 1]), events[|events| - 1]);
    }
  }

  /** Where the last of some mentions in reading order ends. */
  function LastEnd(mentions: seq<Mentions.Mention>): int {
    if mentions == [] then 0 else mentions[|mentions| - 1].offset + mentions[|mentions| - 1].length
  }

  lemma NoneEndsLater(m: Message, length: nat, k: nat)
    requires MentionsFit(m, length) && Mentions.InOrder(m.mentions) && Mentions.AllApart(m.mentions) && k < |m.mentions|
    ensures m.mentions[k].offset + m.mentions[k].length <= LastEnd(m.mentions)
  {
    var last := |m.mentions| - 1;
    assert Mentions.InBody(m.mentions[k], length) && Mentions.InBody(m.mentions[last], length);
    if k < last {
      assert Mentions.Apart(m.mentions[k], m.mentions[last]);
    }
  }

  /**
   * A correction keeps the mentions and does not check them against its text. Over any run: when it goes
   * through they fit what it wrote exactly if the last one, in reading order, ends within the trimmed text.
   */
  lemma CorrectedMentionsMayDangle(events: seq<Event>, i: nat, cmd: ReviseCommand, text: string)
    requires var s := Run(NO_MESSAGES, events).store;
             i < |s.messages| && Edit(s, cmd, text).1.Revised? && cmd.messageId == s.messages[i].id
    ensures var s := Run(NO_MESSAGES, events).store;
            var m := Edit(s, cmd, text).1.message;
            && m.body == Trim(text) && m.mentions == s.messages[i].mentions
            && (MentionsFit(m, |m.body|) <==> LastEnd(s.messages[i].mentions) <= |Trim(text)|)
  {
    hide Run, Step, Trim, FindMessage, Mentions.InOrder, Mentions.AllApart,
         AllNumbered, KeysUnique, RepliesLookBack, OneEventEach, CustomersWriteNoNotes;
    var w := Run(NO_MESSAGES, events);
    EveryRunWritesSafely(events);
    MentionsFitTheFirstText(events);
    FindMessageFinds(w.store.messages, cmd.conversationId, cmd.messageId);
    OnlyOneHasTheId(w.store.messages, w.store.nextId, w.store.messages[i]);
    var sent := w.store.messages[i];
    assert MentionsSentWell(w, sent);
    forall k | 0 <= k < |sent.mentions|
      ensures Mentions.InBody(sent.mentions[k], |w.texts[sent.id][0]|)
      ensures sent.mentions[k].offset + sent.mentions[k].length <= LastEnd(sent.mentions)
    {
      NoneEndsLater(sent, |w.texts[sent.id][0]|, k);
    }
    if sent.mentions != [] {
      assert sent.mentions[|sent.mentions| - 1] in sent.mentions;
    }
  }

  // ---------------------------------------------------------------- a mention that dangles

  /** A group of two. */
  const GROUP := Conversation(INTERNAL_GROUP, None, None, [Participant("a", true, false), Participant("b", true, false)], 0, "")

  const HI_B := Command("g", "a", EMPLOYEE, "A", "@b hi", INTERNAL, None, None, [Mentions.PRINCIPAL("b", 0, 2)], false,
                        (action: Action) => true)

  lemma BIsThere()
    ensures LiveIds(GROUP.participants) == ["a", "b"]
  {
    var a := GROUP.participants[0];
    assert GROUP.participants[..1] == [a] && [a][..0] == [];
    assert LiveIds([a]) == ["a"];
  }

  lemma OneMentionIsAccepted(m: Mentions.Mention, length: nat, participants: set<PrincipalId>)
    requires m.PRINCIPAL? && m.principalId in participants && Mentions.InBody(m, length)
    ensures Mentions.Validate([m], length, participants, true) == Mentions.Accepted([m])
  {
    hide Mentions.Validate;
    Mentions.ValidateIsExact([m], length, participants, true);
    var stored := Mentions.Validate([m], length, participants, true).mentions;
    assert |multiset(stored)| == |multiset([m])| == 1;
    assert stored[0] in multiset([m]);
  }

  lemma HiIsSent(s: Store)
    requires s == Messages.EMPTY.(conversations := map["g" := GROUP])
    ensures Check(s, HI_B) == Proceed(HI_B.mentions)
  {
    hide LiveIds, Trim, Mentions.Validate;
    BIsThere();
    AlreadyTrimmed("@b hi");
    assert Precheck(HI_B).None? && CheckReply(s, HI_B).None?;
    assert "b" in Participants(s, HI_B);
    OneMentionIsAccepted(HI_B.mentions[0], |Trim(HI_B.body)|, (set p | p in Participants(s, HI_B)));
  }

  /** The mention of b stays at the first two characters of a text that is now one long. */
  lemma ADanglingMention()
    ensures var edit := ReviseCommand("g", 0, "a", (id: MessageId) => "");
            var messages := Run(NO_MESSAGES, [ChangedOutside("g", GROUP), Sends(HI_B), Edits(edit, "x")]).store.messages;
            && |messages| == 1 && messages[0].body == "x" && messages[0].mentions == HI_B.mentions
            && !MentionsFit(messages[0], |messages[0].body|)
  {
    hide Run, Check, Trim, Events, Mentions.Recipients, Refreshed;
    var edit := ReviseCommand("g", 0, "a", (id: MessageId) => "");
    ThreeEvents(ChangedOutside("g", GROUP), Sends(HI_B), Edits(edit, "x"));
    var s := Step(NO_MESSAGES, ChangedOutside("g", GROUP)).store;
    HiIsSent(s);
    AlreadyTrimmed("@b hi");
    AlreadyTrimmed("x");
    var sent := Send(s, HI_B).0;
    assert sent.messages == [Written(s, HI_B, HI_B.mentions)];
    var m := Written(s, HI_B, HI_B.mentions).(body := "x", edited := true);
    assert Edit(sent, edit, "x").1 == Revised(m);
    assert Edit(sent, edit, "x").0.messages == [m];
    assert !Mentions.InBody(m.mentions[0], 1);
  }
}
