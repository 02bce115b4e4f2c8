/**
 * What corrections and redactions are answered and what they write, said of the messages alone.
 */
module ReviseLaws {
  import opened Conversations
  import opened Options
  import opened Messages
  import opened MessageLaws
  import opened Revisions

  /** The message the command is about stands at a place. */
  predicate IsAt(s: Store, cmd: ReviseCommand, i: int) {
    0 <= i < |s.messages| && s.messages[i].conversationId == cmd.conversationId && s.messages[i].id == cmd.messageId
  }

  ghost predicate IsThere(s: Store, cmd: ReviseCommand) {
    exists i :: IsAt(s, cmd, i)
  }

  /** At most one message has the id, and the lookup finds it. */
  lemma OneIsAt(events: seq<Event>, cmd: ReviseCommand, i: int)
    requires IsAt(Run(NO_MESSAGES, events).store, cmd, i)
    ensures var s := Run(NO_MESSAGES, events).store;
            && FindMessage(s.messages, cmd.conversationId, cmd.messageId) == Some(s.messages[i])
            && forall j :: 0 <= j < |s.messages| && j != i ==> s.messages[j].id != cmd.messageId
  {
    hide Run, AllNumbered, KeysUnique, RepliesLookBack, OneEventEach, CustomersWriteNoNotes;
    var s := Run(NO_MESSAGES, events).store;
    EveryRunWritesSafely(events);
    FindMessageFinds(s.messages, cmd.conversationId, cmd.messageId);
    OnlyOneHasTheId(s.messages, s.nextId, s.messages[i]);
    forall j | 0 <= j < |s.messages| && j != i
      ensures s.messages[j].id != cmd.messageId
    {
      assert Frames(s.messages)[j].id == s.messages[j].id && Frames(s.messages)[i].id == s.messages[i].id;
    }
  }

  lemma NoneIsThere(s: Store, cmd: ReviseCommand)
    ensures FindMessage(s.messages, cmd.conversationId, cmd.messageId).None? <==> !IsThere(s, cmd)
  {
    FindMessageFinds(s.messages, cmd.conversationId, cmd.messageId);
    if IsThere(s, cmd) {
      var i :| IsAt(s, cmd, i);
    }
    if FindMessage(s.messages, cmd.conversationId, cmd.messageId).Some? {
      var i :| 0 <= i < |s.messages|
        && s.messages[i] == FindMessage(s.messages, cmd.conversationId, cmd.messageId).value
        && s.messages[i].conversationId == cmd.conversationId && s.messages[i].id == cmd.messageId;
      assert IsAt(s, cmd, i);
    }
  }

  /** After any run, every answer to a correction is for the first of its reasons that applies. */
  lemma EveryEditHasItsReason(events: seq<Event>, cmd: ReviseCommand, text: string)
    ensures var s := Run(NO_MESSAGES, events).store;
            var (t, r) := Edit(s, cmd, text);
            && (r.NotRevised? ==> t == s)
            && (Trim(text) == "" ==> r == NotRevised(EMPTY_TEXT))
            && (|Trim(text)| > 10_000 ==> r == NotRevised(TEXT_TOO_LONG))
            && (0 < |Trim(text)| <= 10_000 && !IsThere(s, cmd) ==> r == NotRevised(MESSAGE_NOT_FOUND))
            && forall i :: 0 < |Trim(text)| <= 10_000 && IsAt(s, cmd, i) ==>
                 var m := s.messages[i];
                 if m.sender != cmd.actor then r == NotRevised(NOT_THE_SENDER)
                 else if m.redacted then r == NotRevised(ALREADY_REDACTED)
                 else if m.body == Trim(text) then r == NotRevised(UNCHANGED)
                 else r == Revised(m.(body := Trim(text), edited := true))
  {
    hide Run, Trim, Revise, FindMessage;
    var s := Run(NO_MESSAGES, events).store;
    NoneIsThere(s, cmd);
    forall i | IsAt(s, cmd, i)
      ensures FindMessage(s.messages, cmd.conversationId, cmd.messageId) == Some(s.messages[i])
    {
      OneIsAt(events, cmd, i);
    }
  }

  lemma EveryRedactionHasItsReason(events: seq<Event>, cmd: ReviseCommand)
    ensures var s := Run(NO_MESSAGES, events).store;
            var (t, r) := Redact(s, cmd);
            && (r.NotRevised? ==> t == s)
            && (!IsThere(s, cmd) ==> r == NotRevised(MESSAGE_NOT_FOUND))
            && forall i :: IsAt(s, cmd, i) ==>
                 var m := s.messages[i];
                 if m.sender != cmd.actor then r == NotRevised(NOT_THE_SENDER)
                 else if m.redacted then r == Revised(m) && t == s
                 else r == Revised(m.(body := "", redacted := true))
  {
    hide Run, Revise, FindMessage;
    var s := Run(NO_MESSAGES, events).store;
    NoneIsThere(s, cmd);
    forall i | IsAt(s, cmd, i)
      ensures FindMessage(s.messages, cmd.conversationId, cmd.messageId) == Some(s.messages[i])
    {
      OneIsAt(events, cmd, i);
    }
  }

  /** One message becomes another; its old text, the new fact and nothing else is written, the preview apart. */
  ghost predicate RevisedAt(s: Store, t: Store, cmd: ReviseCommand, i: nat, next: Message)
    requires i < |s.messages|
  {
    && t.messages == s.messages[i := next] && t.nextId == s.nextId
    && t.revisions == s.revisions + [Revision(cmd.messageId, next.redacted, s.messages[i].body, cmd.actor)]
    && t.outbox == s.outbox + [MessageRevised(cmd.messageId, cmd.conversationId, next.redacted)]
    && t.conversations.Keys == s.conversations.Keys
    && forall c :: c in s.conversations ==>
         t.conversations[c] == if c == cmd.conversationId
                               then s.conversations[c].(preview := t.conversations[c].preview) else s.conversations[c]
  }

  lemma ReviseWrites(events: seq<Event>, cmd: ReviseCommand, i: nat, next: Message)
    requires IsAt(Run(NO_MESSAGES, events).store, cmd, i)
    ensures var s := Run(NO_MESSAGES, events).store;
            RevisedAt(s, Revise(s, cmd, s.messages[i], next), cmd, i, next)
  {
    hide Run, Refreshed;
    OneIsAt(events, cmd, i);
  }

  /** A correction that goes through rewrites its message and records what it said. */
  lemma WhatAnEditDoes(events: seq<Event>, cmd: ReviseCommand, text: string, i: nat)
    requires IsAt(Run(NO_MESSAGES, events).store, cmd, i) && Edit(Run(NO_MESSAGES, events).store, cmd, text).1.Revised?
    ensures var s := Run(NO_MESSAGES, events).store;
            RevisedAt(s, Edit(s, cmd, text).0, cmd, i, s.messages[i].(body := Trim(text), edited := true))
            && !s.messages[i].redacted
  {
    hide Run, Trim, Revise, FindMessage;
    var s := Run(NO_MESSAGES, events).store;
    OneIsAt(events, cmd, i);
    ReviseWrites(events, cmd, i, s.messages[i].(body := Trim(text), edited := true));
  }

  /** A redaction blanks its message and records what it said, once. */
  lemma WhatARedactionDoes(events: seq<Event>, cmd: ReviseCommand, i: nat)
    requires IsAt(Run(NO_MESSAGES, events).store, cmd, i) && Redact(Run(NO_MESSAGES, events).store, cmd).1.Revised?
    ensures var s := Run(NO_MESSAGES, events).store;
            var t := Redact(s, cmd).0;
            if s.messages[i].redacted then t == s
            else RevisedAt(s, t, cmd, i, s.messages[i].(body := "", redacted := true))
  {
    hide Run, Revise, FindMessage;
    var s := Run(NO_MESSAGES, events).store;
    OneIsAt(events, cmd, i);
    ReviseWrites(events, cmd, i, s.messages[i].(body := "", redacted := true));
  }
}
