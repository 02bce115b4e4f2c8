/**
 * Receiving webhooks at least once: a provider may deliver the same events again and again, the process may
 * die at any await, and a ledger of claimed and completed keys decides what is still to be done.
 *
 * Deliveries arrive one after another, each running to its end or to a crash. Two ledgers are kept: one of
 * delivery ids, the fast path, and one of event keys, the boundary. As in the database, an entry counts as
 * completed only if a result was recorded with it.
 */
module Webhook {
  import opened Options

  type Key = string
  type DeliveryId = string

  /** What a recorded result is; `None` is a claim whose work left no trace. */
  type Entry = Option<string>

  /** `effects` counts how often each event was applied, `torn` how often a crash fell between that and its completion. */
  datatype State = State(deliveries: map<DeliveryId, Entry>, events: map<Key, Entry>, effects: map<Key, nat>, torn: map<Key, nat>)

  const EMPTY := State(map[], map[], map[], map[])

  /** What applying an event returns: a reference to record, or none. */
  type Applier = Key -> Option<string>

  // ---------------------------------------------------------------- the ledger

  datatype Claim = FRESH | DUPLICATE | RECLAIMED

  predicate IsCompleted(ledger: map<string, Entry>, key: string) {
    key in ledger && ledger[key].Some?
  }

  function ClaimOf(ledger: map<string, Entry>, key: string): Claim {
    if key !in ledger then FRESH else if ledger[key].Some? then DUPLICATE else RECLAIMED
  }

  function Claimed(ledger: map<string, Entry>, key: string): map<string, Entry> {
    if key in ledger then ledger else ledger[key := None]
  }

  function Completed(ledger: map<string, Entry>, key: string, result: Option<string>): map<string, Entry> {
    if key in ledger then ledger[key := result] else ledger
  }

  function Count(counts: map<Key, nat>, key: Key): nat {
    if key in counts then counts[key] else 0
  }

  function More(counts: map<Key, nat>, key: Key): map<Key, nat> {
    counts[key := Count(counts, key) + 1]
  }

  // ---------------------------------------------------------------- one delivery

  /** How far the work on one event got before the process died, if it did. */
  datatype Reached = NOTHING | CLAIMED | APPLIED | COMPLETED

  function OneEvent(ref: Applier, s: State, key: Key, reached: Reached): State {
    if reached == NOTHING then s
    else
      var claimed := s.(events := Claimed(s.events, key));
      if IsCompleted(s.events, key) || reached == CLAIMED then claimed
      else
        var applied := claimed.(effects := More(s.effects, key));
        if reached == APPLIED then applied.(torn := More(s.torn, key))
        else applied.(events := Completed(applied.events, key, ref(key)))
  }

  function AllEvents(ref: Applier, s: State, keys: seq<Key>): State {
    if keys == [] then s else OneEvent(ref, AllEvents(ref, s, keys[..|keys| - 1]), keys[|keys| - 1], COMPLETED)
  }

  /** Where the process dies: at some event of the batch, or after the last and before the delivery is completed. */
  datatype Crash = NoCrash | Dies(event: nat, reached: Reached)

  /** `genuine` is the signature's verdict, false also when the adapter could not decide; `batch` is `None` when
      the payload could not be normalised. */
  datatype Attempt = Attempt(id: Option<DeliveryId>, genuine: bool, batch: Option<seq<Key>>, crash: Crash)

  /** The events of a batch, up to the crash. */
  function Batch(ref: Applier, s: State, keys: seq<Key>, crash: Crash): State {
    if crash.NoCrash? || crash.event >= |keys| then AllEvents(ref, s, keys)
    else OneEvent(ref, AllEvents(ref, s, keys[..crash.event]), keys[crash.event], crash.reached)
  }

  function Receive(ref: Applier, s: State, a: Attempt): State {
    if !a.genuine then s
    else if a.id.Some? && IsCompleted(s.deliveries, a.id.value) then s
    else
      var claimed := if a.id.Some? then s.(deliveries := Claimed(s.deliveries, a.id.value)) else s;
      if a.batch.None? then claimed
      else
        var done := Batch(ref, claimed, a.batch.value, a.crash);
        if a.id.Some? && a.crash.NoCrash?
        then done.(deliveries := Completed(done.deliveries, a.id.value, Some("applied")))
        else done
  }

  function Run(ref: Applier, s: State, attempts: seq<Attempt>): State {
    if attempts == [] then s
    else Receive(ref, Run(ref, s, attempts[..|attempts| - 1]), attempts[|attempts| - 1])
  }

  /** The same deliveries as seen by a receiver without the delivery-level check. */
  function Plain(attempts: seq<Attempt>): seq<Attempt> {
    seq(|attempts|, i requires 0 <= i < |attempts| => attempts[i].(id := None))
  }

  // ---------------------------------------------------------------- what a delivery does

  /** What an event comes to, by how far the work on it got. One that is completed is left as it is. */
  lemma WhatAnEventComesTo(ref: Applier, s: State, key: Key, reached: Reached)
    ensures var t := OneEvent(ref, s, key, reached);
            && t.deliveries == s.deliveries
            && (IsCompleted(s.events, key) || reached == NOTHING ==> t == s)
            && (!IsCompleted(s.events, key) && reached == CLAIMED ==>
                  key in t.events && t.events[key] == None && t.effects == s.effects && t.torn == s.torn)
            && (!IsCompleted(s.events, key) && reached in {APPLIED, COMPLETED} ==>
                  && t.effects == s.effects[key := Count(s.effects, key) + 1]
                  && t.torn == (if reached == APPLIED then s.torn[key := Count(s.torn, key) + 1] else s.torn)
                  && key in t.events && t.events[key] == if reached == APPLIED then None else ref(key))
            && forall k :: k != key ==> (k in t.events <==> k in s.events) && (k in s.events ==> t.events[k] == s.events[k])
  {
  }

  /** What a whole batch does to one event: applied unless completed, once if that leaves a reference, else each time. */
  lemma {:induction false} WhatABatchDoes(ref: Applier, s: State, keys: seq<Key>, k: Key)
    ensures var t := AllEvents(ref, s, keys);
            && t.torn == s.torn && t.deliveries == s.deliveries
            && (k in t.events <==> k in s.events || k in keys)
            && (IsCompleted(t.events, k) <==> IsCompleted(s.events, k) || (k in keys && ref(k).Some?))
            && (k in s.events && (IsCompleted(s.events, k) || k !in keys) ==> t.events[k] == s.events[k])
            && (k in keys && !IsCompleted(s.events, k) ==> t.events[k] == ref(k))
            && Count(t.effects, k) == Count(s.effects, k)
                 + (if IsCompleted(s.events, k) || k !in keys then 0 else if ref(k).Some? then 1 else multiset(keys)[k])
  {
    if keys != [] {
      hide OneEvent;
      var before, last := keys[..|keys| - 1], keys[|keys| - 1];
      WhatABatchDoes(ref, s, before, k);
      WhatAnEventComesTo(ref, AllEvents(ref, s, before), last, COMPLETED);
      assert keys == before + [last];
    }
  }

  /** The places of a batch at which an event is applied: it is open, and no earlier one has closed it. */
  function AppliedAt(ref: Applier, s: State, keys: seq<Key>): set<nat> {
    set i | 0 <= i < |keys| && !IsCompleted(s.events, keys[i]) && !(ref(keys[i]).Some? && keys[i] in keys[..i])
  }

  /**
   * What a delivery does. A forged one and a repeated one change nothing, and one without a batch only leaves its
   * claim; an undisturbed one does what its batch does and is completed; one that dies does what it came to and is
   * not.
   */
  lemma WhatADeliveryDoes(ref: Applier, s: State, a: Attempt)
    ensures var t := Receive(ref, s, a);
            var repeated := a.id.Some? && IsCompleted(s.deliveries, a.id.value);
            && (!a.genuine || repeated ==> t == s)
            && (a.genuine && !repeated ==>
                  && (a.id.None? ==> t.deliveries == s.deliveries)
                  && (a.id.Some? ==> a.id.value in t.deliveries
                                     && (IsCompleted(t.deliveries, a.id.value) <==> a.batch.Some? && a.crash.NoCrash?)
                                     && forall d :: d != a.id.value ==>
                                          (d in t.deliveries <==> d in s.deliveries)
                                          && (d in s.deliveries ==> t.deliveries[d] == s.deliveries[d]))
                  && (a.batch.None? ==> t.events == s.events && t.effects == s.effects && t.torn == s.torn)
                  && (a.batch.Some? && (a.crash.NoCrash? || a.crash.event >= |a.batch.value|) ==>
                        SameEffects(t, AllEvents(ref, s, a.batch.value)))
                  && (a.batch.Some? && a.crash.Dies? && a.crash.event < |a.batch.value| ==>
                        SameEffects(t, OneEvent(ref, AllEvents(ref, s, a.batch.value[..a.crash.event]),
                                                a.batch.value[a.crash.event], a.crash.reached))))
  {
    hide OneEvent, AllEvents;
    var claimed := if a.id.Some? then s.(deliveries := Claimed(s.deliveries, a.id.value)) else s;
    if a.genuine && a.batch.Some? {
      EventsApart(ref, claimed, s, a.batch.value);
      if a.crash.Dies? && a.crash.event < |a.batch.value| {
        var before := a.batch.value[..a.crash.event];
        EventsApart(ref, claimed, s, before);
        OneEventApart(ref, AllEvents(ref, claimed, before), AllEvents(ref, s, before), a.batch.value[a.crash.event],
          a.crash.reached);
        OneEventKeeps(ref, AllEvents(ref, claimed, before), a.batch.value[a.crash.event], a.crash.reached);
      }
    }
  }

  // ---------------------------------------------------------------- how often an event is applied

  /** Every application is either the one recorded or one a crash tore from its record. */
  ghost predicate Accounted(ref: Applier, s: State) {
    forall key :: ref(key).Some? ==>
      Count(s.effects, key) == Count(s.torn, key) + if IsCompleted(s.events, key) then 1 else 0
  }

  lemma OneEventAccounted(ref: Applier, s: State, key: Key, reached: Reached)
    requires Accounted(ref, s)
    ensures Accounted(ref, OneEvent(ref, s, key, reached))
  {
  }

  lemma {:induction false} AllEventsAccounted(ref: Applier, s: State, keys: seq<Key>)
    requires Accounted(ref, s)
    ensures Accounted(ref, AllEvents(ref, s, keys))
  {
    if keys != [] {
      AllEventsAccounted(ref, s, keys[..|keys| - 1]);
      OneEventAccounted(ref, AllEvents(ref, s, keys[..|keys| - 1]), keys[|keys| - 1], COMPLETED);
    }
  }

  lemma ReceiveAccounted(ref: Applier, s: State, a: Attempt)
    requires Accounted(ref, s)
    ensures Accounted(ref, Receive(ref, s, a))
  {
    hide OneEvent, AllEvents;
    var claimed := if a.id.Some? then s.(deliveries := Claimed(s.deliveries, a.id.value)) else s;
    if a.batch.Some? {
      AllEventsAccounted(ref, claimed, a.batch.value);
      if a.crash.Dies? && a.crash.event < |a.batch.value| {
        var keys, i := a.batch.value, a.crash.event;
        AllEventsAccounted(ref, claimed, keys[..i]);
        OneEventAccounted(ref, AllEvents(ref, claimed, keys[..i]), keys[i], a.crash.reached);
      }
    }
  }

  /**
   * Over any run of deliveries, re-batched or repeated at will, an event whose application yields a result to
   * record has been applied exactly as often as a crash tore its application from its completion, plus once
   * if it is completed. So never more than one time more than it was torn, and at least once when completed.
   */
  lemma EffectsAreAccounted(ref: Applier, attempts: seq<Attempt>, key: Key)
    requires ref(key).Some?
    ensures var s := Run(ref, EMPTY, attempts);
            Count(s.effects, key) == Count(s.torn, key) + if IsCompleted(s.events, key) then 1 else 0
  {
    RunAccounted(ref, attempts);
  }

  lemma {:induction false} RunAccounted(ref: Applier, attempts: seq<Attempt>)
    ensures Accounted(ref, Run(ref, EMPTY, attempts))
  {
    if attempts != [] {
      RunAccounted(ref, attempts[..|attempts| - 1]);
      ReceiveAccounted(ref, Run(ref, EMPTY, attempts[..|attempts| - 1]), attempts[|attempts| - 1]);
    }
  }

  // ---------------------------------------------------------------- the delivery check

  ghost predicate SameEffects(s: State, t: State) {
    s.events == t.events && s.effects == t.effects && s.torn == t.torn
  }

  lemma OneEventKeeps(ref: Applier, s: State, key: Key, reached: Reached)
    ensures var u := OneEvent(ref, s, key, reached);
            && u.deliveries == s.deliveries
            && (forall k :: IsCompleted(s.events, k) ==> IsCompleted(u.events, k))
            && (reached == COMPLETED && ref(key).Some? ==> IsCompleted(u.events, key))
  {
  }

  lemma OneEventApart(ref: Applier, s: State, t: State, key: Key, reached: Reached)
    requires SameEffects(s, t)
    ensures SameEffects(OneEvent(ref, s, key, reached), OneEvent(ref, t, key, reached))
  {
  }

  /** Work on the events neither reads nor writes the ledger of deliveries, and never undoes a completion. */
  lemma {:induction false} EventsApart(ref: Applier, s: State, t: State, keys: seq<Key>)
    requires SameEffects(s, t)
    ensures var u, v := AllEvents(ref, s, keys), AllEvents(ref, t, keys);
            && SameEffects(u, v) && u.deliveries == s.deliveries && v.deliveries == t.deliveries
            && (forall k :: IsCompleted(s.events, k) ==> IsCompleted(u.events, k))
            && (forall k :: k in keys && ref(k).Some? ==> IsCompleted(u.events, k))
  {
    hide OneEvent, IsCompleted, SameEffects;
    if keys != [] {
      var before, last := keys[..|keys| - 1], keys[|keys| - 1];
      EventsApart(ref, s, t, before);
      OneEventApart(ref, AllEvents(ref, s, before), AllEvents(ref, t, before), last, COMPLETED);
      OneEventKeeps(ref, AllEvents(ref, s, before), last, COMPLETED);
      OneEventKeeps(ref, AllEvents(ref, t, before), last, COMPLETED);
      assert keys == before + [last];
    }
  }

  lemma {:induction false} UnrecordedStaysOpen(ref: Applier, s: State, keys: seq<Key>, k: Key)
    requires ref(k).None? && !IsCompleted(s.events, k)
    ensures var v := AllEvents(ref, s, keys);
            !IsCompleted(v.events, k) && Count(v.effects, k) >= Count(s.effects, k) + if k in keys then 1 else 0
  {
    if keys != [] {
      UnrecordedStaysOpen(ref, s, keys[..|keys| - 1], k);
    }
  }

  /** A delivery run to its end, by a receiver with the check and by one without. */
  lemma WholeDelivery(ref: Applier, s: State, id: DeliveryId, keys: seq<Key>)
    requires !IsCompleted(s.deliveries, id)
    ensures var a := Attempt(Some(id), true, Some(keys), NoCrash);
            && SameEffects(Receive(ref, s, a), AllEvents(ref, s, keys)) && IsCompleted(Receive(ref, s, a).deliveries, id)
            && Receive(ref, s, a.(id := None)) == AllEvents(ref, s, keys)
  {
    hide AllEvents;
    EventsApart(ref, s.(deliveries := Claimed(s.deliveries, id)), s, keys);
  }

  lemma TwoAttempts(ref: Applier, s: State, a: Attempt, b: Attempt)
    ensures Run(ref, s, [a, b]) == Receive(ref, Receive(ref, s, a), b)
  {
    hide Receive;
    assert Run(ref, s, [a]) == Receive(ref, s, a) by {
      assert [a][..0] == [] && Run(ref, s, []) == s;
    }
    assert [a, b][..1] == [a];
  }

  /** An event that leaves no result is applied again by a receiver without the check, and only by that one. */
  lemma RepeatedDeliveryDiffers(ref: Applier, id: DeliveryId, keys: seq<Key>, k: Key)
    requires k in keys && ref(k).None?
    ensures var a := Attempt(Some(id), true, Some(keys), NoCrash);
            !SameEffects(Run(ref, EMPTY, [a, a]), Run(ref, EMPTY, Plain([a, a])))
  {
    var a := Attempt(Some(id), true, Some(keys), NoCrash);
    var once := AllEvents(ref, EMPTY, keys);
    TwoAttempts(ref, EMPTY, a, a);
    TwoAttempts(ref, EMPTY, a.(id := None), a.(id := None));
    assert Plain([a, a]) == [a.(id := None), a.(id := None)];
    WholeDelivery(ref, EMPTY, id, keys);
    assert Receive(ref, Receive(ref, EMPTY, a), a) == Receive(ref, EMPTY, a);
    PlainAgain(ref, once, id, keys);
    UnrecordedStaysOpen(ref, EMPTY, keys, k);
    UnrecordedStaysOpen(ref, once, keys, k);
  }

  lemma PlainAgain(ref: Applier, s: State, id: DeliveryId, keys: seq<Key>)
    ensures Receive(ref, s, Attempt(None, true, Some(keys), NoCrash)) == AllEvents(ref, s, keys)
  {
  }

  /** No run applies the event more than once more than crashes tore it. */
  ghost predicate AppliedOnceMore(ref: Applier, key: Key) {
    forall attempts :: OnceMoreAfter(ref, attempts, key)
  }

  ghost predicate OnceMoreAfter(ref: Applier, attempts: seq<Attempt>, key: Key) {
    var s := Run(ref, EMPTY, attempts);
    Count(s.effects, key) <= 1 + Count(s.torn, key)
  }

  /**
   * The bound belongs to the events whose application yields a reference, and to no others: without one, the
   * second of two undisturbed deliveries applies the event again.
   */
  lemma AppliedOnceMoreExactly(ref: Applier, key: Key)
    ensures AppliedOnceMore(ref, key) <==> ref(key).Some?
  {
    if ref(key).Some? {
      forall attempts
        ensures OnceMoreAfter(ref, attempts, key)
      {
        EffectsAreAccounted(ref, attempts, key);
      }
    } else {
      SecondDeliveryAppliesAgain(ref, key);
      var a := Attempt(None, true, Some([key]), NoCrash);
      assert !OnceMoreAfter(ref, [a, a], key);
    }
  }

  lemma SecondDeliveryAppliesAgain(ref: Applier, key: Key)
    requires ref(key).None?
    ensures var a := Attempt(None, true, Some([key]), NoCrash);
            var s := Run(ref, EMPTY, [a, a]);
            Count(s.effects, key) == 2 && Count(s.torn, key) == 0
  {
    var a := Attempt(None, true, Some([key]), NoCrash);
    TwoAttempts(ref, EMPTY, a, a);
    JustOneEvent(ref, EMPTY, key);
    JustOneEvent(ref, OneEvent(ref, EMPTY, key, COMPLETED), key);
  }

  lemma JustOneEvent(ref: Applier, s: State, key: Key)
    ensures Receive(ref, s, Attempt(None, true, Some([key]), NoCrash)) == OneEvent(ref, s, key, COMPLETED)
  {
    hide OneEvent;
    assert [key][..0] == [];
    assert AllEvents(ref, s, []) == s;
  }

  /** How many events of a batch are applied rather than absorbed. */
  function AppliedIn(ref: Applier, s: State, keys: seq<Key>): nat {
    if keys == [] then 0
    else
      var before := keys[..|keys| - 1];
      AppliedIn(ref, s, before) + if IsCompleted(AllEvents(ref, s, before).events, keys[|keys| - 1]) then 0 else 1
  }

  lemma OnePlaceMore(ref: Applier, s: State, keys: seq<Key>)
    requires keys != []
    ensures var n := |keys| - 1;
            AppliedAt(ref, s, keys) == AppliedAt(ref, s, keys[..n])
              + if !IsCompleted(s.events, keys[n]) && !(ref(keys[n]).Some? && keys[n] in keys[..n]) then {n} else {}
  {
    hide IsCompleted;
    var n := |keys| - 1;
    forall i | 0 <= i < n
      ensures keys[..n][i] == keys[i] && keys[..n][..i] == keys[..i]
    {
    }
  }

  /** They are exactly the places where the event is open and no earlier one has closed it. */
  lemma {:induction false} AppliedInCounts(ref: Applier, s: State, keys: seq<Key>)
    ensures AppliedIn(ref, s, keys) == |AppliedAt(ref, s, keys)|
  {
    if keys != [] {
      var n := |keys| - 1;
      AppliedInCounts(ref, s, keys[..n]);
      OnePlaceMore(ref, s, keys);
      WhatABatchDoes(ref, s, keys[..n], keys[n]);
      hide AllEvents, Count, IsCompleted;
    }
  }

  // ---------------------------------------------------------------- the receiver's code

  datatype Outcome =
    | SignatureInvalid
    | NotNormalised
    | Received(applied: nat, absorbed: nat, duplicateDelivery: bool)
    | Died

  lemma {:induction false} AppliedApart(ref: Applier, s: State, t: State, keys: seq<Key>)
    requires SameEffects(s, t)
    ensures AppliedIn(ref, s, keys) == AppliedIn(ref, t, keys)
  {
    if keys != [] {
      AppliedApart(ref, s, t, keys[..|keys| - 1]);
      EventsApart(ref, s, t, keys[..|keys| - 1]);
    }
  }

  class Receiver {
    var deliveries: map<DeliveryId, Entry>
    var events: map<Key, Entry>
    ghost var effects: map<Key, nat>
    ghost var torn: map<Key, nat>

    ghost function View(): State
      reads this
    {
      State(deliveries, events, effects, torn)
    }

    constructor ()
      ensures View() == EMPTY
    {
      deliveries, events, effects, torn := map[], map[], map[], map[];
    }

    method ClaimEvent(key: Key) returns (claim: Claim)
      modifies this`events
      ensures claim == ClaimOf(old(events), key) && events == Claimed(old(events), key)
    {
      if key !in events {
        events := events[key := None];
        return FRESH;
      }
      return if events[key].Some? then DUPLICATE else RECLAIMED;
    }

    /** Verifies, deduplicates and applies one delivery; an applied event is completed only afterwards. */
    method ReceiveWebhook(ref: Applier, a: Attempt) returns (outcome: Outcome)
      modifies this
      ensures View() == Receive(ref, old(View()), a)
      ensures outcome.SignatureInvalid? <==> !a.genuine
      ensures outcome.Received? && outcome.duplicateDelivery
              <==> a.genuine && a.id.Some? && IsCompleted(old(deliveries), a.id.value)
      ensures outcome.Received? && !outcome.duplicateDelivery ==>
                a.batch.Some? && a.crash.NoCrash? && outcome.applied + outcome.absorbed == |a.batch.value|
                && outcome.applied == AppliedIn(ref, old(View()), a.batch.value)
                && outcome.applied == |AppliedAt(ref, old(View()), a.batch.value)|
    {
      hide Batch, AllEvents, OneEvent, AppliedAt;
      if a.batch.Some? {
        AppliedInCounts(ref, View(), a.batch.value);
      }
      if !a.genuine {
        return SignatureInvalid;
      }
      if a.id.Some? {
        if a.id.value in deliveries && deliveries[a.id.value].Some? {
          return Received(0, 0, true);
        }
        deliveries := Claimed(deliveries, a.id.value);
      }
      if a.batch.None? {
        return NotNormalised;
      }
      AppliedApart(ref, old(View()), View(), a.batch.value);
      var applied, absorbed, died := ProcessEvents(ref, a.batch.value, a.crash);
      if died || a.crash.Dies? {
        return Died;
      }
      if a.id.Some? {
        deliveries := deliveries[a.id.value := Some("applied")];
      }
      return Received(applied, absorbed, false);
    }

    method ProcessEvents(ref: Applier, keys: seq<Key>, crash: Crash) returns (applied: nat, absorbed: nat, died: bool)
      modifies this`events, this`effects, this`torn
      ensures View() == Batch(ref, old(View()), keys, crash)
      ensures died <==> crash.Dies? && crash.event < |keys|
      ensures !died ==> applied + absorbed == |keys| && applied == AppliedIn(ref, old(View()), keys)
    {
      hide OneEvent;
      applied, absorbed := 0, 0;
      for i := 0 to |keys|
        invariant deliveries == old(deliveries)
        invariant View() == AllEvents(ref, old(View()), keys[..i])
        invariant applied + absorbed == i && applied == AppliedIn(ref, old(View()), keys[..i])
        invariant crash.Dies? && crash.event < |keys| ==> i <= crash.event
      {
        assert keys[..i + 1][..i] == keys[..i];
        var reached := if crash.Dies? && crash.event == i then crash.reached else COMPLETED;
        var ran := ProcessEvent(ref, keys[i], reached);
        if crash.Dies? && crash.event == i {
          return applied, absorbed, true;
        }
        if ran {
          applied := applied + 1;
        } else {
          absorbed := absorbed + 1;
        }
      }
      assert keys[..|keys|] == keys;
      return applied, absorbed, false;
    }

    /** One event, up to where the process dies; whether the applier ran. */
    method ProcessEvent(ref: Applier, key: Key, reached: Reached) returns (ran: bool)
      modifies this`events, this`effects, this`torn
      ensures View() == OneEvent(ref, old(View()), key, reached)
      ensures ran <==> reached in {APPLIED, COMPLETED} && !IsCompleted(old(events), key)
    {
      if reached == NOTHING {
        return false;
      }
      var claim := ClaimEvent(key);
      if claim == DUPLICATE || reached == CLAIMED {
        return false;
      }
      effects := More(effects, key);
      if reached == APPLIED {
        torn := More(torn, key);
        return true;
      }
      events := events[key := ref(key)];
      return true;
    }
  }
}
