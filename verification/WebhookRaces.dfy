/**
 * Deliveries that overlap: the same receiver and ledgers, with any number of deliveries in flight and a step
 * for each stretch of code between awaits. A delivery arrives, claims its next event, applies it, completes
 * it, and in the end completes itself; it may die between any two of these.
 *
 * A visit is one delivery's handling of one event it was not told to skip. The visits are numbered in the
 * order of their claims; they only observe, and no step depends on them beyond its own.
 */
module WebhookRaces {
  import opened Options
  import opened Webhook

  /** How far a visit got; a completed one remembers its result and how many visits had been claimed by then. */
  datatype Fate = Held | Ran | Recorded(claims: nat, result: Option<string>) | Abandoned | Ripped

  datatype Visit = Visit(key: Key, fate: Fate)

  /** A delivery in flight: its events, how many are behind it, and the visit it is on, if any. */
  datatype Flight = Flight(id: Option<DeliveryId>, keys: seq<Key>, done: nat, visit: Option<nat>)

  /** `used` are the numbers of the deliveries that ever arrived. */
  datatype World = World(s: State, flights: map<nat, Flight>, visits: seq<Visit>, used: set<nat>)

  /** What applying an event may return, each time anew: one reference or another, or none. */
  type Answers = (Key, Option<string>) -> bool

  datatype Step =
    | Arrives(flight: nat, id: Option<DeliveryId>, batch: Option<seq<Key>>)
    | Claims(flight: nat)
    | Applies(flight: nat)
    | Completes(flight: nat, result: Option<string>)
    | Finishes(flight: nat)
    | Crashes(flight: nat)

  const AT_REST := World(Webhook.EMPTY, map[], [], {})

  // ---------------------------------------------------------------- the steps

  /** The delivery-level check: a completed delivery is answered at once, and one without a batch refused. */
  function Arrive(w: World, f: nat, id: Option<DeliveryId>, batch: Option<seq<Key>>): World {
    if f in w.used then w
    else
      var seen := w.(used := w.used + {f});
      if id.Some? && IsCompleted(w.s.deliveries, id.value) then seen
      else
        var claimed := if id.Some? then w.s.(deliveries := Claimed(w.s.deliveries, id.value)) else w.s;
        if batch.None? then seen.(s := claimed)
        else seen.(s := claimed, flights := w.flights[f := Flight(id, batch.value, 0, None)])
  }

  /** The claim answers a duplicate, which is skipped, or begins a visit, also when another is under way. */
  function ClaimNext(w: World, f: nat): World {
    if f !in w.flights || w.flights[f].visit.Some? || w.flights[f].done >= |w.flights[f].keys| then w
    else
      var flight := w.flights[f];
      var key := flight.keys[flight.done];
      if ClaimOf(w.s.events, key) == DUPLICATE then w.(flights := w.flights[f := flight.(done := flight.done + 1)])
      else
        w.(s := w.s.(events := Claimed(w.s.events, key)), flights := w.flights[f := flight.(visit := Some(|w.visits|))],
           visits := w.visits + [Visit(key, Held)])
  }

  /** A flight is on a visit that got as far as `fate`. */
  predicate OnVisit(w: World, f: nat, fate: Fate) {
    && f in w.flights && w.flights[f].visit.Some? && w.flights[f].visit.value < |w.visits|
    && w.visits[w.flights[f].visit.value].fate == fate
  }

  function Settle(w: World, v: nat, fate: Fate): seq<Visit>
    requires v < |w.visits|
  {
    w.visits[v := w.visits[v].(fate := fate)]
  }

  function Apply(w: World, f: nat): World {
    if !OnVisit(w, f, Held) then w
    else
      var v := w.flights[f].visit.value;
      w.(s := w.s.(effects := More(w.s.effects, w.visits[v].key)), visits := Settle(w, v, Ran))
  }

  function Complete(may: Answers, w: World, f: nat, result: Option<string>): World {
    if !OnVisit(w, f, Ran) || !may(w.visits[w.flights[f].visit.value].key, result) then w
    else
      var flight := w.flights[f];
      var v := flight.visit.value;
      w.(s := w.s.(events := Completed(w.s.events, w.visits[v].key, result)),
         flights := w.flights[f := flight.(done := flight.done + 1, visit := None)],
         visits := Settle(w, v, Recorded(|w.visits|, result)))
  }

  function Finish(w: World, f: nat): World {
    if f !in w.flights || w.flights[f].visit.Some? || w.flights[f].done < |w.flights[f].keys| then w
    else
      var id := w.flights[f].id;
      var s := if id.Some? then w.s.(deliveries := Completed(w.s.deliveries, id.value, Some("applied"))) else w.s;
      w.(s := s, flights := w.flights - {f})
  }

  function Die(w: World, f: nat): World {
    if f !in w.flights then w
    else
      var gone := w.(flights := w.flights - {f});
      if OnVisit(w, f, Held) then gone.(visits := Settle(w, w.flights[f].visit.value, Abandoned))
      else if OnVisit(w, f, Ran) then
        var v := w.flights[f].visit.value;
        gone.(s := w.s.(torn := More(w.s.torn, w.visits[v].key)), visits := Settle(w, v, Ripped))
      else gone
  }

  function Take(may: Answers, w: World, step: Step): World {
    match step
    case Arrives(f, id, batch) => Arrive(w, f, id, batch)
    case Claims(f) => ClaimNext(w, f)
    case Applies(f) => Apply(w, f)
    case Completes(f, result) => Complete(may, w, f, result)
    case Finishes(f) => Finish(w, f)
    case Crashes(f) => Die(w, f)
  }

  function Onwards(may: Answers, w: World, steps: seq<Step>): World {
    if steps == [] then w else Take(may, Onwards(may, w, steps[..|steps| - 1]), steps[|steps| - 1])
  }

  // ---------------------------------------------------------------- what every interleaving keeps

  predicate IsKept(fate: Fate) {
    fate.Ran? || fate.Recorded?
  }

  /** The visits of an event that applied it and did not die before recording that. */
  function Kept(visits: seq<Visit>, key: Key): set<nat> {
    set v | 0 <= v < |visits| && visits[v].key == key && IsKept(visits[v].fate)
  }

  function Torn(visits: seq<Visit>, key: Key): set<nat> {
    set v | 0 <= v < |visits| && visits[v].key == key && visits[v].fate.Ripped?
  }

  /** A visit was claimed after another and before that one's completion. */
  predicate ClaimedWhileOpen(visits: seq<Visit>, earlier: nat, later: nat) {
    && earlier < later < |visits| && visits[earlier].key == visits[later].key
    && (visits[earlier].fate.Recorded? ==> later < visits[earlier].fate.claims)
  }

  /** A flight's visit is of its next event and still going; no two flights share one. */
  ghost predicate VisitsAreOwn(w: World) {
    && (forall f :: f in w.flights && w.flights[f].visit.Some? ==> OnVisit(w, f, Held) || OnVisit(w, f, Ran))
    && (forall f, g :: f in w.flights && g in w.flights && f != g && w.flights[f].visit.Some? ==>
          w.flights[f].visit != w.flights[g].visit)
  }

  /** Each effect of an event is a visit that was kept or torn. */
  predicate TalliedFor(w: World, k: Key) {
    Count(w.s.torn, k) == |Torn(w.visits, k)| && Count(w.s.effects, k) == |Torn(w.visits, k)| + |Kept(w.visits, k)|
  }

  ghost predicate Tallied(w: World) {
    forall k :: TalliedFor(w, k)
  }

  /** Some visit of the event was completed without a reference before the visit numbered `u` was claimed. */
  ghost predicate Reopened(visits: seq<Visit>, key: Key, u: nat) {
    exists v :: 0 <= v < |visits| && visits[v].key == key && ReopensBy(visits[v].fate, u)
  }

  predicate ReopensBy(fate: Fate, u: nat) {
    fate.Recorded? && fate.result.None? && fate.claims <= u
  }

  /** What a completed visit leaves: its event recorded, and never claimed again, unless a result was missing. */
  ghost predicate Closed(w: World, v: nat)
    requires v < |w.visits|
  {
    var visit := w.visits[v];
    visit.fate.Recorded? ==>
      && v < visit.fate.claims <= |w.visits|
      && (IsCompleted(w.s.events, visit.key) || Reopened(w.visits, visit.key, |w.visits|))
      && (forall u :: visit.fate.claims <= u < |w.visits| && w.visits[u].key == visit.key ==> Reopened(w.visits, visit.key, u))
  }

  ghost predicate RecordsClose(w: World) {
    && (forall v :: 0 <= v < |w.visits| ==> w.visits[v].key in w.s.events)
    && (forall v :: 0 <= v < |w.visits| ==> Closed(w, v))
  }

  ghost predicate Kempt(w: World) {
    VisitsAreOwn(w) && Tallied(w) && RecordsClose(w)
  }

  lemma TakeOut(s: set<nat>, v: nat)
    ensures |s| == |s - {v}| + if v in s then 1 else 0
  {
    assert v in s ==> s == (s - {v}) + {v};
    assert v !in s ==> s == s - {v};
  }

  lemma SettleMoves(w: World, v: nat, fate: Fate, k: Key)
    requires v < |w.visits|
    ensures Kept(Settle(w, v, fate), k) - {v} == Kept(w.visits, k) - {v}
    ensures v in Kept(Settle(w, v, fate), k) <==> w.visits[v].key == k && IsKept(fate)
    ensures Torn(Settle(w, v, fate), k) - {v} == Torn(w.visits, k) - {v}
    ensures v in Torn(Settle(w, v, fate), k) <==> w.visits[v].key == k && fate.Ripped?
  {
  }

  /** One visit's fate changes: the sets of kept and torn visits change by that visit alone. */
  lemma SettleCounts(w: World, v: nat, fate: Fate, k: Key)
    requires v < |w.visits| && !w.visits[v].fate.Ripped?
    ensures var after, mine := Settle(w, v, fate), w.visits[v].key == k;
            && |Kept(after, k)| == |Kept(w.visits, k)|
                 - (if mine && IsKept(w.visits[v].fate) then 1 else 0) + (if mine && IsKept(fate) then 1 else 0)
            && |Torn(after, k)| == |Torn(w.visits, k)| + if mine && fate.Ripped? then 1 else 0
  {
    var after := Settle(w, v, fate);
    assert v in Kept(w.visits, k) <==> w.visits[v].key == k && IsKept(w.visits[v].fate);
    assert v !in Torn(w.visits, k);
    hide Kept, Torn, Settle, IsKept;
    SettleMoves(w, v, fate, k);
    TakeOut(Kept(after, k), v);
    TakeOut(Kept(w.visits, k), v);
    TakeOut(Torn(after, k), v);
    TakeOut(Torn(w.visits, k), v);
  }

  lemma NewVisitCounts(w: World, key: Key, k: Key)
    ensures var after := w.visits + [Visit(key, Held)];
            Kept(after, k) == Kept(w.visits, k) && Torn(after, k) == Torn(w.visits, k)
  {
  }

  lemma ClaimTallies(w: World, f: nat, k: Key)
    requires TalliedFor(w, k)
    ensures TalliedFor(ClaimNext(w, f), k)
  {
    hide Kept, Torn;
    if f in w.flights && w.flights[f].done < |w.flights[f].keys| {
      NewVisitCounts(w, w.flights[f].keys[w.flights[f].done], k);
    }
  }

  lemma ApplyTallies(w: World, f: nat, k: Key)
    requires TalliedFor(w, k)
    ensures TalliedFor(Apply(w, f), k)
  {
    hide Kept, Torn;
    if OnVisit(w, f, Held) {
      SettleCounts(w, w.flights[f].visit.value, Ran, k);
    }
  }

  lemma CompleteTallies(may: Answers, w: World, f: nat, result: Option<string>, k: Key)
    requires TalliedFor(w, k)
    ensures TalliedFor(Complete(may, w, f, result), k)
  {
    hide Kept, Torn;
    if OnVisit(w, f, Ran) {
      SettleCounts(w, w.flights[f].visit.value, Recorded(|w.visits|, result), k);
    }
  }

  lemma CrashTallies(w: World, f: nat, k: Key)
    requires TalliedFor(w, k)
    ensures TalliedFor(Die(w, f), k)
  {
    hide Kept, Torn;
    if OnVisit(w, f, Held) {
      SettleCounts(w, w.flights[f].visit.value, Abandoned, k);
    } else if OnVisit(w, f, Ran) {
      SettleCounts(w, w.flights[f].visit.value, Ripped, k);
    }
  }

  lemma TakeTallies(may: Answers, w: World, step: Step)
    requires Tallied(w)
    ensures Tallied(Take(may, w, step))
  {
    hide Kept, Torn, ClaimNext, Apply, Complete, Die;
    forall k
      ensures TalliedFor(Take(may, w, step), k)
    {
      assert TalliedFor(w, k);
      match step
      case Claims(f) => ClaimTallies(w, f, k);
      case Applies(f) => ApplyTallies(w, f, k);
      case Completes(f, result) => CompleteTallies(may, w, f, result, k);
      case Crashes(f) => CrashTallies(w, f, k);
      case _ =>
    }
  }

  lemma ClaimKeepsVisitsOwn(w: World, f: nat)
    requires VisitsAreOwn(w)
    ensures VisitsAreOwn(ClaimNext(w, f))
  {
    var after := ClaimNext(w, f);
    assert forall g :: g in w.flights && w.flights[g].visit.Some? ==> w.flights[g].visit.value < |w.visits|;
    assert forall g, fate :: g != f && OnVisit(w, g, fate) ==> OnVisit(after, g, fate);
  }

  /** A flight moves its visit on, or is done with it. */
  lemma SettleKeepsVisitsOwn(w: World, after: World, f: nat, fate: Fate)
    requires VisitsAreOwn(w) && f in w.flights && w.flights[f].visit.Some? && w.flights[f].visit.value < |w.visits|
    requires after.visits == Settle(w, w.flights[f].visit.value, fate)
    requires after.flights - {f} == w.flights - {f}
    requires f in after.flights ==> after.flights[f].visit.None? || (after.flights == w.flights && fate.Ran?)
    ensures VisitsAreOwn(after)
  {
    forall g | g in after.flights && after.flights[g].visit.Some?
      ensures OnVisit(after, g, Held) || OnVisit(after, g, Ran)
    {
      assert g != f ==> g in (w.flights - {f}) && g in (after.flights - {f});
    }
    forall g, h | g in after.flights && h in after.flights && g != h && after.flights[g].visit.Some?
      ensures after.flights[g].visit != after.flights[h].visit
    {
      assert g != f ==> g in (w.flights - {f}) && g in (after.flights - {f});
      assert h != f ==> h in (w.flights - {f}) && h in (after.flights - {f});
    }
  }

  lemma CompleteKeepsVisitsOwn(may: Answers, w: World, f: nat, result: Option<string>)
    requires VisitsAreOwn(w)
    ensures VisitsAreOwn(Complete(may, w, f, result))
  {
    hide VisitsAreOwn;
    var after := Complete(may, w, f, result);
    if OnVisit(w, f, Ran) && after != w {
      assert after.flights - {f} == w.flights - {f};
      SettleKeepsVisitsOwn(w, after, f, Recorded(|w.visits|, result));
    }
  }

  lemma CrashKeepsVisitsOwn(w: World, f: nat)
    requires VisitsAreOwn(w)
    ensures VisitsAreOwn(Die(w, f))
  {
    if OnVisit(w, f, Held) {
      SettleKeepsVisitsOwn(w, Die(w, f), f, Abandoned);
    } else if OnVisit(w, f, Ran) {
      SettleKeepsVisitsOwn(w, Die(w, f), f, Ripped);
    }
  }

  lemma TakeKeepsVisitsOwn(may: Answers, w: World, step: Step)
    requires VisitsAreOwn(w)
    ensures VisitsAreOwn(Take(may, w, step))
  {
    hide ClaimNext, Complete, Die;
    match step
    case Claims(f) => ClaimKeepsVisitsOwn(w, f);
    case Applies(f) =>
      hide VisitsAreOwn;
      if OnVisit(w, f, Held) {
        SettleKeepsVisitsOwn(w, Apply(w, f), f, Ran);
      }
    case Completes(f, result) => CompleteKeepsVisitsOwn(may, w, f, result);
    case Crashes(f) => CrashKeepsVisitsOwn(w, f);
    case Arrives(_, _, _) =>
    case Finishes(_) =>
  }

  lemma TakeKeepsKeys(may: Answers, w: World, step: Step)
    requires forall v :: 0 <= v < |w.visits| ==> w.visits[v].key in w.s.events
    ensures var t := Take(may, w, step); forall v :: 0 <= v < |t.visits| ==> t.visits[v].key in t.s.events
  {
  }

  /** A completed visit keeps its fate, and so does what it reopened. */
  lemma TakeKeepsRecorded(may: Answers, w: World, step: Step)
    ensures var t := Take(may, w, step);
            && |w.visits| <= |t.visits|
            && (forall v :: 0 <= v < |w.visits| ==>
                  t.visits[v].key == w.visits[v].key && (w.visits[v].fate.Recorded? ==> t.visits[v] == w.visits[v]))
            && (forall k, u: nat :: Reopened(w.visits, k, u) ==> Reopened(t.visits, k, u))
  {
    hide Reopened;
    var t := Take(may, w, step);
    assert forall v :: 0 <= v < |w.visits| ==>
      t.visits[v].key == w.visits[v].key && (w.visits[v].fate.Recorded? ==> t.visits[v] == w.visits[v]);
    forall k, u: nat | Reopened(w.visits, k, u)
      ensures Reopened(t.visits, k, u)
    {
      ReopenedStays(w.visits, t.visits, k, u);
    }
  }

  lemma ReopenedStays(before: seq<Visit>, after: seq<Visit>, key: Key, u: nat)
    requires Reopened(before, key, u) && |before| <= |after|
    requires forall v :: 0 <= v < |before| && before[v].fate.Recorded? ==> after[v] == before[v]
    ensures Reopened(after, key, u)
  {
    var v :| 0 <= v < |before| && before[v].key == key && ReopensBy(before[v].fate, u);
    assert after[v] == before[v];
  }

  lemma ReopenedLater(visits: seq<Visit>, key: Key, u: nat, later: nat)
    requires Reopened(visits, key, u) && u <= later
    ensures Reopened(visits, key, later)
  {
    var v :| 0 <= v < |visits| && visits[v].key == key && ReopensBy(visits[v].fate, u);
    assert ReopensBy(visits[v].fate, later);
  }

  /** A completed event stays so, unless a visit of it is now completed without a reference. */
  lemma CompletedStays(may: Answers, w: World, step: Step, key: Key)
    requires IsCompleted(w.s.events, key)
    ensures var t := Take(may, w, step); IsCompleted(t.s.events, key) || Reopened(t.visits, key, |t.visits|)
  {
    hide Reopened;
    if step.Completes? && OnVisit(w, step.flight, Ran) && Take(may, w, step) != w {
      RecordedNow(may, w, step.flight, step.result);
    }
  }

  lemma RecordedNow(may: Answers, w: World, f: nat, result: Option<string>)
    requires OnVisit(w, f, Ran) && Complete(may, w, f, result) != w
    ensures var t, key := Complete(may, w, f, result), w.visits[w.flights[f].visit.value].key;
            && (result.Some? && key in w.s.events ==> IsCompleted(t.s.events, key))
            && (result.None? ==> Reopened(t.visits, key, |t.visits|))
  {
    var t, v := Complete(may, w, f, result), w.flights[f].visit.value;
    assert t.visits[v].fate == Recorded(|w.visits|, result);
    assert result.None? ==> ReopensBy(t.visits[v].fate, |t.visits|);
  }

  /** A new visit finds its event open, which a completed one leaves only by a missing result. */
  lemma TakeCloses(may: Answers, w: World, step: Step, v: nat)
    requires RecordsClose(w) && v < |Take(may, w, step).visits|
    ensures Closed(Take(may, w, step), v)
  {
    hide Reopened;
    var t := Take(may, w, step);
    TakeKeepsRecorded(may, w, step);
    if t.visits[v].fate.Recorded? {
      var key := t.visits[v].key;
      NewlyRecorded(may, w, step, v);
      if v < |w.visits| && w.visits[v].fate.Recorded? {
        assert Closed(w, v);
        if Reopened(w.visits, key, |w.visits|) {
          ReopenedLater(t.visits, key, |w.visits|, |t.visits|);
        } else {
          CompletedStays(may, w, step, key);
        }
        OneVisitMore(may, w, step);
      }
    }
  }

  /** A step claims at most one visit, of an event that is open. */
  lemma OneVisitMore(may: Answers, w: World, step: Step)
    ensures var t := Take(may, w, step);
            |t.visits| == |w.visits|
            || (|t.visits| == |w.visits| + 1 && !IsCompleted(w.s.events, t.visits[|w.visits|].key))
  {
  }

  lemma NewlyRecorded(may: Answers, w: World, step: Step, v: nat)
    requires RecordsClose(w) && v < |Take(may, w, step).visits| && Take(may, w, step).visits[v].fate.Recorded?
    ensures v < |w.visits|
    ensures !w.visits[v].fate.Recorded? ==> Closed(Take(may, w, step), v)
  {
    hide Reopened, Closed;
    var t := Take(may, w, step);
    if v < |w.visits| && !w.visits[v].fate.Recorded? {
      assert step.Completes? && OnVisit(w, step.flight, Ran) && v == w.flights[step.flight].visit.value;
      RecordedNow(may, w, step.flight, step.result);
      assert t.visits[v].fate.claims == |w.visits| == |t.visits|;
      ClosedNow(t, v);
    }
  }

  lemma ClosedNow(t: World, v: nat)
    requires v < |t.visits| && t.visits[v].fate.Recorded? && t.visits[v].fate.claims == |t.visits|
    requires IsCompleted(t.s.events, t.visits[v].key) || Reopened(t.visits, t.visits[v].key, |t.visits|)
    ensures Closed(t, v)
  {
  }

  lemma TakeKeepsRecordsClosed(may: Answers, w: World, step: Step)
    requires RecordsClose(w)
    ensures RecordsClose(Take(may, w, step))
  {
    hide Take, Closed;
    TakeKeepsKeys(may, w, step);
    forall v | 0 <= v < |Take(may, w, step).visits|
      ensures Closed(Take(may, w, step), v)
    {
      TakeCloses(may, w, step, v);
    }
  }

  lemma {:induction false} EveryInterleavingIsKempt(may: Answers, steps: seq<Step>)
    ensures Kempt(Onwards(may, AT_REST, steps))
  {
    hide VisitsAreOwn, Tallied, RecordsClose, Take;
    if steps == [] {
      AtRestIsKempt();
    } else {
      var before, last := steps[..|steps| - 1], steps[|steps| - 1];
      EveryInterleavingIsKempt(may, before);
      TakeTallies(may, Onwards(may, AT_REST, before), last);
      TakeKeepsVisitsOwn(may, Onwards(may, AT_REST, before), last);
      TakeKeepsRecordsClosed(may, Onwards(may, AT_REST, before), last);
    }
  }

  lemma AtRestIsKempt()
    ensures Kempt(AT_REST)
  {
    assert forall k :: Kept([], k) == {} && Torn([], k) == {};
  }

  // ---------------------------------------------------------------- how often an event is applied

  /**
   * The exact count, over every interleaving and whatever the applier returns: an event was applied once for
   * each visit that crashed between applying and completing, and once for each that did not.
   */
  lemma ApplicationsAreVisits(may: Answers, steps: seq<Step>, key: Key)
    ensures var w := Onwards(may, AT_REST, steps);
            && Count(w.s.torn, key) == |Torn(w.visits, key)|
            && Count(w.s.effects, key) == |Torn(w.visits, key)| + |Kept(w.visits, key)|
  {
    EveryInterleavingIsKempt(may, steps);
    assert TalliedFor(Onwards(may, AT_REST, steps), key);
  }

  /**
   * An event is applied more than once more than crashes tore it exactly when two visits kept their application
   * and the later was claimed before the earlier's completion, or after some completion that recorded nothing.
   * An overlap with a visit that died is harmless, and so is every claim after a reference, which is absorbed.
   */
  lemma OverlapOrReopening(may: Answers, steps: seq<Step>, key: Key)
    ensures var w := Onwards(may, AT_REST, steps);
            Count(w.s.effects, key) > 1 + Count(w.s.torn, key) <==>
            exists i, j :: i in Kept(w.visits, key) && j in Kept(w.visits, key) && i < j
                           && (ClaimedWhileOpen(w.visits, i, j) || Reopened(w.visits, key, j))
  {
    hide VisitsAreOwn, Tallied, Reopened, Onwards;
    var w := Onwards(may, AT_REST, steps);
    var kept := Kept(w.visits, key);
    EveryInterleavingIsKempt(may, steps);
    ApplicationsAreVisits(may, steps, key);
    if |kept| > 1 {
      var i, j := TwoOf(kept);
      assert Closed(w, i);
      assert ClaimedWhileOpen(w.visits, i, j) || Reopened(w.visits, key, j);
    } else {
      OnlyOneOf(kept);
    }
  }

  lemma TwoOf(s: set<nat>) returns (i: nat, j: nat)
    requires |s| > 1
    ensures i in s && j in s && i < j
  {
    var a :| a in s;
    TakeOut(s, a);
    var b :| b in s - {a};
    i, j := if a < b then a else b, if a < b then b else a;
  }

  lemma OnlyOneOf(s: set<nat>)
    requires |s| <= 1
    ensures forall i, j :: i in s && j in s ==> i == j
  {
    forall i, j | i in s && j in s
      ensures i == j
    {
      TakeOut(s, i);
      assert i != j ==> j in s - {i};
    }
  }

  /** For an event whose application always leaves a reference, overlap is all there is to it. */
  lemma OverlapIsTheOnlyExcess(may: Answers, steps: seq<Step>, key: Key)
    requires !may(key, None)
    ensures var w := Onwards(may, AT_REST, steps);
            Count(w.s.effects, key) > 1 + Count(w.s.torn, key) <==>
            exists i, j :: i in Kept(w.visits, key) && j in Kept(w.visits, key) && ClaimedWhileOpen(w.visits, i, j)
  {
    hide Kept, Onwards;
    var w := Onwards(may, AT_REST, steps);
    OverlapOrReopening(may, steps, key);
    forall u: nat
      ensures !Reopened(w.visits, key, u)
    {
      ResultsArePossible(may, steps);
    }
  }

  lemma TakeRecordsThePossible(may: Answers, w: World, step: Step, v: nat)
    requires v < |Take(may, w, step).visits| && Take(may, w, step).visits[v].fate.Recorded?
    requires v < |w.visits| && w.visits[v].fate.Recorded? ==> may(w.visits[v].key, w.visits[v].fate.result)
    ensures var visit := Take(may, w, step).visits[v]; may(visit.key, visit.fate.result)
  {
  }

  ghost predicate AllPossible(may: Answers, visits: seq<Visit>) {
    forall v :: 0 <= v < |visits| && visits[v].fate.Recorded? ==> may(visits[v].key, visits[v].fate.result)
  }

  /** What a visit recorded is something its application may return. */
  lemma {:induction false} ResultsArePossible(may: Answers, steps: seq<Step>)
    ensures AllPossible(may, Onwards(may, AT_REST, steps).visits)
  {
    hide Take;
    if steps != [] {
      var w, last := Onwards(may, AT_REST, steps[..|steps| - 1]), steps[|steps| - 1];
      ResultsArePossible(may, steps[..|steps| - 1]);
      forall v | 0 <= v < |Take(may, w, last).visits| && Take(may, w, last).visits[v].fate.Recorded?
        ensures may(Take(may, w, last).visits[v].key, Take(may, w, last).visits[v].fate.result)
      {
        TakeRecordsThePossible(may, w, last, v);
      }
    }
  }
}
