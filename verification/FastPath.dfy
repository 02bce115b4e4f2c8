/**
 * The delivery-level check, with any deliveries in flight: a delivery once completed is answered at once. It is
 * compared with the same deliveries at a receiver without it, which sees no delivery ids.
 */
module FastPath {
  import opened Options
  import opened Webhook
  import opened WebhookRaces
  import opened DeliveryRuns

  type Batches = DeliveryId -> Option<seq<Key>>

  /** A delivery id always carries the same batch. */
  ghost predicate Steady(batchOf: Batches, steps: seq<Step>) {
    forall i :: 0 <= i < |steps| ==> SteadyStep(batchOf, steps[i])
  }

  predicate SteadyStep(batchOf: Batches, step: Step) {
    step.Arrives? && step.id.Some? ==> step.batch == batchOf(step.id.value)
  }

  function PlainStep(step: Step): Step {
    if step.Arrives? then step.(id := None) else step
  }

  /** The same steps as seen by a receiver without the check. */
  function PlainSteps(steps: seq<Step>): seq<Step> {
    seq(|steps|, i requires 0 <= i < |steps| => PlainStep(steps[i]))
  }

  // ---------------------------------------------------------------- which batches are safe to skip

  /** Applying the event can succeed. */
  ghost predicate Answerable(may: Answers, k: Key) {
    exists r :: may(k, r)
  }

  /** No event of the batch can succeed without leaving a reference. */
  ghost predicate Firm(may: Answers, keys: seq<Key>) {
    forall k :: k in keys ==> !may(k, None)
  }

  /** Every batch of an identified delivery that can be completed leaves a reference for each of its events. */
  ghost predicate AlwaysRefers(may: Answers, batchOf: Batches) {
    forall id :: batchOf(id).Some? && (forall k :: k in batchOf(id).value ==> Answerable(may, k)) ==> Firm(may, batchOf(id).value)
  }

  ghost predicate AllCompleted(s: State, keys: seq<Key>) {
    forall k :: k in keys ==> IsCompleted(s.events, k)
  }

  /** A completed delivery has completed all of its events, for good. */
  ghost predicate Vouched(may: Answers, batchOf: Batches, s: State) {
    forall id :: IsCompleted(s.deliveries, id) ==>
      batchOf(id).Some? && Firm(may, batchOf(id).value) && AllCompleted(s, batchOf(id).value)
  }

  /** A flight stands on its next event, and those behind it were applied: for good, if its batch is firm. */
  ghost predicate FlightSafe(may: Answers, batchOf: Batches, w: World, flight: Flight) {
    && flight.done <= |flight.keys|
    && (flight.visit.Some? ==>
          flight.done < |flight.keys| && flight.visit.value < |w.visits|
          && w.visits[flight.visit.value].key == flight.keys[flight.done])
    && (forall i :: 0 <= i < flight.done ==>
          Answerable(may, flight.keys[i]) && (Firm(may, flight.keys) ==> IsCompleted(w.s.events, flight.keys[i])))
    && (flight.id.Some? ==> batchOf(flight.id.value) == Some(flight.keys))
  }

  ghost predicate FlightsSafe(may: Answers, batchOf: Batches, w: World) {
    forall f :: f in w.flights ==> f in w.used && FlightSafe(may, batchOf, w, w.flights[f])
  }

  /** Every event with a visit is in the ledger, and every completed one could be applied. */
  ghost predicate LedgerSafe(may: Answers, w: World) {
    && (forall v :: 0 <= v < |w.visits| ==> w.visits[v].key in w.s.events)
    && (forall k :: IsCompleted(w.s.events, k) ==> Answerable(may, k))
  }

  ghost predicate CheckSafe(may: Answers, batchOf: Batches, w: World) {
    LedgerSafe(may, w) && FlightsSafe(may, batchOf, w) && Vouched(may, batchOf, w.s)
  }

  // ---------------------------------------------------------------- what every interleaving keeps

  lemma TakeKeepsLedgerSafe(may: Answers, w: World, step: Step)
    requires LedgerSafe(may, w)
    ensures LedgerSafe(may, Take(may, w, step))
  {
  }

  /** A completion that could only be replaced by another stays. */
  lemma FirmStays(may: Answers, w: World, step: Step, k: Key)
    requires IsCompleted(w.s.events, k) && !may(k, None)
    ensures IsCompleted(Take(may, w, step).s.events, k)
  {
  }

  lemma KeysStay(may: Answers, w: World, step: Step)
    ensures var t := Take(may, w, step);
            |w.visits| <= |t.visits| && forall v :: 0 <= v < |w.visits| ==> t.visits[v].key == w.visits[v].key
  {
  }

  lemma FlightLeftAlone(may: Answers, batchOf: Batches, w: World, step: Step, flight: Flight)
    requires FlightSafe(may, batchOf, w, flight)
    ensures FlightSafe(may, batchOf, Take(may, w, step), flight)
  {
    hide Take, IsCompleted;
    KeysStay(may, w, step);
    if Firm(may, flight.keys) {
      forall i | 0 <= i < flight.done
        ensures IsCompleted(Take(may, w, step).s.events, flight.keys[i])
      {
        FirmStays(may, w, step, flight.keys[i]);
      }
    }
  }

  lemma FlightMoves(may: Answers, batchOf: Batches, w: World, step: Step)
    requires LedgerSafe(may, w) && step.flight in w.flights && FlightSafe(may, batchOf, w, w.flights[step.flight])
    requires step.flight in w.used && step.flight in Take(may, w, step).flights
    ensures FlightSafe(may, batchOf, Take(may, w, step), Take(may, w, step).flights[step.flight])
  {
    var flight, t := w.flights[step.flight], Take(may, w, step);
    FlightLeftAlone(may, batchOf, w, step, flight);
    match step
    case Claims(f) =>
      if Waiting(w, f) && IsCompleted(w.s.events, flight.keys[flight.done]) {
        assert t.s.events == w.s.events;
      }
    case Completes(f, result) =>
      if OnVisit(w, f, Ran) && may(flight.keys[flight.done], result) {
        assert flight.keys[flight.done] in flight.keys;
      }
    case _ =>
  }

  lemma OthersStay(may: Answers, w: World, step: Step, f: nat)
    requires f != step.flight
    ensures var t := Take(may, w, step); (f in t.flights <==> f in w.flights) && (f in w.flights ==> t.flights[f] == w.flights[f])
  {
  }

  lemma TakeKeepsFlightsSafe(may: Answers, batchOf: Batches, w: World, step: Step)
    requires CheckSafe(may, batchOf, w) && SteadyStep(batchOf, step)
    ensures FlightsSafe(may, batchOf, Take(may, w, step))
  {
    hide Take, FlightSafe, LedgerSafe, Vouched;
    var t := Take(may, w, step);
    forall f | f in t.flights
      ensures f in t.used && FlightSafe(may, batchOf, t, t.flights[f])
    {
      NumbersStay(may, w, step);
      if f != step.flight {
        OthersStay(may, w, step, f);
        FlightLeftAlone(may, batchOf, w, step, w.flights[f]);
      } else if f in w.flights {
        FlightMoves(may, batchOf, w, step);
      } else {
        NewFlight(may, batchOf, w, step);
      }
    }
  }

  lemma NumbersStay(may: Answers, w: World, step: Step)
    ensures w.used <= Take(may, w, step).used
    ensures step.flight in Take(may, w, step).flights && step.flight !in w.flights ==> step.flight in Take(may, w, step).used
  {
  }

  lemma NewFlight(may: Answers, batchOf: Batches, w: World, step: Step)
    requires SteadyStep(batchOf, step) && step.flight !in w.flights && step.flight in Take(may, w, step).flights
    ensures FlightSafe(may, batchOf, Take(may, w, step), Take(may, w, step).flights[step.flight])
  {
  }

  /** A delivery is completed by a flight that is through, and only then. */
  lemma NewlyCompleted(may: Answers, batchOf: Batches, w: World, step: Step, id: DeliveryId)
    requires AlwaysRefers(may, batchOf) && FlightsSafe(may, batchOf, w)
    requires IsCompleted(Take(may, w, step).s.deliveries, id) && !IsCompleted(w.s.deliveries, id)
    ensures batchOf(id).Some? && Firm(may, batchOf(id).value) && AllCompleted(w.s, batchOf(id).value)
    ensures Take(may, w, step).s.events == w.s.events
  {
    hide Firm, Answerable;
    assert step.Finishes? && step.flight in w.flights && w.flights[step.flight].id == Some(id);
    var flight := w.flights[step.flight];
    assert FlightSafe(may, batchOf, w, flight) && flight.done == |flight.keys|;
    forall k | k in flight.keys
      ensures Answerable(may, k) && (Firm(may, flight.keys) ==> IsCompleted(w.s.events, k))
    {
      var i :| 0 <= i < |flight.keys| && flight.keys[i] == k;
    }
  }

  lemma TakeKeepsVouched(may: Answers, batchOf: Batches, w: World, step: Step)
    requires AlwaysRefers(may, batchOf) && CheckSafe(may, batchOf, w)
    ensures Vouched(may, batchOf, Take(may, w, step).s)
  {
    hide Take, FlightsSafe, LedgerSafe, AlwaysRefers, IsCompleted;
    var t := Take(may, w, step);
    forall id | IsCompleted(t.s.deliveries, id)
      ensures batchOf(id).Some? && Firm(may, batchOf(id).value) && AllCompleted(t.s, batchOf(id).value)
    {
      if IsCompleted(w.s.deliveries, id) {
        forall k | k in batchOf(id).value
          ensures IsCompleted(t.s.events, k)
        {
          FirmStays(may, w, step, k);
        }
      } else {
        NewlyCompleted(may, batchOf, w, step, id);
      }
    }
  }

  lemma {:induction false} EveryInterleavingIsCheckSafe(may: Answers, batchOf: Batches, steps: seq<Step>)
    requires AlwaysRefers(may, batchOf) && Steady(batchOf, steps)
    ensures CheckSafe(may, batchOf, Onwards(may, AT_REST, steps))
  {
    hide Take, AlwaysRefers, LedgerSafe, FlightsSafe, Vouched, SteadyStep;
    if steps == [] {
      AtRestIsCheckSafe(may, batchOf);
    } else {
      var before, last := steps[..|steps| - 1], steps[|steps| - 1];
      var w := Onwards(may, AT_REST, before);
      EveryInterleavingIsCheckSafe(may, batchOf, before);
      TakeKeepsLedgerSafe(may, w, last);
      TakeKeepsFlightsSafe(may, batchOf, w, last);
      TakeKeepsVouched(may, batchOf, w, last);
    }
  }

  lemma AtRestIsCheckSafe(may: Answers, batchOf: Batches)
    ensures CheckSafe(may, batchOf, AT_REST)
  {
  }

  /** Under every interleaving of steady deliveries and crashes, a completed delivery has completed all its events. */
  lemma CompletedDeliveriesAreDone(may: Answers, batchOf: Batches, steps: seq<Step>, id: DeliveryId)
    requires AlwaysRefers(may, batchOf) && Steady(batchOf, steps)
    requires IsCompleted(Onwards(may, AT_REST, steps).s.deliveries, id)
    ensures batchOf(id).Some? && AllCompleted(Onwards(may, AT_REST, steps).s, batchOf(id).value)
  {
    hide Onwards, AlwaysRefers;
    EveryInterleavingIsCheckSafe(may, batchOf, steps);
  }

  // ---------------------------------------------------------------- the two receivers side by side

  /** A flight only the receiver without the check has: it finds every event of its batch completed, for good. */
  ghost predicate Idle(may: Answers, s: State, flight: Flight) {
    flight.id.None? && flight.visit.None? && Firm(may, flight.keys) && AllCompleted(s, flight.keys)
  }

  /** The receiver with the check and the one without: the flights of the first are those of the second that work. */
  ghost predicate Agree(may: Answers, w: World, p: World) {
    && SameEffects(w.s, p.s) && w.visits == p.visits && w.used == p.used
    && (forall f :: f in w.flights ==> f in p.flights && p.flights[f] == w.flights[f].(id := None))
    && (forall f :: f in p.flights && f !in w.flights ==> Idle(may, p.s, p.flights[f]))
    && (forall f :: f in p.flights ==> f in p.used)
  }

  /** What an idle flight's step does: nothing but to it. */
  lemma IdleStep(may: Answers, p: World, step: Step)
    requires step.flight in p.flights && Idle(may, p.s, p.flights[step.flight]) && !step.Arrives?
    ensures var q := Take(may, p, step);
            && q.s == p.s && q.visits == p.visits && q.used == p.used
            && (step.flight in q.flights ==> Idle(may, q.s, q.flights[step.flight]))
  {
    var flight := p.flights[step.flight];
    assert flight.done < |flight.keys| ==> flight.keys[flight.done] in flight.keys;
  }

  lemma ArriveAgrees(may: Answers, batchOf: Batches, w: World, p: World, step: Step)
    requires Agree(may, w, p) && Vouched(may, batchOf, w.s) && SteadyStep(batchOf, step) && step.Arrives?
    ensures Agree(may, Take(may, w, step), Take(may, p, PlainStep(step)))
  {
    hide Firm;
  }

  /** The same flight in both, but for its id. */
  ghost predicate AgreeOn(w: World, p: World, f: nat) {
    && SameEffects(w.s, p.s) && w.visits == p.visits && w.used == p.used
    && (f in w.flights <==> f in p.flights)
    && (f in w.flights ==> p.flights[f] == w.flights[f].(id := None))
  }

  lemma CompleteAgrees(may: Answers, w: World, p: World, f: nat, result: Option<string>)
    requires AgreeOn(w, p, f)
    ensures AgreeOn(Complete(may, w, f, result), Complete(may, p, f, result), f)
  {
  }

  lemma CrashAgrees(w: World, p: World, f: nat)
    requires AgreeOn(w, p, f)
    ensures AgreeOn(Die(w, f), Die(p, f), f)
  {
  }

  /** Working flights of the two take the same step. */
  lemma WorkAgrees(may: Answers, w: World, p: World, step: Step)
    requires AgreeOn(w, p, step.flight) && !step.Arrives?
    ensures AgreeOn(Take(may, w, step), Take(may, p, step), step.flight)
    ensures Take(may, p, step).used == p.used
  {
    hide Complete, Die;
    NoNumberMore(may, p, step);
    match step
    case Completes(f, result) => CompleteAgrees(may, w, p, f, result);
    case Crashes(f) => CrashAgrees(w, p, f);
    case _ =>
  }

  lemma NoNumberMore(may: Answers, p: World, step: Step)
    requires !step.Arrives?
    ensures Take(may, p, step).used == p.used
  {
  }

  lemma IdleStays(may: Answers, p: World, step: Step, flight: Flight)
    requires Idle(may, p.s, flight)
    ensures Idle(may, Take(may, p, step).s, flight)
  {
    hide Take, IsCompleted;
    forall k | k in flight.keys
      ensures IsCompleted(Take(may, p, step).s.events, k)
    {
      FirmStays(may, p, step, k);
    }
  }

  lemma AbsentStep(may: Answers, w: World, step: Step)
    requires step.flight !in w.flights && !step.Arrives?
    ensures Take(may, w, step) == w
  {
  }

  lemma StepAgrees(may: Answers, batchOf: Batches, w: World, p: World, step: Step)
    requires Agree(may, w, p) && Vouched(may, batchOf, w.s) && SteadyStep(batchOf, step)
    ensures Agree(may, Take(may, w, step), Take(may, p, PlainStep(step)))
  {
    hide Take, Idle, Vouched, SteadyStep, SameEffects;
    var v, q := Take(may, w, step), Take(may, p, PlainStep(step));
    if step.Arrives? {
      ArriveAgrees(may, batchOf, w, p, step);
    } else {
      if step.flight in w.flights {
        WorkAgrees(may, w, p, step);
      } else {
        AbsentStep(may, w, step);
        if step.flight in p.flights {
          IdleStep(may, p, step);
        } else {
          AbsentStep(may, p, step);
        }
      }
      forall f | f != step.flight
        ensures (f in v.flights <==> f in w.flights) && (f in w.flights ==> v.flights[f] == w.flights[f])
        ensures (f in q.flights <==> f in p.flights) && (f in p.flights ==> q.flights[f] == p.flights[f])
      {
        OthersStay(may, w, step, f);
        OthersStay(may, p, step, f);
      }
      forall f | f in q.flights && f !in v.flights && f != step.flight
        ensures Idle(may, q.s, q.flights[f])
      {
        IdleStays(may, p, step, p.flights[f]);
      }
    }
  }

  /**
   * Whatever overlaps and whatever dies, the check never shows: with it and without it the same events are
   * recorded, with the same results, and every event is visited, applied and torn the same number of times.
   */
  lemma {:induction false} FastPathAgrees(may: Answers, batchOf: Batches, steps: seq<Step>)
    requires AlwaysRefers(may, batchOf) && Steady(batchOf, steps)
    ensures Agree(may, Onwards(may, AT_REST, steps), Onwards(may, AT_REST, PlainSteps(steps)))
  {
    hide Take, AlwaysRefers, SteadyStep, Vouched, LedgerSafe, FlightsSafe, Idle;
    if steps != [] {
      var before, last := steps[..|steps| - 1], steps[|steps| - 1];
      FastPathAgrees(may, batchOf, before);
      EveryInterleavingIsCheckSafe(may, batchOf, before);
      StepAgrees(may, batchOf, Onwards(may, AT_REST, before), Onwards(may, AT_REST, PlainSteps(before)), last);
      assert PlainSteps(steps)[..|steps| - 1] == PlainSteps(before);
    }
  }

  // ---------------------------------------------------------------- exactly when

  ghost predicate Invisible(may: Answers, steps: seq<Step>) {
    SameEffects(Onwards(may, AT_REST, steps).s, Onwards(may, AT_REST, PlainSteps(steps)).s)
  }

  /** The delivery-level check never shows: not in the events recorded, nor in the effects, however deliveries overlap. */
  ghost predicate FastPathIsInvisible(may: Answers, batchOf: Batches) {
    forall steps :: Steady(batchOf, steps) ==> Invisible(may, steps)
  }

  lemma {:induction false} PlainStepsTogether(a: seq<Step>, b: seq<Step>)
    ensures PlainSteps(a + b) == PlainSteps(a) + PlainSteps(b)
  {
  }

  lemma OwnStepsArePlain(f: nat, steps: seq<Step>)
    requires OwnSteps(f, steps)
    ensures PlainSteps(steps) == steps
  {
  }

  /** Without its id, a delivery's steps are those of the delivery without an id. */
  lemma PlainDelivery(ref: Applier, f: nat, a: Attempt)
    ensures PlainSteps(DeliverySteps(ref, f, a)) == DeliverySteps(ref, f, a.(id := None))
  {
    hide BatchSteps;
    if a.genuine {
      var rest := if a.batch.None? then [] else BatchSteps(ref, f, a.batch.value, a.crash);
      if a.batch.Some? {
        BatchStepsAreOwn(ref, f, a.batch.value, a.crash);
      }
      OwnStepsArePlain(f, rest);
      PlainStepsTogether([Arrives(f, a.id, a.batch)], rest);
      assert PlainSteps([Arrives(f, a.id, a.batch)]) == [Arrives(f, None, a.batch)];
    }
  }

  lemma {:induction false} PlainRun(ref: Applier, attempts: seq<Attempt>)
    ensures PlainSteps(AllSteps(ref, attempts)) == AllSteps(ref, Plain(attempts))
  {
    hide DeliverySteps;
    if attempts != [] {
      var before, last := attempts[..|attempts| - 1], attempts[|attempts| - 1];
      PlainRun(ref, before);
      PlainStepsTogether(AllSteps(ref, before), DeliverySteps(ref, |before|, last));
      PlainDelivery(ref, |before|, last);
      assert Plain(attempts)[..|attempts| - 1] == Plain(before);
    }
  }

  ghost predicate SteadyAttempts(batchOf: Batches, attempts: seq<Attempt>) {
    forall i :: 0 <= i < |attempts| && attempts[i].id.Some? ==> attempts[i].batch == batchOf(attempts[i].id.value)
  }

  lemma {:induction false} SteadyRun(ref: Applier, batchOf: Batches, attempts: seq<Attempt>)
    requires SteadyAttempts(batchOf, attempts)
    ensures Steady(batchOf, AllSteps(ref, attempts))
  {
    hide BatchSteps;
    if attempts != [] {
      var before, last := attempts[..|attempts| - 1], attempts[|attempts| - 1];
      SteadyRun(ref, batchOf, before);
      if last.batch.Some? {
        BatchStepsAreOwn(ref, |before|, last.batch.value, last.crash);
      }
    }
  }

  /** An applier that leaves no reference whenever it may leave none, and otherwise one it may. */
  ghost function Reluctant(may: Answers): Applier {
    k => if may(k, None) || !Answerable(may, k) then None else (var r :| may(k, r); r)
  }

  /** One identified delivery, sent twice: the check hides the second from an event that was left open. */
  lemma RepeatedDeliveryShows(may: Answers, batchOf: Batches, id: DeliveryId, k: Key)
    requires batchOf(id).Some? && k in batchOf(id).value && may(k, None)
    requires forall j :: j in batchOf(id).value ==> Answerable(may, j)
    ensures !FastPathIsInvisible(may, batchOf)
  {
    hide Onwards, Webhook.Run, SameEffects;
    var ref, keys := Reluctant(may), batchOf(id).value;
    var a := Attempt(Some(id), true, Some(keys), NoCrash);
    assert Obeys(ref, may, keys);
    RepeatedDeliveryDiffers(ref, id, keys, k);
    RunsAreInterleavings(ref, may, [a, a]);
    assert Plain([a, a]) == [a.(id := None), a.(id := None)];
    RunsAreInterleavings(ref, may, Plain([a, a]));
    PlainRun(ref, [a, a]);
    SteadyRun(ref, batchOf, [a, a]);
    assert !Invisible(may, AllSteps(ref, [a, a]));
  }

  /**
   * The fast path refines the plain form, for a provider whose delivery ids always carry the same batch and
   * however its deliveries overlap, exactly when every batch that can be completed leaves a reference for each
   * of its events. The ledger completes an entry only by the result recorded with it, whereas the delivery is
   * always recorded; so an applier that may return nothing, which its type allows, leaves events open that a
   * completed delivery then hides.
   */
  lemma FastPathRefinesPlain(may: Answers, batchOf: Batches)
    ensures FastPathIsInvisible(may, batchOf) <==> AlwaysRefers(may, batchOf)
  {
    hide Onwards, SameEffects, SteadyStep, Answerable, Idle;
    if AlwaysRefers(may, batchOf) {
      forall steps | Steady(batchOf, steps)
        ensures Invisible(may, steps)
      {
        FastPathAgrees(may, batchOf, steps);
      }
    } else {
      var id :| batchOf(id).Some? && (forall k :: k in batchOf(id).value ==> Answerable(may, k)) && !Firm(may, batchOf(id).value);
      var k :| k in batchOf(id).value && may(k, None);
      RepeatedDeliveryShows(may, batchOf, id, k);
    }
  }

  /** The same for the receiver's own runs, one delivery after another, where an event is always answered alike. */
  lemma SequentialFastPathAgrees(ref: Applier, batchOf: Batches, attempts: seq<Attempt>)
    requires SteadyAttempts(batchOf, attempts)
    requires forall id, k :: batchOf(id).Some? && k in batchOf(id).value ==> ref(k).Some?
    ensures SameEffects(Webhook.Run(ref, Webhook.EMPTY, attempts), Webhook.Run(ref, Webhook.EMPTY, Plain(attempts)))
  {
    hide Onwards, Webhook.Run, Idle;
    var may := (k: Key, r: Option<string>) => r == ref(k);
    SteadyRun(ref, batchOf, attempts);
    FastPathAgrees(may, batchOf, AllSteps(ref, attempts));
    PlainRun(ref, attempts);
    RunsAreInterleavings(ref, may, attempts);
    RunsAreInterleavings(ref, may, Plain(attempts));
  }
}
