/**
 * Interleavings written out: two deliveries that overlap, and deliveries one after another, which are the
 * receiver's own runs.
 */
module DeliveryRuns {
  import opened Options
  import opened Webhook
  import opened WebhookRaces

  // ---------------------------------------------------------------- short runs

  lemma TwoSteps(may: Answers, w: World, a: Step, b: Step)
    ensures Onwards(may, w, [a, b]) == Take(may, Take(may, w, a), b)
  {
    hide Take;
    OneStep(may, w, a);
    assert [a, b][..1] == [a];
  }

  lemma OneStep(may: Answers, w: World, a: Step)
    ensures Onwards(may, w, [a]) == Take(may, w, a)
  {
    hide Take;
    assert [a][..0] == [] && Onwards(may, w, []) == w;
  }

  lemma {:induction false} OnwardsTogether(may: Answers, w: World, first: seq<Step>, rest: seq<Step>)
    ensures Onwards(may, w, first + rest) == Onwards(may, Onwards(may, w, first), rest)
  {
    hide Take;
    if rest == [] {
      assert first + rest == first;
    } else {
      OnwardsTogether(may, w, first, rest[..|rest| - 1]);
      assert (first + rest)[..|first + rest| - 1] == first + rest[..|rest| - 1];
    }
  }

  lemma ThreeSteps(may: Answers, w: World, a: Step, b: Step, c: Step)
    ensures Onwards(may, w, [a, b, c]) == Take(may, Take(may, Take(may, w, a), b), c)
  {
    hide Take;
    TwoSteps(may, w, a, b);
    assert [a, b, c][..2] == [a, b];
  }

  // ---------------------------------------------------------------- an overlap

  /** Two deliveries of one event with no crash anywhere: both claims get through and both apply it. */
  lemma OverlappingDeliveriesBothApply(may: Answers, key: Key, first: Option<string>, second: Option<string>)
    requires may(key, first) && may(key, second)
    ensures var steps := [Arrives(0, None, Some([key])), Arrives(1, None, Some([key])), Claims(0), Claims(1),
                          Applies(0), Applies(1), Completes(0, first), Completes(1, second)];
            var w := Onwards(may, AT_REST, steps);
            && Count(w.s.effects, key) == 2 && Count(w.s.torn, key) == 0
            && (ClaimOf(w.s.events, key) == DUPLICATE <==> second.Some?)
  {
    hide Onwards, Take;
    var arrived := [Arrives(0, None, Some([key])), Arrives(1, None, Some([key]))];
    var claimed := [Claims(0), Claims(1)];
    var applied := [Applies(0), Applies(1)];
    var completed := [Completes(0, first), Completes(1, second)];
    TwoSteps(may, AT_REST, arrived[0], arrived[1]);
    var w1 := Onwards(may, AT_REST, arrived);
    BothArrive(may, key);
    TwoSteps(may, w1, claimed[0], claimed[1]);
    var w2 := Onwards(may, w1, claimed);
    BothClaim(may, w1, key);
    TwoSteps(may, w2, applied[0], applied[1]);
    var w3 := Onwards(may, w2, applied);
    BothApply(may, w2, key);
    TwoSteps(may, w3, completed[0], completed[1]);
    BothComplete(may, w3, key, first, second);
    OnwardsTogether(may, AT_REST, arrived, claimed);
    OnwardsTogether(may, AT_REST, arrived + claimed, applied);
    OnwardsTogether(may, AT_REST, arrived + claimed + applied, completed);
    assert arrived + claimed + applied + completed
        == [Arrives(0, None, Some([key])), Arrives(1, None, Some([key])), Claims(0), Claims(1),
            Applies(0), Applies(1), Completes(0, first), Completes(1, second)];
  }

  predicate TwoOn(w: World, key: Key, fate: Fate) {
    && 0 in w.flights && 1 in w.flights
    && w.flights[0] == Flight(None, [key], 0, Some(0)) && w.flights[1] == Flight(None, [key], 0, Some(1))
    && w.visits == [Visit(key, fate), Visit(key, fate)] && key in w.s.events
    && Count(w.s.torn, key) == 0
  }

  predicate TwoWaiting(w: World, key: Key) {
    && 0 in w.flights && 1 in w.flights && w.visits == []
    && w.flights[0] == Flight(None, [key], 0, None) && w.flights[1] == Flight(None, [key], 0, None)
    && w.s == Webhook.EMPTY
  }

  lemma BothArrive(may: Answers, key: Key)
    ensures TwoWaiting(Take(may, Take(may, AT_REST, Arrives(0, None, Some([key]))), Arrives(1, None, Some([key]))), key)
  {
  }

  lemma BothClaim(may: Answers, w: World, key: Key)
    requires TwoWaiting(w, key)
    ensures var t := Take(may, Take(may, w, Claims(0)), Claims(1));
            TwoOn(t, key, Held) && Count(t.s.effects, key) == 0 && t.s.events[key] == None
  {
    assert Take(may, w, Claims(0)).visits == [Visit(key, Held)];
  }

  lemma BothApply(may: Answers, w: World, key: Key)
    requires TwoOn(w, key, Held) && Count(w.s.effects, key) == 0
    ensures var t := Take(may, Take(may, w, Applies(0)), Applies(1));
            TwoOn(t, key, Ran) && Count(t.s.effects, key) == 2
  {
    assert Take(may, w, Applies(0)).visits == [Visit(key, Ran), Visit(key, Held)];
  }

  lemma BothComplete(may: Answers, w: World, key: Key, first: Option<string>, second: Option<string>)
    requires may(key, first) && may(key, second) && TwoOn(w, key, Ran)
    ensures var t := Take(may, Take(may, w, Completes(0, first)), Completes(1, second));
            && Count(t.s.effects, key) == Count(w.s.effects, key) && Count(t.s.torn, key) == 0
            && key in t.s.events && t.s.events[key] == second
  {
    assert Take(may, w, Completes(0, first)).visits == [Visit(key, Recorded(2, first)), Visit(key, Ran)];
  }

  // ---------------------------------------------------------------- one delivery at a time

  /** The steps in which a delivery handles one event, as far as it gets, when applying it returns `result`. */
  function EventSteps(f: nat, result: Option<string>, reached: Reached): seq<Step> {
    match reached
    case NOTHING => []
    case CLAIMED => [Claims(f)]
    case APPLIED => [Claims(f), Applies(f)]
    case COMPLETED => [Claims(f), Applies(f), Completes(f, result)]
  }

  function WholeEvents(ref: Applier, f: nat, keys: seq<Key>): seq<Step> {
    if keys == [] then []
    else WholeEvents(ref, f, keys[..|keys| - 1]) + EventSteps(f, ref(keys[|keys| - 1]), COMPLETED)
  }

  /** What a delivery does once it has arrived with a batch, to its end or to its crash. */
  function BatchSteps(ref: Applier, f: nat, keys: seq<Key>, crash: Crash): seq<Step> {
    if crash.NoCrash? then WholeEvents(ref, f, keys) + [Finishes(f)]
    else if crash.event >= |keys| then WholeEvents(ref, f, keys) + [Crashes(f)]
    else
      WholeEvents(ref, f, keys[..crash.event])
      + (EventSteps(f, ref(keys[crash.event]), crash.reached) + [Crashes(f)])
  }

  /** The steps of one delivery left to itself. */
  function DeliverySteps(ref: Applier, f: nat, a: Attempt): seq<Step> {
    if !a.genuine then []
    else
      [Arrives(f, a.id, a.batch)] + if a.batch.None? then [] else BatchSteps(ref, f, a.batch.value, a.crash)
  }

  /** What the applier returns for these events is among what it may return. */
  ghost predicate Obeys(ref: Applier, may: Answers, keys: seq<Key>) {
    forall k :: k in keys ==> may(k, ref(k))
  }

  predicate Waiting(w: World, f: nat) {
    f in w.flights && w.flights[f].visit.None? && w.flights[f].done < |w.flights[f].keys|
  }

  /** A claim that gets through, and its application. */
  lemma ClaimAndApply(may: Answers, w: World, f: nat)
    requires Waiting(w, f)
    ensures var flight := w.flights[f];
            var key, t := flight.keys[flight.done], Take(may, Take(may, w, Claims(f)), Applies(f));
            var claimed := w.s.(events := Claimed(w.s.events, key));
            && t.used == w.used
            && if IsCompleted(w.s.events, key)
               then t.s == claimed && t.flights == w.flights[f := flight.(done := flight.done + 1)]
               else
                 && t.s == claimed.(effects := More(w.s.effects, key))
                 && t.flights == w.flights[f := flight.(visit := Some(|w.visits|))]
                 && t.visits == w.visits + [Visit(key, Ran)]
  {
  }

  lemma EventIsSteps(ref: Applier, may: Answers, w: World, f: nat)
    requires Waiting(w, f) && Obeys(ref, may, w.flights[f].keys)
    ensures var flight := w.flights[f];
            var key := flight.keys[flight.done];
            var t := Onwards(may, w, EventSteps(f, ref(key), COMPLETED));
            && t.s == OneEvent(ref, w.s, key, COMPLETED)
            && t.flights == w.flights[f := flight.(done := flight.done + 1)] && t.used == w.used
  {
    hide ClaimNext, Apply, Onwards;
    var key := w.flights[f].keys[w.flights[f].done];
    ThreeSteps(may, w, Claims(f), Applies(f), Completes(f, ref(key)));
    ClaimAndApply(may, w, f);
    assert may(key, ref(key));
  }

  lemma CrashInAnEvent(ref: Applier, may: Answers, w: World, f: nat, reached: Reached)
    requires Waiting(w, f) && Obeys(ref, may, w.flights[f].keys)
    ensures var flight := w.flights[f];
            var key := flight.keys[flight.done];
            var t := Onwards(may, w, EventSteps(f, ref(key), reached) + [Crashes(f)]);
            t.s == OneEvent(ref, w.s, key, reached) && t.flights == w.flights - {f} && t.used == w.used
  {
    hide Take, Onwards;
    var key := w.flights[f].keys[w.flights[f].done];
    OnwardsTogether(may, w, EventSteps(f, ref(key), reached), [Crashes(f)]);
    OneStep(may, Onwards(may, w, EventSteps(f, ref(key), reached)), Crashes(f));
    match reached
    case NOTHING =>
      NoSteps(may, w);
      CrashAfterNothing(may, w, f);
    case CLAIMED =>
      OneStep(may, w, Claims(f));
      CrashAfterClaiming(ref, may, w, f);
    case APPLIED =>
      TwoSteps(may, w, Claims(f), Applies(f));
      CrashAfterApplying(ref, may, w, f);
    case COMPLETED =>
      EventIsSteps(ref, may, w, f);
      CrashAfterNothing(may, Onwards(may, w, EventSteps(f, ref(key), COMPLETED)), f);
  }

  lemma NoSteps(may: Answers, w: World)
    ensures Onwards(may, w, []) == w
  {
  }

  lemma CrashAfterNothing(may: Answers, w: World, f: nat)
    requires f in w.flights && w.flights[f].visit.None?
    ensures Take(may, w, Crashes(f)) == w.(flights := w.flights - {f})
  {
  }

  lemma CrashAfterClaiming(ref: Applier, may: Answers, w: World, f: nat)
    requires Waiting(w, f)
    ensures var flight, t := w.flights[f], Take(may, Take(may, w, Claims(f)), Crashes(f));
            && t.s == OneEvent(ref, w.s, flight.keys[flight.done], CLAIMED)
            && t.flights == w.flights - {f} && t.used == w.used
  {
  }

  lemma CrashAfterApplying(ref: Applier, may: Answers, w: World, f: nat)
    requires Waiting(w, f)
    ensures var flight, t := w.flights[f], Take(may, Take(may, Take(may, w, Claims(f)), Applies(f)), Crashes(f));
            && t.s == OneEvent(ref, w.s, flight.keys[flight.done], APPLIED)
            && t.flights == w.flights - {f} && t.used == w.used
  {
    hide ClaimNext, Apply;
    ClaimAndApply(may, w, f);
  }

  lemma {:induction false} BatchIsSteps(ref: Applier, may: Answers, w: World, f: nat, n: nat)
    requires f in w.flights && w.flights[f].visit.None? && w.flights[f].done == 0 && n <= |w.flights[f].keys|
    requires Obeys(ref, may, w.flights[f].keys)
    ensures var flight := w.flights[f];
            var t := Onwards(may, w, WholeEvents(ref, f, flight.keys[..n]));
            && t.s == AllEvents(ref, w.s, flight.keys[..n])
            && t.flights == w.flights[f := flight.(done := n)] && t.used == w.used
  {
    hide Take, EventSteps, OneEvent, Obeys;
    if n > 0 {
      var keys := w.flights[f].keys;
      BatchIsSteps(ref, may, w, f, n - 1);
      assert keys[..n][..n - 1] == keys[..n - 1];
      OnwardsTogether(may, w, WholeEvents(ref, f, keys[..n - 1]), EventSteps(f, ref(keys[n - 1]), COMPLETED));
      EventIsSteps(ref, may, Onwards(may, w, WholeEvents(ref, f, keys[..n - 1])), f);
    }
  }

  /** What follows the arrival brings the ledgers to where `Batch` does, and ends the flight. */
  lemma AfterArrival(ref: Applier, may: Answers, w: World, f: nat, crash: Crash)
    requires f in w.flights && w.flights[f].visit.None? && w.flights[f].done == 0
    requires Obeys(ref, may, w.flights[f].keys)
    ensures var flight := w.flights[f];
            var t := Onwards(may, w, BatchSteps(ref, f, flight.keys, crash));
            var done := Batch(ref, w.s, flight.keys, crash);
            && t.flights == w.flights - {f} && t.used == w.used
            && t.s == if flight.id.Some? && crash.NoCrash?
                      then done.(deliveries := Completed(done.deliveries, flight.id.value, Some("applied")))
                      else done
  {
    hide Take, Onwards, EventSteps, OneEvent, AllEvents, WholeEvents, Obeys;
    var keys := w.flights[f].keys;
    var n := if crash.NoCrash? || crash.event >= |keys| then |keys| else crash.event;
    BatchIsSteps(ref, may, w, f, n);
    var t := Onwards(may, w, WholeEvents(ref, f, keys[..n]));
    assert keys[..|keys|] == keys;
    if crash.NoCrash? {
      OnwardsTogether(may, w, WholeEvents(ref, f, keys), [Finishes(f)]);
      OneStep(may, t, Finishes(f));
      FinishEnds(may, t, f);
    } else if crash.event >= |keys| {
      OnwardsTogether(may, w, WholeEvents(ref, f, keys), [Crashes(f)]);
      OneStep(may, t, Crashes(f));
      CrashAfterNothing(may, t, f);
    } else {
      OnwardsTogether(may, w, WholeEvents(ref, f, keys[..n]), EventSteps(f, ref(keys[n]), crash.reached) + [Crashes(f)]);
      CrashInAnEvent(ref, may, t, f, crash.reached);
    }
  }

  lemma FinishEnds(may: Answers, w: World, f: nat)
    requires f in w.flights && w.flights[f].visit.None? && w.flights[f].done == |w.flights[f].keys|
    ensures var t, id := Take(may, w, Finishes(f)), w.flights[f].id;
            && t.flights == w.flights - {f} && t.used == w.used
            && t.s == if id.Some? then w.s.(deliveries := Completed(w.s.deliveries, id.value, Some("applied"))) else w.s
  {
  }

  lemma {:induction false} NotInFlight(may: Answers, w: World, f: nat, steps: seq<Step>)
    requires f !in w.flights && forall i :: 0 <= i < |steps| ==> steps[i].flight == f && !steps[i].Arrives?
    ensures Onwards(may, w, steps) == w
  {
    if steps != [] {
      NotInFlight(may, w, f, steps[..|steps| - 1]);
    }
  }

  /** What follows an arrival: steps of that flight, and no arrival. */
  ghost predicate OwnSteps(f: nat, steps: seq<Step>) {
    forall i :: 0 <= i < |steps| ==> steps[i].flight == f && !steps[i].Arrives?
  }

  lemma {:induction false} WholeEventsAreOwn(ref: Applier, f: nat, keys: seq<Key>)
    ensures OwnSteps(f, WholeEvents(ref, f, keys))
  {
    if keys != [] {
      WholeEventsAreOwn(ref, f, keys[..|keys| - 1]);
    }
  }

  lemma BatchStepsAreOwn(ref: Applier, f: nat, keys: seq<Key>, crash: Crash)
    ensures OwnSteps(f, BatchSteps(ref, f, keys, crash))
  {
    hide WholeEvents;
    WholeEventsAreOwn(ref, f, keys);
    if crash.Dies? && crash.event < |keys| {
      WholeEventsAreOwn(ref, f, keys[..crash.event]);
    }
  }

  lemma Arrival(may: Answers, w: World, f: nat, id: Option<DeliveryId>, batch: Option<seq<Key>>)
    requires f !in w.used
    ensures var t := Take(may, w, Arrives(f, id, batch));
            && t.used == w.used + {f}
            && if id.Some? && IsCompleted(w.s.deliveries, id.value) then t.s == w.s && t.flights == w.flights
               else
                 && t.s == (if id.Some? then w.s.(deliveries := Claimed(w.s.deliveries, id.value)) else w.s)
                 && t.flights == if batch.None? then w.flights else w.flights[f := Flight(id, batch.value, 0, None)]
  {
  }

  /**
   * A delivery that meets no other is one of the interleavings: its steps in a row, whatever else is in flight,
   * take the ledgers and the effects exactly where the receiver does, crashes included.
   */
  lemma DeliveryIsARun(ref: Applier, may: Answers, w: World, f: nat, a: Attempt)
    requires f !in w.used && f !in w.flights && (a.batch.Some? ==> Obeys(ref, may, a.batch.value))
    ensures var t := Onwards(may, w, DeliverySteps(ref, f, a));
            && t.s == Receive(ref, w.s, a) && t.flights == w.flights
            && t.used == if a.genuine then w.used + {f} else w.used
  {
    hide Take, Onwards, BatchSteps, Batch, Obeys;
    if !a.genuine {
      NoSteps(may, w);
    } else {
      var rest := if a.batch.None? then [] else BatchSteps(ref, f, a.batch.value, a.crash);
      var arrived := Onwards(may, w, [Arrives(f, a.id, a.batch)]);
      OnwardsTogether(may, w, [Arrives(f, a.id, a.batch)], rest);
      OneStep(may, w, Arrives(f, a.id, a.batch));
      Arrival(may, w, f, a.id, a.batch);
      if a.batch.None? {
        NoSteps(may, arrived);
      } else if a.id.Some? && IsCompleted(w.s.deliveries, a.id.value) {
        BatchStepsAreOwn(ref, f, a.batch.value, a.crash);
        NotInFlight(may, arrived, f, rest);
      } else {
        AfterArrival(ref, may, arrived, f, a.crash);
        assert arrived.flights - {f} == w.flights;
      }
    }
  }

  /** The steps of deliveries one after another. */
  function AllSteps(ref: Applier, attempts: seq<Attempt>): seq<Step> {
    if attempts == [] then []
    else AllSteps(ref, attempts[..|attempts| - 1]) + DeliverySteps(ref, |attempts| - 1, attempts[|attempts| - 1])
  }

  /** So every run of the receiver, any deliveries one after another, is one of the interleavings. */
  lemma {:induction false} RunsAreInterleavings(ref: Applier, may: Answers, attempts: seq<Attempt>)
    requires forall i :: 0 <= i < |attempts| && attempts[i].batch.Some? ==> Obeys(ref, may, attempts[i].batch.value)
    ensures var t := Onwards(may, AT_REST, AllSteps(ref, attempts));
            t.s == Run(ref, Webhook.EMPTY, attempts) && t.flights == map[] && forall f :: f in t.used ==> f < |attempts|
  {
    hide Obeys, DeliverySteps, Receive, Take;
    if attempts != [] {
      var before, last := attempts[..|attempts| - 1], attempts[|attempts| - 1];
      RunsAreInterleavings(ref, may, before);
      OnwardsTogether(may, AT_REST, AllSteps(ref, before), DeliverySteps(ref, |before|, last));
      DeliveryIsARun(ref, may, Onwards(may, AT_REST, AllSteps(ref, before)), |before|, last);
    }
  }
}
