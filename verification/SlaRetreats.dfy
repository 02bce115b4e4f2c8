/**
 * Whether a running clock's verdict ever goes back: not on whole-second data, and on milliseconds exactly when
 * its pauses are rounded down where they were rounded up.
 */
module SlaRetreats {
  import opened Options
  import opened Calendar
  import opened Clock
  import opened ClockLaws
  import opened ElapsedLaws
  import opened SlaLaws
  import opened SlaState
  import opened Sums
  import opened WallClock

  function StatusRank(status: SlaStatus): nat {
    match status
    case BREACHED => 2
    case WARNING => 1
    case _ => 0
  }

  /** On whole-second data and with disjoint pauses the verdict only moves forward as it is asked later. */
  lemma VerdictNeverRetreats(
      target: SlaTarget, facts: ClockFacts, calendars: seq<BusinessCalendar>, at: int, later: int)
    requires RunningWhole(target, facts, calendars, at) && RunningWhole(target, facts, calendars, later)
    requires at <= later <= facts.startedAt.value + GUARD_MS
    requires PausesDisjoint(PausesOf(target, facts))
    ensures StateOf(target, facts, calendars, at).elapsedSeconds
         <= StateOf(target, facts, calendars, later).elapsedSeconds
    ensures StatusRank(StateOf(target, facts, calendars, at).status)
         <= StatusRank(StateOf(target, facts, calendars, later).status)
  {
    hide MeasuredMs, RateOf, WholeVersions, SoundFor, BreachAt, PausedOf, GrossSeconds, PausesDisjoint;
    ElapsedIsUnpausedTime(target, facts, calendars, at);
    ElapsedIsUnpausedTime(target, facts, calendars, later);
    var pauses := PausesOf(target, facts);
    SumGrows(UnpausedRate(RateOf(target.basis, calendars), pauses, |pauses|), facts.startedAt.value, at, later);
  }

  /** What one pause's clipped span measures, against its exact share: nothing is lost on a 24x7 basis. */
  lemma PauseRounds(pause: PauseSpan, lo: int, hi: int, basis: SlaBasis, calendars: seq<BusinessCalendar>)
    requires SoundFor(basis, calendars) && lo <= hi <= lo + GUARD_MS
    ensures var span := ClipPause(pause, lo, hi);
            var measured := if span.to <= span.from then 0 else MeasuredMs(basis, calendars, span.from, span.to);
            var exact := Sum(RateOf(basis, calendars), span.from, span.to);
            && exact - 499 <= measured <= exact + 500
            && (basis == CALENDAR_24X7 ==> measured == exact)
  {
    hide SoundFor, DepthAt, ElapsedSeconds;
    var span := ClipPause(pause, lo, hi);
    if span.from < span.to {
      MeasureIsRate(basis, calendars, span.from, span.to);
      if basis == CALENDAR_24X7 {
        SumOne(Always(), span.from, span.to);
      }
    }
  }

  /** Disjoint pauses and what is left add up to the whole, up to half a second for each pause that is rounded. */
  lemma {:induction false} PausesNearlyPartitionTime(
      pauses: seq<PauseSpan>, n: nat, lo: int, hi: int, basis: SlaBasis, calendars: seq<BusinessCalendar>)
    requires n <= |pauses| && SoundFor(basis, calendars) && lo <= hi <= lo + GUARD_MS && PausesDisjoint(pauses)
    ensures var paused := ExactMs(basis, calendars, lo, hi) - Sum(UnpausedRate(RateOf(basis, calendars), pauses, n), lo, hi);
            && paused - 499 * n <= PausedMs(pauses, n, lo, hi, basis, calendars) <= paused + 500 * n
            && (basis == CALENDAR_24X7 ==> PausedMs(pauses, n, lo, hi, basis, calendars) == paused)
  {
    hide SoundFor, RateOf, MeasuredMs, UnpausedRate, PausesDisjoint, ClipPause, Sum;
    var rate := RateOf(basis, calendars);
    if n == 0 {
      NoPausesYet(rate, pauses, lo, hi);
    } else {
      PausesNearlyPartitionTime(pauses, n - 1, lo, hi, basis, calendars);
      PauseComesOff(rate, pauses, n, lo, hi);
      PauseRounds(pauses[n - 1], lo, hi, basis, calendars);
    }
  }

  /** Whole seconds of business-hours pauses: each was rounded on its own. */
  lemma {:induction false} BusinessPausesAreWhole(
      pauses: seq<PauseSpan>, n: nat, lo: int, hi: int, calendars: seq<BusinessCalendar>)
    requires n <= |pauses|
    ensures Whole(PausedMs(pauses, n, lo, hi, BUSINESS_HOURS, calendars))
  {
    hide ElapsedSeconds;
    if n > 0 {
      BusinessPausesAreWhole(pauses, n - 1, lo, hi, calendars);
    }
  }

  /** The elapsed seconds stay close to the unpaused time: off by the rounding of the whole and of each pause. */
  lemma ElapsedIsNearUnpausedTime(target: SlaTarget, facts: ClockFacts, calendars: seq<BusinessCalendar>, at: int)
    requires Running(target, facts, calendars, at) && at <= facts.startedAt.value + GUARD_MS
    requires PausesDisjoint(PausesOf(target, facts))
    ensures var elapsed := 1000 * StateOf(target, facts, calendars, at).elapsedSeconds;
            var unpaused, n := UnpausedMs(target, facts, calendars, at), |PausesOf(target, facts)|;
            && unpaused - 499 - 500 * n <= elapsed
            && (elapsed == 0 || elapsed <= unpaused + 500 + 499 * n)
  {
    hide MeasuredMs, RateOf, SoundFor, BreachAt, PausedMs, UnpausedRate, PausesDisjoint, RunningStatus, Sum;
    var start := facts.startedAt.value;
    var pauses := PausesOf(target, facts);
    MeasureIsRate(target.basis, calendars, start, at);
    PausesNearlyPartitionTime(pauses, |pauses|, start, at, target.basis, calendars);
    if target.basis == BUSINESS_HOURS {
      BusinessPausesAreWhole(pauses, |pauses|, start, at, calendars);
    } else if pauses == [] {
      NothingPaused(pauses, start, at, target.basis, calendars);
    }
  }

  lemma NothingPaused(pauses: seq<PauseSpan>, lo: int, hi: int, basis: SlaBasis, calendars: seq<BusinessCalendar>)
    requires pauses == []
    ensures PausedMs(pauses, |pauses|, lo, hi, basis, calendars) == 0
  {
  }

  /**
   * On millisecond instants the elapsed seconds of either basis can fall as time passes, but by no more than
   * one for each pause; a clock with no pauses never falls.
   */
  lemma RetreatsAtMostOncePerPause(
      target: SlaTarget, facts: ClockFacts, calendars: seq<BusinessCalendar>, at: int, later: int)
    requires Running(target, facts, calendars, at) && at <= later <= facts.startedAt.value + GUARD_MS
    requires PausesDisjoint(PausesOf(target, facts))
    ensures StateOf(target, facts, calendars, later).elapsedSeconds
         >= StateOf(target, facts, calendars, at).elapsedSeconds - |PausesOf(target, facts)|
  {
    hide StateOf, RateOf, SoundFor, UnpausedRate, PausesDisjoint, Sum;
    ElapsedIsNearUnpausedTime(target, facts, calendars, at);
    ElapsedIsNearUnpausedTime(target, facts, calendars, later);
    ElapsedIsNotNegative(target, facts, calendars, later);
    var pauses := PausesOf(target, facts);
    SumGrows(UnpausedRate(RateOf(target.basis, calendars), pauses, |pauses|), facts.startedAt.value, at, later);
  }

  lemma ElapsedIsNotNegative(target: SlaTarget, facts: ClockFacts, calendars: seq<BusinessCalendar>, at: int)
    ensures StateOf(target, facts, calendars, at).elapsedSeconds >= 0
  {
    hide PausedOf, GrossSeconds, BreachAt, RunningStatus;
  }

  /** Whether rounding the whole and the paused time apart shows one second more than has fully passed. */
  predicate RoundsUp(unpaused: nat, paused: int) {
    unpaused % 1000 + (paused + 500) % 1000 >= 1000
  }

  /** A 24x7 clock shows its unpaused time in whole seconds, rounded up or down by how long it was paused. */
  lemma CalendarElapsedIsExact(target: SlaTarget, facts: ClockFacts, calendars: seq<BusinessCalendar>, at: int)
    requires Running(target, facts, calendars, at) && at <= facts.startedAt.value + GUARD_MS
    requires target.basis == CALENDAR_24X7 && PausesDisjoint(PausesOf(target, facts))
    ensures var unpaused := UnpausedMs(target, facts, calendars, at);
            var paused := at - facts.startedAt.value - unpaused;
            && paused >= 0
            && StateOf(target, facts, calendars, at).elapsedSeconds
               == unpaused / 1000 + if RoundsUp(unpaused, paused) then 1 else 0
  {
    hide RateOf, SoundFor, BreachAt, PausedMs, UnpausedRate, PausesDisjoint, RunningStatus, Sum;
    var start := facts.startedAt.value;
    var pauses := PausesOf(target, facts);
    PausesNearlyPartitionTime(pauses, |pauses|, start, at, target.basis, calendars);
    MeasureOfAlways(calendars, start, at);
    PausedIsNotNegative(pauses, |pauses|, start, at, target.basis, calendars);
    RoundedApart(UnpausedMs(target, facts, calendars, at), PausedMs(pauses, |pauses|, start, at, target.basis, calendars));
  }

  lemma MeasureOfAlways(calendars: seq<BusinessCalendar>, lo: int, hi: int)
    requires lo <= hi
    ensures ExactMs(CALENDAR_24X7, calendars, lo, hi) == hi - lo
  {
    SumOne(Always(), lo, hi);
  }

  lemma RoundedApart(unpaused: nat, paused: nat)
    ensures RoundToSeconds(unpaused + paused) - RoundToSeconds(paused)
         == unpaused / 1000 + if RoundsUp(unpaused, paused) then 1 else 0
  {
  }

  /** The thresholds a status changes at, one second at a time. */
  predicate AtThreshold(target: SlaTarget, elapsed: int) {
    StatusRank(RunningStatus(target, elapsed)) > StatusRank(RunningStatus(target, elapsed - 1))
  }

  /**
   * Exactly when a 24x7 clock on millisecond instants retreats: the unpaused time is still within the same
   * second, and the longer pause rounds it down where it was rounded up. It retreats by one second, and the
   * status with it exactly at a threshold.
   */
  lemma WhenTheVerdictRetreats(
      target: SlaTarget, facts: ClockFacts, calendars: seq<BusinessCalendar>, at: int, later: int)
    requires Running(target, facts, calendars, at) && at <= later <= facts.startedAt.value + GUARD_MS
    requires target.basis == CALENDAR_24X7 && PausesDisjoint(PausesOf(target, facts))
    ensures var before, after := StateOf(target, facts, calendars, at), StateOf(target, facts, calendars, later);
            var u, v := UnpausedMs(target, facts, calendars, at), UnpausedMs(target, facts, calendars, later);
            var start := facts.startedAt.value;
            && (after.elapsedSeconds < before.elapsedSeconds <==>
                  u / 1000 == v / 1000 && RoundsUp(u, at - start - u) && !RoundsUp(v, later - start - v))
            && after.elapsedSeconds >= before.elapsedSeconds - 1
            && (StatusRank(after.status) < StatusRank(before.status) <==>
                  after.elapsedSeconds < before.elapsedSeconds && AtThreshold(target, before.elapsedSeconds))
  {
    hide GrossSeconds, PausedOf, BreachAt, RateOf, SoundFor, UnpausedRate, PausesDisjoint, Sum, RoundsUp, RunningStatus;
    CalendarElapsedIsExact(target, facts, calendars, at);
    CalendarElapsedIsExact(target, facts, calendars, later);
    var pauses := PausesOf(target, facts);
    SumGrows(UnpausedRate(RateOf(target.basis, calendars), pauses, |pauses|), facts.startedAt.value, at, later);
    StatusFollowsElapsed(target, StateOf(target, facts, calendars, at).elapsedSeconds,
                         StateOf(target, facts, calendars, later).elapsedSeconds);
  }

  lemma StatusFollowsElapsed(target: SlaTarget, before: int, after: int)
    ensures before <= after ==> StatusRank(RunningStatus(target, before)) <= StatusRank(RunningStatus(target, after))
  {
  }

  /** A clock with a one-second target, paused from 600 ms on, is BREACHED at 1000 ms and RUNNING at 1100 ms. */
  lemma VerdictCanRetreat()
    ensures var target := SlaTarget(RESOLUTION, 1, CALENDAR_24X7, 80, false);
            var facts := ClockFacts(Some(0), None, [PauseSpan(600, None)]);
            && StateOf(target, facts, [], 1000).status == BREACHED && StateOf(target, facts, [], 1000).elapsedSeconds == 1
            && StateOf(target, facts, [], 1100).status == RUNNING && StateOf(target, facts, [], 1100).elapsedSeconds == 0
  {
    var pauses := [PauseSpan(600, None)];
    assert PausedMs(pauses, 0, 0, 1000, CALENDAR_24X7, []) == 0 && PausedMs(pauses, 0, 0, 1100, CALENDAR_24X7, []) == 0;
    assert PausedMs(pauses, 1, 0, 1000, CALENDAR_24X7, []) == 400;
    assert PausedMs(pauses, 1, 0, 1100, CALENDAR_24X7, []) == 500;
  }

  /** What rounding to the nearest second leaves over: positive if it rounded down. */
  function Remainder(ms: int): int {
    (ms + 500) % 1000 - 500
  }

  /** What the first `n` pauses of a business-hours clock leave over, each rounded on its own. */
  ghost function PauseRemainders(pauses: seq<PauseSpan>, n: nat, lo: int, hi: int, calendars: seq<BusinessCalendar>): int
    requires n <= |pauses|
  {
    if n == 0 then 0
    else
      var span := ClipPause(pauses[n - 1], lo, hi);
      PauseRemainders(pauses, n - 1, lo, hi, calendars) + Remainder(ExactMs(BUSINESS_HOURS, calendars, span.from, span.to))
  }

  lemma BusinessMeasureIsExact(calendars: seq<BusinessCalendar>, from: int, to: int)
    requires Sound(calendars) && from <= to <= from + GUARD_MS
    ensures var exact := ExactMs(BUSINESS_HOURS, calendars, from, to);
            MeasuredMs(BUSINESS_HOURS, calendars, from, to) == exact - Remainder(exact)
  {
    hide Sound, ElapsedSeconds, ExactMs;
    MeasureIsRate(BUSINESS_HOURS, calendars, from, to);
  }

  /** Disjoint pauses, what is left, and what was rounded off add up to the whole. */
  lemma {:induction false} BusinessPausesPartitionTime(
      pauses: seq<PauseSpan>, n: nat, lo: int, hi: int, calendars: seq<BusinessCalendar>)
    requires n <= |pauses| && Sound(calendars) && lo <= hi <= lo + GUARD_MS && PausesDisjoint(pauses)
    ensures ExactMs(BUSINESS_HOURS, calendars, lo, hi)
            == PausedMs(pauses, n, lo, hi, BUSINESS_HOURS, calendars)
             + Sum(UnpausedRate(RateOf(BUSINESS_HOURS, calendars), pauses, n), lo, hi)
             + PauseRemainders(pauses, n, lo, hi, calendars)
  {
    hide Sound, RateOf, MeasuredMs, UnpausedRate, PausesDisjoint, Sum;
    var rate := RateOf(BUSINESS_HOURS, calendars);
    if n == 0 {
      NoPausesYet(rate, pauses, lo, hi);
    } else {
      var span := ClipPause(pauses[n - 1], lo, hi);
      BusinessPausesPartitionTime(pauses, n - 1, lo, hi, calendars);
      PauseComesOff(rate, pauses, n, lo, hi);
      if span.from < span.to {
        BusinessMeasureIsExact(calendars, span.from, span.to);
      } else {
        NothingInside(rate, span.from, span.to);
      }
    }
  }

  lemma NothingInside(rate: int -> nat, from: int, to: int)
    requires to <= from
    ensures Sum(rate, from, to) == 0
  {
  }

  /** A business-hours clock shows its unpaused time, and what its pauses left over, to the nearest second. */
  lemma BusinessElapsedIsExact(target: SlaTarget, facts: ClockFacts, calendars: seq<BusinessCalendar>, at: int)
    requires Running(target, facts, calendars, at) && at <= facts.startedAt.value + GUARD_MS
    requires target.basis == BUSINESS_HOURS && PausesDisjoint(PausesOf(target, facts))
    ensures var pauses := PausesOf(target, facts);
            var left := PauseRemainders(pauses, |pauses|, facts.startedAt.value, at, calendars);
            StateOf(target, facts, calendars, at).elapsedSeconds
            == Max(0, RoundToSeconds(UnpausedMs(target, facts, calendars, at) + left))
  {
    hide Sound, MeasuredMs, ExactMs, RateOf, BreachAt, PausedMs, UnpausedRate, PausesDisjoint, PauseRemainders,
         RunningStatus, Sum;
    var start, pauses := facts.startedAt.value, PausesOf(target, facts);
    MeasureIsRate(BUSINESS_HOURS, calendars, start, at);
    BusinessPausesPartitionTime(pauses, |pauses|, start, at, calendars);
    BusinessPausesAreWhole(pauses, |pauses|, start, at, calendars);
  }

  /** Falling from one elapsed second to another, the status falls exactly if there is a threshold on the way. */
  lemma {:induction false} StatusFallsAtThresholds(target: SlaTarget, before: int, after: int)
    requires after <= before
    ensures StatusRank(RunningStatus(target, after)) < StatusRank(RunningStatus(target, before))
            <==> exists e :: after < e <= before && AtThreshold(target, e)
    decreases before - after
  {
    hide RunningStatus;
    if after < before {
      StatusFallsAtThresholds(target, before - 1, after);
      StatusFollowsElapsed(target, after, before - 1);
      StatusFollowsElapsed(target, before - 1, before);
      if e :| after < e <= before && AtThreshold(target, e) {
        assert e == before || after < e <= before - 1;
      }
      if StatusRank(RunningStatus(target, after)) < StatusRank(RunningStatus(target, before - 1)) {
        var e :| after < e <= before - 1 && AtThreshold(target, e);
        assert after < e <= before;
      } else {
        assert AtThreshold(target, before)
          <==> StatusRank(RunningStatus(target, before)) > StatusRank(RunningStatus(target, before - 1));
      }
    }
  }

  /**
   * Exactly when a business-hours clock on millisecond instants retreats: its pauses leave less over than
   * before, by more than the unpaused time has grown, and across a half second. The status retreats with it
   * exactly if there is a threshold on the way.
   */
  lemma WhenABusinessClockRetreats(
      target: SlaTarget, facts: ClockFacts, calendars: seq<BusinessCalendar>, at: int, later: int)
    requires Running(target, facts, calendars, at) && at <= later <= facts.startedAt.value + GUARD_MS
    requires target.basis == BUSINESS_HOURS && PausesDisjoint(PausesOf(target, facts))
    ensures var before, after := StateOf(target, facts, calendars, at), StateOf(target, facts, calendars, later);
            var pauses, start := PausesOf(target, facts), facts.startedAt.value;
            var u, v := UnpausedMs(target, facts, calendars, at), UnpausedMs(target, facts, calendars, later);
            var r, q := PauseRemainders(pauses, |pauses|, start, at, calendars),
                        PauseRemainders(pauses, |pauses|, start, later, calendars);
            && u <= v
            && (after.elapsedSeconds < before.elapsedSeconds <==>
                  RoundToSeconds(v + q) < RoundToSeconds(u + r) && u + r >= 500)
            && (after.elapsedSeconds < before.elapsedSeconds ==> v - u < r - q)
            && (StatusRank(after.status) < StatusRank(before.status) <==>
                  exists e :: after.elapsedSeconds < e <= before.elapsedSeconds && AtThreshold(target, e))
  {
    hide GrossSeconds, PausedOf, BreachAt, RateOf, Sound, UnpausedRate, PausesDisjoint, PauseRemainders, Sum,
         RunningStatus, AtThreshold;
    BusinessElapsedIsExact(target, facts, calendars, at);
    BusinessElapsedIsExact(target, facts, calendars, later);
    var pauses := PausesOf(target, facts);
    SumGrows(UnpausedRate(RateOf(target.basis, calendars), pauses, |pauses|), facts.startedAt.value, at, later);
    var before, after := StateOf(target, facts, calendars, at).elapsedSeconds,
      StateOf(target, facts, calendars, later).elapsedSeconds;
    if after <= before {
      StatusFallsAtThresholds(target, before, after);
    } else {
      StatusFollowsElapsed(target, before, after);
    }
  }

  /** Open every minute of every week. */
  const ALWAYS_OPEN := BusinessCalendar(
    Zone(0, 0, 0), 0, None, seq(7, i => WorkingWindow(i, Window(0, 1440))), [], [])

  lemma AlwaysOpenDates(day: int)
    ensures WindowsForDate(ALWAYS_OPEN, day) == [Window(0, 1440)]
  {
    OneWindowEachDay(7, Window(0, 1440), WeekdayOf(day));
    assert ALWAYS_OPEN.workingWindows == seq(7, i => WorkingWindow(7 - 7 + i, Window(0, 1440)));
  }

  lemma AlwaysOpenEdges()
    ensures EdgesOffShift(ALWAYS_OPEN)
  {
    hide WindowsForDate, WallTime;
    forall day: int, w | w in WindowsForDate(ALWAYS_OPEN, day)
      ensures OffShift(ALWAYS_OPEN.zone, WallTime(day, w.openMinute)) && OffShift(ALWAYS_OPEN.zone, WallTime(day, w.closeMinute))
    {
    }
  }

  lemma AlwaysOpenIsSound()
    ensures Sound([ALWAYS_OPEN])
  {
    hide EdgesOffShift, WalkReaches, MidnightsClear;
    AlwaysOpenEdges();
    SoundHistories([ALWAYS_OPEN]);
  }

  lemma AlwaysOpenRate(t: int)
    requires t >= 0
    ensures DepthAt([ALWAYS_OPEN])(t) == 1
  {
    hide EdgesOffShift, PlacedAt, Over, Depth;
    AlwaysOpenEdges();
    OffShiftIsPlaced(ALWAYS_OPEN, t);
    OverIsDepth(ALWAYS_OPEN, t);
    AlwaysOpenDepth(t);
    assert DepthOfFirst([ALWAYS_OPEN], 0, t) == 0;
  }

  lemma AlwaysOpenDepth(t: int)
    ensures Depth(ALWAYS_OPEN, t) == 1
  {
    hide WindowsForDate, Hits;
    var day, minute := ALWAYS_OPEN.zone.LocalDay(t), ALWAYS_OPEN.zone.MinuteOfDay(t);
    AlwaysOpenDates(day);
    AlwaysOpenDates(day - 1);
    WallMinuteParts(ALWAYS_OPEN.zone, t);
    OneWindowHit(minute);
    OneWindowHit(minute + 1440);
  }

  lemma OneWindowHit(minute: int)
    ensures Hits([Window(0, 1440)], minute) == if 0 <= minute < 1440 then 1 else 0
  {
    assert [Window(0, 1440)][..0] == [];
  }

  lemma AlwaysOpenTime(from: int, to: int)
    requires 0 <= from <= to
    ensures ExactMs(BUSINESS_HOURS, [ALWAYS_OPEN], from, to) == to - from
  {
    hide DepthAt;
    forall t | from <= t < to
      ensures DepthAt([ALWAYS_OPEN])(t) == 1
    {
      AlwaysOpenRate(t);
    }
    SumSame(RateOf(BUSINESS_HOURS, [ALWAYS_OPEN]), Always(), from, to);
    SumOne(Always(), from, to);
  }

  /** The same instants as above, with the working hours of a team that never closes. */
  lemma BusinessVerdictCanRetreat()
    ensures var target := SlaTarget(RESOLUTION, 1, BUSINESS_HOURS, 80, false);
            var facts := ClockFacts(Some(0), None, [PauseSpan(600, None)]);
            && StateOf(target, facts, [ALWAYS_OPEN], 1000).status == BREACHED
            && StateOf(target, facts, [ALWAYS_OPEN], 1100).status == RUNNING
  {
    hide BreachAt, GrossSeconds, PausedOf;
    BusinessElapsedPausedAt600(1000);
    BusinessElapsedPausedAt600(1100);
  }

  lemma BusinessElapsedPausedAt600(at: int)
    requires 600 <= at <= GUARD_MS
    ensures var target := SlaTarget(RESOLUTION, 1, BUSINESS_HOURS, 80, false);
            var facts := ClockFacts(Some(0), None, [PauseSpan(600, None)]);
            StateOf(target, facts, [ALWAYS_OPEN], at).elapsedSeconds == RoundToSeconds(600 + Remainder(at - 600))
  {
    hide ExactMs, RateOf, Sound, StateOf, UnpausedRate, Sum;
    var target := SlaTarget(RESOLUTION, 1, BUSINESS_HOURS, 80, false);
    var facts := ClockFacts(Some(0), None, [PauseSpan(600, None)]);
    var pauses, calendars := PausesOf(target, facts), [ALWAYS_OPEN];
    AlwaysOpenIsSound();
    BusinessElapsedIsExact(target, facts, calendars, at);
    AlwaysOpenTime(600, at);
    AlwaysOpenTime(0, at);
    NoPausesYet(RateOf(BUSINESS_HOURS, calendars), pauses, 0, at);
    PauseComesOff(RateOf(BUSINESS_HOURS, calendars), pauses, 1, 0, at);
    ExactIsSum(calendars, 600, at);
    ExactIsSum(calendars, 0, at);
    assert PauseRemainders(pauses, 0, 0, at, calendars) == 0;
    assert PauseRemainders(pauses, 1, 0, at, calendars) == Remainder(at - 600);
  }

  lemma ExactIsSum(calendars: seq<BusinessCalendar>, from: int, to: int)
    ensures ExactMs(BUSINESS_HOURS, calendars, from, to) == Sum(RateOf(BUSINESS_HOURS, calendars), from, to)
  {
  }
}
