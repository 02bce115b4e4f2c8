/**
 * SLA state, computed on read: elapsed time on the clock's own basis, pauses, the verdict and the breach
 * instant.
 */
module SlaState {
  import opened Options
  import opened Calendar
  import opened Clock

  datatype SlaClock = FIRST_RESPONSE | RESOLUTION | ESCALATION

  datatype SlaBasis = BUSINESS_HOURS | CALENDAR_24X7

  datatype SlaTarget = SlaTarget(
    clock: SlaClock, targetSeconds: int, basis: SlaBasis, warningPct: int, provisional: bool)

  /** A span during which the resolution clock was paused; open-ended while still paused. */
  datatype PauseSpan = PauseSpan(from: int, to: Option<int>)

  datatype ClockFacts = ClockFacts(startedAt: Option<int>, stoppedAt: Option<int>, pauses: seq<PauseSpan>)

  datatype SlaStatus = NOT_STARTED | RUNNING | WARNING | BREACHED | MET | MISSED

  datatype SlaState = SlaState(
    clock: SlaClock,
    status: SlaStatus,
    elapsedSeconds: int,
    targetSeconds: int,
    remainingSeconds: int,
    breachAt: Option<int>,
    breachedAt: Option<int>,
    provisional: bool)

  const BREACH_HORIZON_DAYS := 365

  /** The part of a pause inside the measured window. */
  function ClipPause(pause: PauseSpan, windowFrom: int, windowTo: int): Interval {
    Interval(
      if pause.from < windowFrom then windowFrom else pause.from,
      if pause.to.None? || pause.to.value > windowTo then windowTo else pause.to.value)
  }

  /** A span on the clock's basis, in milliseconds; working time arrives already rounded to seconds. */
  function MeasuredMs(basis: SlaBasis, calendars: seq<BusinessCalendar>, from: int, to: int): int {
    match basis
    case CALENDAR_24X7 => Max(0, to - from)
    case BUSINESS_HOURS => 1000 * ElapsedSeconds(calendars, from, to)
  }

  /** The measured milliseconds of the first `n` pauses. */
  function PausedMs(pauses: seq<PauseSpan>, n: nat, windowFrom: int, windowTo: int,
                    basis: SlaBasis, calendars: seq<BusinessCalendar>): int
    requires n <= |pauses|
  {
    if n == 0 then 0
    else
      var before := PausedMs(pauses, n - 1, windowFrom, windowTo, basis, calendars);
      var span := ClipPause(pauses[n - 1], windowFrom, windowTo);
      if span.to <= span.from then before else before + MeasuredMs(basis, calendars, span.from, span.to)
  }

  function PausedSecondsOf(pauses: seq<PauseSpan>, windowFrom: int, windowTo: int,
                           basis: SlaBasis, calendars: seq<BusinessCalendar>): int {
    RoundToSeconds(PausedMs(pauses, |pauses|, windowFrom, windowTo, basis, calendars))
  }

  /** Sums the pause time inside the measured window, on the clock's own basis. */
  method PausedSeconds(pauses: seq<PauseSpan>, windowFrom: int, windowTo: int,
                       basis: SlaBasis, calendars: seq<BusinessCalendar>) returns (seconds: int)
    ensures seconds == PausedSecondsOf(pauses, windowFrom, windowTo, basis, calendars)
  {
    hide ElapsedSeconds;
    var total := 0;
    for i := 0 to |pauses|
      invariant total == PausedMs(pauses, i, windowFrom, windowTo, basis, calendars)
    {
      var span := ClipPause(pauses[i], windowFrom, windowTo);
      if span.to <= span.from {
        continue;
      }
      if basis == CALENDAR_24X7 {
        total := total + (span.to - span.from);
      } else {
        var working := ElapsedWorkingSeconds(calendars, span.from, span.to);
        total := total + 1000 * working;
      }
    }
    return RoundToSeconds(total);
  }

  /** Only the resolution clock pauses. */
  function PausesOf(target: SlaTarget, facts: ClockFacts): seq<PauseSpan> {
    if target.clock == RESOLUTION then facts.pauses else []
  }

  function GrossSeconds(target: SlaTarget, calendars: seq<BusinessCalendar>, from: int, to: int): int {
    RoundToSeconds(MeasuredMs(target.basis, calendars, from, to))
  }

  function PausedOf(target: SlaTarget, facts: ClockFacts, calendars: seq<BusinessCalendar>, from: int, to: int): int {
    PausedSecondsOf(PausesOf(target, facts), from, to, target.basis, calendars)
  }

  function BreachAt(target: SlaTarget, calendars: seq<BusinessCalendar>, from: int, effectiveTarget: int): Option<int> {
    match target.basis
    case CALENDAR_24X7 => Some(from + effectiveTarget * 1000)
    case BUSINESS_HOURS => InstantAfter(calendars, from, effectiveTarget, BREACH_HORIZON_DAYS)
  }

  /** The verdict on a clock that is still running. */
  function RunningStatus(target: SlaTarget, elapsedSeconds: int): SlaStatus {
    if elapsedSeconds >= target.targetSeconds then BREACHED
    else if elapsedSeconds * 100 >= target.targetSeconds * target.warningPct then WARNING
    else RUNNING
  }

  /** One clock's state, from what was observed and the calendar history alone. */
  function StateOf(target: SlaTarget, facts: ClockFacts, calendars: seq<BusinessCalendar>, at: int): SlaState {
    if facts.startedAt.None? then
      SlaState(target.clock, NOT_STARTED, 0, target.targetSeconds, target.targetSeconds, None, None, target.provisional)
    else
      var start := facts.startedAt.value;
      var measureTo := if facts.stoppedAt.Some? then facts.stoppedAt.value else at;
      var paused := PausedOf(target, facts, calendars, start, measureTo);
      var elapsed := Max(0, GrossSeconds(target, calendars, start, measureTo) - paused);
      var remaining := target.targetSeconds - elapsed;
      var breachAt := BreachAt(target, calendars, start, target.targetSeconds + paused);
      var overTarget := elapsed >= target.targetSeconds;
      var status :=
        if facts.stoppedAt.Some? then (if overTarget then MISSED else MET) else RunningStatus(target, elapsed);
      SlaState(target.clock, status, elapsed, target.targetSeconds, remaining, breachAt,
               if overTarget then breachAt else None, target.provisional)
  }
}
