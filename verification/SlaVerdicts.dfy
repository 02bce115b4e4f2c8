/**
 * What the state says of a clock at every stage: not started, running, warning, breached, and stopped.
 */
module SlaVerdicts {
  import opened Options
  import opened Calendar
  import opened Clock
  import opened SlaLaws
  import opened SlaState

  /** The same clock, had it not stopped. */
  function StillRunning(facts: ClockFacts): ClockFacts {
    facts.(stoppedAt := None)
  }

  // ---------------------------------------------------------------- stopped clocks

  /**
   * A stopped clock's state is that of the same clock, still running, at the instant it stopped, whenever it is
   * asked; it is MISSED exactly if that clock is BREACHED, and MET if it is not.
   */
  lemma StoppedAsItRan(target: SlaTarget, facts: ClockFacts, calendars: seq<BusinessCalendar>, at: int)
    requires facts.startedAt.Some? && facts.stoppedAt.Some?
    ensures var stopped := StateOf(target, facts, calendars, at);
            var running := StateOf(target, StillRunning(facts), calendars, facts.stoppedAt.value);
            && stopped.status in {MET, MISSED} && (stopped.status == MISSED <==> running.status == BREACHED)
            && stopped == running.(status := stopped.status)
  {
    hide PausedSecondsOf, GrossSeconds, BreachAt;
  }

  /** It does not matter when a stopped clock is asked. */
  lemma StoppedForGood(target: SlaTarget, facts: ClockFacts, calendars: seq<BusinessCalendar>, at: int, later: int)
    requires facts.stoppedAt.Some?
    ensures StateOf(target, facts, calendars, at) == StateOf(target, facts, calendars, later)
  {
    hide PausedOf, GrossSeconds, BreachAt;
  }

  /**
   * The verdict and the breach instant tell one story on whole-second data: a stopped clock is MISSED exactly if
   * it has a breach instant no later than its stop, and MET otherwise, for any target if its pauses are disjoint
   * and for any pauses if its target is positive.
   */
  lemma MissedIsBreachedByTheStop(target: SlaTarget, facts: ClockFacts, calendars: seq<BusinessCalendar>, at: int)
    requires facts.stoppedAt.Some? && RunningWhole(target, StillRunning(facts), calendars, facts.stoppedAt.value)
    requires BreachIsDecidable(target, calendars, facts.startedAt.value, facts.stoppedAt.value)
    requires PausesDisjoint(PausesOf(target, facts)) || target.targetSeconds > 0
    ensures var s := StateOf(target, facts, calendars, at);
            s.status == if s.breachAt.Some? && s.breachAt.value <= facts.stoppedAt.value then MISSED else MET
  {
    hide StateOf, BreachIsDecidable, PausesDisjoint, SoundFor, WholePauses, WholeVersions;
    StoppedAsItRan(target, facts, calendars, at);
    FlagAgreesWithInstant(target, StillRunning(facts), calendars, facts.stoppedAt.value);
  }

  // ---------------------------------------------------------------- every stage

  /** What the state reports besides: the target as it was given, what remains of it, and when it was breached. */
  lemma TheStateAddsUp(target: SlaTarget, facts: ClockFacts, calendars: seq<BusinessCalendar>, at: int)
    ensures var s := StateOf(target, facts, calendars, at);
            && s.clock == target.clock && s.targetSeconds == target.targetSeconds && s.provisional == target.provisional
            && s.elapsedSeconds >= 0 && s.elapsedSeconds + s.remainingSeconds == target.targetSeconds
            && (s.status == NOT_STARTED <==> facts.startedAt.None?)
            && (s.status in {MET, MISSED} <==> facts.startedAt.Some? && facts.stoppedAt.Some?)
            && (s.status in {BREACHED, MISSED} <==> facts.startedAt.Some? && s.remainingSeconds <= 0)
            && s.breachedAt == if s.status in {BREACHED, MISSED} then s.breachAt else None
  {
    hide PausedOf, GrossSeconds, BreachAt;
  }

  /** A clock that has not started has used nothing up and has nothing to breach. */
  lemma NothingBeforeTheStart(target: SlaTarget, facts: ClockFacts, calendars: seq<BusinessCalendar>, at: int)
    requires facts.startedAt.None?
    ensures var s := StateOf(target, facts, calendars, at);
            s.elapsedSeconds == 0 && s.breachAt == None && s.breachedAt == None
  {
  }

  /** Pauses are the resolution clock's alone: of the others, any pauses give the same state. */
  lemma OnlyResolutionPauses(
      target: SlaTarget, facts: ClockFacts, pauses: seq<PauseSpan>, calendars: seq<BusinessCalendar>, at: int)
    requires target.clock in {FIRST_RESPONSE, ESCALATION}
    ensures StateOf(target, facts, calendars, at) == StateOf(target, facts.(pauses := pauses), calendars, at)
  {
    hide PausedSecondsOf, GrossSeconds, BreachAt;
  }

  /** And a resolution clock runs for all but its pauses: an hour of 24x7, paused for its first half, shows half. */
  lemma ResolutionPauses()
    ensures var target := SlaTarget(RESOLUTION, 3600, CALENDAR_24X7, 80, false);
            var facts := ClockFacts(Some(0), None, [PauseSpan(0, Some(1_800_000))]);
            && StateOf(target, facts, [], 3_600_000).elapsedSeconds == 1800
            && StateOf(target.(clock := FIRST_RESPONSE), facts, [], 3_600_000).elapsedSeconds == 3600
  {
    var pauses := [PauseSpan(0, Some(1_800_000))];
    assert PausedMs(pauses, 0, 0, 3_600_000, CALENDAR_24X7, []) == 0;
    assert PausedMs(pauses, 1, 0, 3_600_000, CALENDAR_24X7, []) == 1_800_000;
    assert PausedMs([], 0, 0, 3_600_000, CALENDAR_24X7, []) == 0;
  }

  // ---------------------------------------------------------------- warnings

  /** The target's warning share, in whole seconds: the least that is no less than the share itself. */
  function WarningSeconds(target: SlaTarget): int {
    (target.targetSeconds * target.warningPct + 99) / 100
  }

  lemma WarningSecondsIsLeast(target: SlaTarget, seconds: int)
    ensures seconds >= WarningSeconds(target) <==> seconds * 100 >= target.targetSeconds * target.warningPct
  {
    var share := target.targetSeconds * target.warningPct;
  }

  /** A warning is a breach of the smaller target, and not yet of the whole. */
  lemma WarningIsABreachOfTheShare(target: SlaTarget, facts: ClockFacts, calendars: seq<BusinessCalendar>, at: int)
    requires facts.startedAt.Some? && facts.stoppedAt.None?
    ensures var s := StateOf(target, facts, calendars, at);
            var share := StateOf(target.(targetSeconds := WarningSeconds(target)), facts, calendars, at);
            && s.elapsedSeconds == share.elapsedSeconds
            && (s.status == WARNING <==> share.status == BREACHED && s.status != BREACHED)
            && (s.status == RUNNING <==> share.status != BREACHED && s.status != BREACHED)
  {
    hide PausedSecondsOf, MeasuredMs, BreachAt, WarningSeconds;
    var start := facts.startedAt.value;
    WarningSecondsIsLeast(target, StateOf(target, facts, calendars, at).elapsedSeconds);
  }

  /**
   * So on whole-second data a clock begins to warn at the breach instant of its share, and from then on warns
   * until it breaches.
   */
  lemma WarningBeginsAtItsInstant(target: SlaTarget, facts: ClockFacts, calendars: seq<BusinessCalendar>, at: int)
    requires RunningWhole(target, facts, calendars, at)
    requires BreachIsDecidable(target, calendars, facts.startedAt.value, at)
    requires PausesDisjoint(PausesOf(target, facts)) || (target.targetSeconds > 0 && WarningSeconds(target) > 0)
    ensures var s := StateOf(target, facts, calendars, at);
            var share := StateOf(target.(targetSeconds := WarningSeconds(target)), facts, calendars, at);
            s.status == if Passed(s.breachAt, at) then BREACHED else if Passed(share.breachAt, at) then WARNING else RUNNING
  {
    hide StateOf, PausesDisjoint, SoundFor, WholePauses, WholeVersions, WarningSeconds;
    var share := target.(targetSeconds := WarningSeconds(target));
    WarningIsABreachOfTheShare(target, facts, calendars, at);
    assert PausesOf(share, facts) == PausesOf(target, facts);
    FlagAgreesWithInstant(target, facts, calendars, at);
    FlagAgreesWithInstant(share, facts, calendars, at);
    RunningHasThree(target, facts, calendars, at);
  }

  lemma RunningHasThree(target: SlaTarget, facts: ClockFacts, calendars: seq<BusinessCalendar>, at: int)
    requires facts.startedAt.Some? && facts.stoppedAt.None?
    ensures StateOf(target, facts, calendars, at).status in {RUNNING, WARNING, BREACHED}
  {
    hide PausedOf, GrossSeconds, BreachAt;
  }
}
