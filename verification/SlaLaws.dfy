/** What the computed SLA state promises: it shows the unpaused time, and the flag and the breach instant agree. */
module SlaLaws {
  import opened Options
  import opened Calendar
  import opened Clock
  import opened ClockLaws
  import opened Coverage
  import opened ElapsedLaws
  import opened SlaState
  import Sorting
  import opened Sums

  // ---------------------------------------------------------------- whole-second data

  predicate Whole(t: int) { t % 1000 == 0 }

  ghost predicate WholeIntervals(s: seq<Interval>) {
    forall i :: 0 <= i < |s| ==> Whole(s[i].from) && Whole(s[i].to)
  }

  /** Every version changes over on a whole second. */
  ghost predicate WholeVersions(versions: seq<BusinessCalendar>) {
    forall v :: v in versions ==> Whole(v.effectiveFrom) && (v.effectiveTo.Some? ==> Whole(v.effectiveTo.value))
  }

  lemma {:induction false} GatherWhole(piece: int -> seq<Interval>, first: int, count: nat)
    requires forall k :: WholeIntervals(piece(k))
    ensures WholeIntervals(Gather(piece, first, count))
  {
    if count > 0 {
      GatherWhole(piece, first, count - 1);
      assert WholeIntervals(piece(first + count - 1));
    }
  }

  lemma WindowsAreWhole(zone: Zone, day: int, w: Window, from: int, to: int)
    requires Whole(from) && Whole(to)
    ensures WholeIntervals(Clipped(WindowInterval(zone, day, w), from, to))
  {
    WallTimeIsWhole(zone, day, w.openMinute);
    WallTimeIsWhole(zone, day, w.closeMinute);
  }

  lemma WallTimeIsWhole(zone: Zone, day: int, minute: int)
    ensures Whole(InstantOf(zone, WallTime(day, minute)))
  {
    assert InstantOf(zone, WallTime(day, minute)) == 1000 * (86_400 * day + 60 * minute
      - 60 * (if WallTime(day, minute) - zone.Offset(WallTime(day, minute)) < zone.shiftAt then zone.before else zone.after));
  }

  lemma DateWhole(cal: BusinessCalendar, day: int, from: int, to: int)
    requires Whole(from) && Whole(to)
    ensures WholeIntervals(DateIntervals(cal, day, from, to))
  {
    hide WindowsForDate, WindowInterval, Clipped, WholeIntervals;
    var windows := WindowsForDate(cal, day);
    forall i: int ensures WholeIntervals(WindowPieces(cal.zone, day, windows, from, to)(i)) {
      if 0 <= i < |windows| {
        WindowsAreWhole(cal.zone, day, windows[i], from, to);
      } else {
        NothingIsWhole();
      }
    }
    GatherWhole(WindowPieces(cal.zone, day, windows, from, to), 0, |windows|);
  }

  lemma NothingIsWhole()
    ensures WholeIntervals([])
  {
  }

  lemma SortWhole(s: seq<Interval>)
    requires WholeIntervals(s)
    ensures WholeIntervals(SortByStart(s))
  {
    forall x | x in SortByStart(s)
      ensures Whole(x.from) && Whole(x.to)
    {
      Sorting.SortKeepsMembers(StartsBefore(), s, x);
    }
  }

  lemma VersionWhole(cal: BusinessCalendar, from: int, to: int)
    requires Whole(from) && Whole(to) && WholeVersions([cal])
    ensures WholeIntervals(VersionIntervals(cal, from, to))
  {
    hide DateIntervals, SortByStart, Gather, DatesWalked, WholeIntervals;
    NothingIsWhole();
    assert cal in [cal];
    var c := ClipToVersion(cal, from, to);
    if c.Some? && c.value.from < c.value.to {
      forall day: int ensures WholeIntervals(DatePieces(cal, c.value.from, c.value.to)(day)) {
        DateWhole(cal, day, c.value.from, c.value.to);
      }
      var startDate, endDate := cal.zone.LocalDay(c.value.from) - 1, cal.zone.LocalDay(c.value.to);
      GatherWhole(DatePieces(cal, c.value.from, c.value.to), startDate, DatesWalked(startDate, endDate));
      SortWhole(WalkIntervals(cal, startDate, endDate, c.value.from, c.value.to));
    }
  }

  lemma {:induction false} TotalWhole(s: seq<Interval>)
    requires WholeIntervals(s)
    ensures Whole(Total(s))
  {
    if s != [] {
      TotalWhole(s[..|s| - 1]);
    }
  }

  /** Between whole seconds, under versions that change on whole seconds, no rounding happens. */
  lemma WholeElapsed(versions: seq<BusinessCalendar>, from: int, to: int)
    requires Whole(from) && Whole(to) && WholeVersions(versions)
    ensures 1000 * ElapsedSeconds(versions, from, to) == ElapsedMs(versions, from, to)
  {
    hide VersionIntervals, Gather, WholeIntervals, Total;
    forall v: int ensures WholeIntervals(VersionPieces(versions, from, to)(v)) {
      NothingIsWhole();
      if 0 <= v < |versions| {
        assert versions[v] in versions;
        VersionWhole(versions[v], from, to);
      }
    }
    GatherWhole(VersionPieces(versions, from, to), 0, |versions|);
    TotalWhole(AllIntervals(versions, from, to));
  }

  // ---------------------------------------------------------------- the rate of a clock

  function Always(): int -> nat {
    t => 1
  }

  /** How fast a clock runs at an instant: always on a 24x7 basis, else the calendar's depth. */
  function RateOf(basis: SlaBasis, calendars: seq<BusinessCalendar>): int -> nat {
    if basis == CALENDAR_24X7 then Always() else DepthAt(calendars)
  }

  /** The calendars a business-hours clock may be asked about; a 24x7 clock reads none. */
  ghost predicate SoundFor(basis: SlaBasis, calendars: seq<BusinessCalendar>) {
    basis == BUSINESS_HOURS ==> Sound(calendars)
  }

  /** The measure before rounding is the clock's rate, summed. */
  function ExactMs(basis: SlaBasis, calendars: seq<BusinessCalendar>, from: int, to: int): nat {
    Sum(RateOf(basis, calendars), from, to)
  }

  lemma WorkingMeasureIsRate(calendars: seq<BusinessCalendar>, from: int, to: int)
    requires Sound(calendars) && to <= from + GUARD_MS
    ensures var measured := 1000 * ElapsedSeconds(calendars, from, to);
            var exact := Sum(DepthAt(calendars), from, to);
            && RoundToSeconds(measured) == RoundToSeconds(exact)
            && measured >= 0
            && (Whole(from) && Whole(to) && WholeVersions(calendars) ==> measured == exact)
  {
    hide Sound, ElapsedMs, DepthAt, WholeVersions, Sum;
    ElapsedIsDepth(calendars, from, to);
    if Whole(from) && Whole(to) && WholeVersions(calendars) {
      WholeElapsed(calendars, from, to);
    }
  }

  lemma MeasureIsRate(basis: SlaBasis, calendars: seq<BusinessCalendar>, from: int, to: int)
    requires SoundFor(basis, calendars) && to <= from + GUARD_MS
    ensures RoundToSeconds(MeasuredMs(basis, calendars, from, to))
            == RoundToSeconds(ExactMs(basis, calendars, from, to))
    ensures MeasuredMs(basis, calendars, from, to) >= 0
    ensures Whole(from) && Whole(to) && WholeVersions(calendars) ==>
              MeasuredMs(basis, calendars, from, to) == ExactMs(basis, calendars, from, to)
              && Whole(ExactMs(basis, calendars, from, to))
  {
    hide Sound, ElapsedSeconds, DepthAt, WholeVersions, RoundToSeconds;
    match basis
    case CALENDAR_24X7 =>
      if from <= to {
        SumOne(Always(), from, to);
      }
    case BUSINESS_HOURS =>
      WorkingMeasureIsRate(calendars, from, to);
  }

  // ---------------------------------------------------------------- pauses

  predicate InPause(pause: PauseSpan, t: int) {
    pause.from <= t && (pause.to.Some? ==> t < pause.to.value)
  }

  predicate InSomePause(pauses: seq<PauseSpan>, n: nat, t: int)
    requires n <= |pauses|
  {
    exists i :: 0 <= i < n && InPause(pauses[i], t)
  }

  /** The rate that is left while the first `n` pauses are taken out. */
  function UnpausedRate(rate: int -> nat, pauses: seq<PauseSpan>, n: nat): int -> nat
    requires n <= |pauses|
  {
    t => if InSomePause(pauses, n, t) then 0 else rate(t)
  }

  function RateInPause(rate: int -> nat, pause: PauseSpan): int -> nat {
    t => if InPause(pause, t) then rate(t) else 0
  }

  ghost predicate PausesDisjoint(pauses: seq<PauseSpan>) {
    forall i, j, t :: 0 <= i < j < |pauses| && InPause(pauses[i], t) ==> !InPause(pauses[j], t)
  }

  ghost predicate WholePauses(pauses: seq<PauseSpan>) {
    forall p :: p in pauses ==> Whole(p.from) && (p.to.Some? ==> Whole(p.to.value))
  }

  lemma PauseShare(rate: int -> nat, pause: PauseSpan, lo: int, hi: int)
    requires lo <= hi
    ensures var span := ClipPause(pause, lo, hi);
            Sum(RateInPause(rate, pause), lo, hi) == Sum(rate, span.from, span.to)
  {
    var span := ClipPause(pause, lo, hi);
    var inside := RateInPause(rate, pause);
    forall t | lo <= t < hi
      ensures inside(t) == if span.Has(t) then rate(t) else 0
    {
      assert InPause(pause, t) <==> span.Has(t);
    }
    if span.from < span.to {
      SumSplit(inside, lo, span.from, hi);
      SumSplit(inside, span.from, span.to, hi);
      SumZero(inside, lo, span.from);
      SumSame(inside, rate, span.from, span.to);
      SumZero(inside, span.to, hi);
    } else {
      SumZero(inside, lo, hi);
    }
  }

  lemma OnePauseAtATime(pauses: seq<PauseSpan>, n: nat, t: int)
    requires 0 < n <= |pauses| && PausesDisjoint(pauses)
    ensures InSomePause(pauses, n, t) <==> InSomePause(pauses, n - 1, t) || InPause(pauses[n - 1], t)
    ensures InPause(pauses[n - 1], t) ==> !InSomePause(pauses, n - 1, t)
  {
    if InSomePause(pauses, n, t) {
      var i :| 0 <= i < n && InPause(pauses[i], t);
    }
  }

  lemma NoPausesYet(rate: int -> nat, pauses: seq<PauseSpan>, lo: int, hi: int)
    ensures Sum(UnpausedRate(rate, pauses, 0), lo, hi) == Sum(rate, lo, hi)
  {
    SumSame(UnpausedRate(rate, pauses, 0), rate, lo, hi);
  }

  /** Taking one more disjoint pause out removes exactly the rate inside its clipped span. */
  lemma PauseComesOff(rate: int -> nat, pauses: seq<PauseSpan>, n: nat, lo: int, hi: int)
    requires 0 < n <= |pauses| && PausesDisjoint(pauses) && lo <= hi
    ensures var span := ClipPause(pauses[n - 1], lo, hi);
            Sum(UnpausedRate(rate, pauses, n - 1), lo, hi)
            == Sum(UnpausedRate(rate, pauses, n), lo, hi) + Sum(rate, span.from, span.to)
  {
    hide InSomePause, PausesDisjoint, ClipPause;
    forall t ensures UnpausedRate(rate, pauses, n - 1)(t)
                     == UnpausedRate(rate, pauses, n)(t) + RateInPause(rate, pauses[n - 1])(t) {
      OnePauseAtATime(pauses, n, t);
    }
    SumPlus(UnpausedRate(rate, pauses, n), RateInPause(rate, pauses[n - 1]), UnpausedRate(rate, pauses, n - 1), lo, hi);
    PauseShare(rate, pauses[n - 1], lo, hi);
  }

  lemma PauseMeasure(pause: PauseSpan, lo: int, hi: int, basis: SlaBasis, calendars: seq<BusinessCalendar>)
    requires SoundFor(basis, calendars) && lo <= hi <= lo + GUARD_MS
    requires Whole(lo) && Whole(hi) && WholePauses([pause]) && WholeVersions(calendars)
    ensures var span := ClipPause(pause, lo, hi);
            var measured := if span.to <= span.from then 0 else MeasuredMs(basis, calendars, span.from, span.to);
            measured == Sum(RateOf(basis, calendars), span.from, span.to) && Whole(measured)
  {
    hide SoundFor, RateOf, WholeVersions, MeasuredMs;
    assert pause in [pause];
    var span := ClipPause(pause, lo, hi);
    if span.from < span.to {
      MeasureIsRate(basis, calendars, span.from, span.to);
    }
  }

  lemma WholePauseOfWhole(pauses: seq<PauseSpan>, i: nat)
    requires i < |pauses| && WholePauses(pauses)
    ensures WholePauses([pauses[i]])
  {
    assert pauses[i] in pauses;
  }

  /** What disjoint pauses take out and what is left add up to the whole. */
  lemma {:induction false} PausesPartitionTime(
      pauses: seq<PauseSpan>, n: nat, lo: int, hi: int, basis: SlaBasis, calendars: seq<BusinessCalendar>)
    requires n <= |pauses| && SoundFor(basis, calendars) && lo <= hi <= lo + GUARD_MS
    requires PausesDisjoint(pauses)
    requires Whole(lo) && Whole(hi) && WholePauses(pauses) && WholeVersions(calendars)
    ensures Sum(RateOf(basis, calendars), lo, hi)
            == PausedMs(pauses, n, lo, hi, basis, calendars)
             + Sum(UnpausedRate(RateOf(basis, calendars), pauses, n), lo, hi)
    ensures Whole(PausedMs(pauses, n, lo, hi, basis, calendars))
  {
    hide SoundFor, RateOf, WholeVersions, MeasuredMs, UnpausedRate, PausesDisjoint, ClipPause, Sum, WholePauses;
    var rate := RateOf(basis, calendars);
    if n == 0 {
      NoPausesYet(rate, pauses, lo, hi);
    } else {
      PausesPartitionTime(pauses, n - 1, lo, hi, basis, calendars);
      WholePauseOfWhole(pauses, n - 1);
      PauseComesOff(rate, pauses, n, lo, hi);
      PauseMeasure(pauses[n - 1], lo, hi, basis, calendars);
    }
  }

  // ---------------------------------------------------------------- the state

  /** A clock that is running at `at`. */
  ghost predicate Running(target: SlaTarget, facts: ClockFacts, calendars: seq<BusinessCalendar>, at: int) {
    facts.startedAt.Some? && facts.stoppedAt.None? && facts.startedAt.value <= at && SoundFor(target.basis, calendars)
  }

  /** Such a clock on whole-second data. */
  ghost predicate RunningWhole(target: SlaTarget, facts: ClockFacts, calendars: seq<BusinessCalendar>, at: int) {
    && Running(target, facts, calendars, at) && Whole(facts.startedAt.value) && Whole(at)
    && WholePauses(facts.pauses) && WholeVersions(calendars)
  }

  /** The clock's own time in which no pause was open, in milliseconds. */
  ghost function UnpausedMs(target: SlaTarget, facts: ClockFacts, calendars: seq<BusinessCalendar>, at: int): nat
    requires facts.startedAt.Some?
  {
    var pauses := PausesOf(target, facts);
    Sum(UnpausedRate(RateOf(target.basis, calendars), pauses, |pauses|), facts.startedAt.value, at)
  }

  /**
   * On whole-second data and with disjoint pauses the elapsed seconds of a running clock are exactly the
   * working time in which no pause was open.
   */
  lemma ElapsedIsUnpausedTime(target: SlaTarget, facts: ClockFacts, calendars: seq<BusinessCalendar>, at: int)
    requires RunningWhole(target, facts, calendars, at) && at <= facts.startedAt.value + GUARD_MS
    requires PausesDisjoint(PausesOf(target, facts))
    ensures 1000 * StateOf(target, facts, calendars, at).elapsedSeconds == UnpausedMs(target, facts, calendars, at)
  {
    hide MeasuredMs, RateOf, WholeVersions, SoundFor, BreachAt, PausedMs, UnpausedRate, PausesDisjoint, RunningStatus;
    var start := facts.startedAt.value;
    var pauses := PausesOf(target, facts);
    MeasureIsRate(target.basis, calendars, start, at);
    PausesPartitionTime(pauses, |pauses|, start, at, target.basis, calendars);
  }

  // ---------------------------------------------------------------- the flag and the instant

  /** Inside the horizon a business-hours clock must find its breach instant; a 24x7 clock has no horizon. */
  ghost predicate BreachIsDecidable(target: SlaTarget, calendars: seq<BusinessCalendar>, start: int, at: int) {
    && start <= at <= start + GUARD_MS
    && (target.basis == BUSINESS_HOURS ==>
          && at <= start + BREACH_HORIZON_DAYS * 86_400_000
          && NoOverlap(calendars, start, start + BREACH_HORIZON_DAYS * 86_400_000))
  }

  predicate Passed(breachAt: Option<int>, at: int) {
    breachAt.Some? && breachAt.value <= at
  }

  /** The breach instant of a positive target has passed exactly when that much exact time has. */
  lemma BreachInstantIsExact(
      target: SlaTarget, calendars: seq<BusinessCalendar>, start: int, effectiveTarget: int, at: int)
    requires SoundFor(target.basis, calendars) && BreachIsDecidable(target, calendars, start, at)
    requires effectiveTarget > 0
    ensures Passed(BreachAt(target, calendars, start, effectiveTarget), at)
            <==> ExactMs(target.basis, calendars, start, at) >= 1000 * effectiveTarget
  {
    hide Sound, NoOverlap, DepthAt, ElapsedMs, InstantAfter;
    match target.basis
    case CALENDAR_24X7 => SumOne(Always(), start, at);
    case BUSINESS_HOURS =>
      var horizon := start + BREACH_HORIZON_DAYS * 86_400_000;
      InstantAfterIsInverse(calendars, start, effectiveTarget, BREACH_HORIZON_DAYS);
      ElapsedIsDepth(calendars, start, at);
      ElapsedIsDepth(calendars, start, horizon);
      SumGrows(DepthAt(calendars), start, at, horizon);
  }

  lemma {:induction false} PausedIsNotNegative(
      pauses: seq<PauseSpan>, n: nat, from: int, to: int, basis: SlaBasis, calendars: seq<BusinessCalendar>)
    requires n <= |pauses| && SoundFor(basis, calendars) && to <= from + GUARD_MS
    ensures PausedMs(pauses, n, from, to, basis, calendars) >= 0
  {
    hide SoundFor, ExactMs, MeasuredMs;
    if n > 0 {
      PausedIsNotNegative(pauses, n - 1, from, to, basis, calendars);
      var span := ClipPause(pauses[n - 1], from, to);
      if span.from < span.to {
        MeasureIsRate(basis, calendars, span.from, span.to);
      }
    }
  }

  lemma NonPositiveTargetBreachesAtOnce(
      target: SlaTarget, calendars: seq<BusinessCalendar>, start: int, effectiveTarget: int, at: int)
    requires effectiveTarget <= 0 && start <= at
    ensures Passed(BreachAt(target, calendars, start, effectiveTarget), at)
  {
  }

  lemma BreachWindow(target: SlaTarget, calendars: seq<BusinessCalendar>, start: int, at: int)
    requires BreachIsDecidable(target, calendars, start, at)
    ensures start <= at <= start + GUARD_MS
  {
  }

  /** The exact working time still missing to the target as the pauses so far have extended it. */
  ghost function MissingMs(target: SlaTarget, facts: ClockFacts, calendars: seq<BusinessCalendar>, at: int): int
    requires facts.startedAt.Some?
  {
    var start := facts.startedAt.value;
    1000 * (target.targetSeconds + PausedOf(target, facts, calendars, start, at)) - ExactMs(target.basis, calendars, start, at)
  }

  /**
   * The flag and the timestamp on any instants, pauses and targets: the breach instant has passed exactly when
   * no exact time is missing, and the flag is up exactly when at most half a second is, or the target is not
   * positive. So rounding lets the flag lead the instant by at most 500 ms of the clock's own time.
   */
  lemma FlagAndInstant(target: SlaTarget, facts: ClockFacts, calendars: seq<BusinessCalendar>, at: int)
    requires Running(target, facts, calendars, at) && BreachIsDecidable(target, calendars, facts.startedAt.value, at)
    ensures var s := StateOf(target, facts, calendars, at);
            var missing := MissingMs(target, facts, calendars, at);
            && (Passed(s.breachAt, at) <==> missing <= 0)
            && (s.status == BREACHED <==> missing <= 500 || target.targetSeconds <= 0)
  {
    hide MeasuredMs, ExactMs, SoundFor, BreachAt, PausedMs, BreachIsDecidable;
    var start := facts.startedAt.value;
    var paused := PausedOf(target, facts, calendars, start, at);
    BreachWindow(target, calendars, start, at);
    MeasureIsRate(target.basis, calendars, start, at);
    if target.targetSeconds + paused > 0 {
      BreachInstantIsExact(target, calendars, start, target.targetSeconds + paused, at);
    } else {
      NonPositiveTargetBreachesAtOnce(target, calendars, start, target.targetSeconds + paused, at);
    }
  }

  /** The flag does lead: a 24x7 target of one second is BREACHED at 600 ms, 400 ms ahead of its breach instant. */
  lemma TheFlagCanLead()
    ensures var s := StateOf(SlaTarget(RESOLUTION, 1, CALENDAR_24X7, 80, false), ClockFacts(Some(0), None, []), [], 600);
            s.status == BREACHED && s.breachAt == Some(1000) && !Passed(s.breachAt, 600)
  {
    assert PausedMs([], 0, 0, 600, CALENDAR_24X7, []) == 0;
  }

  /**
   * The two tell one story on whole-second data: a running clock is BREACHED exactly when its breach instant
   * exists and has passed, whatever its target if its pauses are disjoint, as the database keeps them, and
   * whatever its pauses if its target is positive.
   */
  lemma FlagAgreesWithInstant(target: SlaTarget, facts: ClockFacts, calendars: seq<BusinessCalendar>, at: int)
    requires RunningWhole(target, facts, calendars, at)
    requires BreachIsDecidable(target, calendars, facts.startedAt.value, at)
    requires PausesDisjoint(PausesOf(target, facts)) || target.targetSeconds > 0
    ensures var s := StateOf(target, facts, calendars, at);
            s.status == BREACHED <==> Passed(s.breachAt, at)
  {
    hide MeasuredMs, RateOf, WholeVersions, SoundFor, StateOf, PausedMs, BreachIsDecidable, UnpausedRate, Sum, PausesDisjoint;
    var start, pauses := facts.startedAt.value, PausesOf(target, facts);
    FlagAndInstant(target, facts, calendars, at);
    BreachWindow(target, calendars, start, at);
    MeasureIsRate(target.basis, calendars, start, at);
    if target.targetSeconds <= 0 {
      PausesPartitionTime(pauses, |pauses|, start, at, target.basis, calendars);
    }
  }
}
