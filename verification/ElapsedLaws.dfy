/**
 * The clock against the calendar's meaning: elapsed time counts open instants, the target instant is its
 * inverse, and the next opening is the first open instant.
 *
 * A window is over an instant when its converted edges enclose it. On the wall clock that is the window the
 * clock stands in, wherever no edge is misplaced; the laws hold for edges in a skipped or repeated hour too.
 */
module ElapsedLaws {
  import opened Options
  import opened Calendar
  import opened Clock
  import opened ClockLaws
  import opened Coverage
  import opened Sums
  import opened WallClock

  // ---------------------------------------------------------------- what the history says at an instant

  /** Windows over an instant, summed over the first `n` versions in force at it. */
  function DepthOfFirst(versions: seq<BusinessCalendar>, n: nat, t: int): nat
    requires n <= |versions|
  {
    if n == 0 then 0
    else DepthOfFirst(versions, n - 1, t) + (if versions[n - 1].Covers(t) then Over(versions[n - 1], t) else 0)
  }

  function DepthAt(versions: seq<BusinessCalendar>): int -> nat {
    t => DepthOfFirst(versions, |versions|, t)
  }

  /** The team is open: some version in force at the instant has a window of some date over it. */
  ghost predicate OpenUnder(versions: seq<BusinessCalendar>, t: int) {
    exists v :: v in versions && v.Covers(t) && UnderSomeWindow(v, t)
  }

  ghost function OpenAt(versions: seq<BusinessCalendar>): int -> nat {
    t => if OpenUnder(versions, t) then 1 else 0
  }

  /** The number of open milliseconds in a span: the reference the clock is measured against. */
  ghost function OpenMs(versions: seq<BusinessCalendar>, from: int, to: int): nat {
    Sum(OpenAt(versions), from, to)
  }

  /** No instant of the span has two windows over it: neither windows nor versions overlap there. */
  ghost predicate NoOverlap(versions: seq<BusinessCalendar>, from: int, to: int) {
    forall t :: from <= t < to ==> DepthAt(versions)(t) <= 1
  }

  lemma {:induction false} DepthOfFirstPositive(versions: seq<BusinessCalendar>, n: nat, t: int)
    requires n <= |versions| && Sound(versions)
    ensures DepthOfFirst(versions, n, t) > 0
            <==> exists i :: 0 <= i < n && versions[i].Covers(t) && UnderSomeWindow(versions[i], t)
  {
    hide Over, UnderSomeWindow, WalkReaches;
    if n > 0 {
      DepthOfFirstPositive(versions, n - 1, t);
      assert versions[n - 1] in versions;
      OverMeansUnderSomeWindow(versions[n - 1], t);
    }
  }

  lemma DepthPositive(versions: seq<BusinessCalendar>, t: int)
    requires Sound(versions)
    ensures DepthAt(versions)(t) > 0 <==> OpenUnder(versions, t)
  {
    hide UnderSomeWindow, DepthOfFirst, WalkReaches;
    DepthOfFirstPositive(versions, |versions|, t);
    if OpenUnder(versions, t) {
      var v :| v in versions && v.Covers(t) && UnderSomeWindow(v, t);
      var i :| 0 <= i < |versions| && versions[i] == v;
    }
  }

  // ---------------------------------------------------------------- on the wall clock

  /** `IsOpenAt` says so, of some version in force at the instant. */
  ghost predicate OpenOnTheClock(versions: seq<BusinessCalendar>, t: int) {
    exists v :: v in versions && v.Covers(t) && InsideSomeWindow(v, t)
  }

  /** Windows the wall clock stands in, summed over the first `n` versions in force. */
  function ClockDepthOfFirst(versions: seq<BusinessCalendar>, n: nat, t: int): nat
    requires n <= |versions|
  {
    if n == 0 then 0
    else ClockDepthOfFirst(versions, n - 1, t) + (if versions[n - 1].Covers(t) then Depth(versions[n - 1], t) else 0)
  }

  /** No edge of a version in force is misplaced at the instant. */
  ghost predicate AllPlacedAt(versions: seq<BusinessCalendar>, t: int) {
    forall v :: v in versions && v.Covers(t) ==> PlacedAt(v, t)
  }

  lemma {:induction false} DepthIsClockDepth(versions: seq<BusinessCalendar>, n: nat, t: int)
    requires n <= |versions| && AllPlacedAt(versions, t)
    ensures DepthOfFirst(versions, n, t) == ClockDepthOfFirst(versions, n, t)
  {
    hide Over, Depth, PlacedAt;
    if n > 0 {
      assert versions[n - 1] in versions;
      DepthIsClockDepth(versions, n - 1, t);
      if versions[n - 1].Covers(t) {
        OverIsDepth(versions[n - 1], t);
      }
    }
  }

  /** Where no edge is misplaced, and so for edges off the shift everywhere, the wall clock says the same. */
  lemma TheWallClockAgrees(versions: seq<BusinessCalendar>, t: int)
    requires Sound(versions) && AllPlacedAt(versions, t)
    ensures DepthAt(versions)(t) == ClockDepthOfFirst(versions, |versions|, t)
    ensures OpenUnder(versions, t) <==> OpenOnTheClock(versions, t)
  {
    hide Over, Depth, PlacedAt, WalkReaches, UnderSomeWindow, InsideSomeWindow;
    DepthIsClockDepth(versions, |versions|, t);
    forall v | v in versions && v.Covers(t)
      ensures UnderSomeWindow(v, t) <==> InsideSomeWindow(v, t)
    {
      OverIsDepth(v, t);
      OverMeansUnderSomeWindow(v, t);
      DepthMeansOpen(v, t);
    }
  }

  /** Either kind of calendar will do: edges off the shift, or midnights clear of it. */
  lemma SoundHistories(versions: seq<BusinessCalendar>)
    requires forall v :: v in versions ==> v.WellFormed() && (EdgesOffShift(v) || MidnightsClear(v.zone))
    ensures Sound(versions)
  {
    hide EdgesOffShift, MidnightsClear, WalkReaches;
    forall v | v in versions
      ensures WalkReaches(v)
    {
      if EdgesOffShift(v) {
        OffShiftIsReached(v);
      } else {
        ClearMidnightsAreReached(v);
      }
    }
  }

  // ---------------------------------------------------------------- coverage of the whole history

  lemma VersionWithin(cal: BusinessCalendar, from: int, to: int)
    ensures Within(VersionIntervals(cal, from, to), from, to)
  {
    hide IntervalsOf;
    var c := ClipToVersion(cal, from, to);
    if c.Some? {
      IntervalsWithin(cal, c.value.from, c.value.to);
    }
  }

  lemma VersionCover(cal: BusinessCalendar, from: int, to: int, t: int)
    requires cal.WellFormed() && WalkReaches(cal) && from <= t < to <= from + GUARD_MS
    ensures Cover(VersionIntervals(cal, from, to), t) == if cal.Covers(t) then Over(cal, t) else 0
  {
    hide IntervalsOf, Over, Cover, WalkReaches;
    var c := ClipToVersion(cal, from, to);
    if c.Some? && c.value.Has(t) {
      ShortQueriesStayWithinGuard(cal.zone, c.value.from, t);
      CoverIsOver(cal, c.value.from, c.value.to, t);
    } else {
      assert !cal.Covers(t);
      CoverPositive(VersionIntervals(cal, from, to), t);
      if c.Some? {
        IntervalsWithin(cal, c.value.from, c.value.to);
      }
    }
  }

  lemma AllWithin(versions: seq<BusinessCalendar>, from: int, to: int)
    ensures Within(AllIntervals(versions, from, to), from, to)
  {
    hide VersionIntervals;
    forall v: int ensures Within(VersionPieces(versions, from, to)(v), from, to) {
      if 0 <= v < |versions| {
        VersionWithin(versions[v], from, to);
      }
    }
    GatherWithin(VersionPieces(versions, from, to), 0, |versions|, from, to);
  }

  function DepthSoFar(versions: seq<BusinessCalendar>, t: int): nat -> nat {
    (n: nat) => if n <= |versions| then DepthOfFirst(versions, n, t) else 0
  }

  lemma AllCover(versions: seq<BusinessCalendar>, from: int, to: int, t: int)
    requires Sound(versions) && from <= t < to <= from + GUARD_MS
    ensures Cover(AllIntervals(versions, from, to), t) == DepthAt(versions)(t)
  {
    hide VersionIntervals, Over, Cover, Gather, WalkReaches;
    var pieces, running := VersionPieces(versions, from, to), DepthSoFar(versions, t);
    forall n: nat | n < |versions|
      ensures running(n + 1) == running(n) + Cover(pieces(0 + n), t)
    {
      assert versions[n] in versions;
      VersionCover(versions[n], from, to, t);
    }
    GatherCover(pieces, running, 0, |versions|, t);
  }

  /** Elapsed time is the number of windows over each instant, summed: an overlap is counted twice. */
  lemma ElapsedIsDepth(versions: seq<BusinessCalendar>, from: int, to: int)
    requires Sound(versions) && to <= from + GUARD_MS
    ensures ElapsedMs(versions, from, to) == Sum(DepthAt(versions), from, to)
  {
    hide AllIntervals, DepthAt, Cover, Total, Sound;
    if from < to {
      AllWithin(versions, from, to);
      TotalIsCoverage(AllIntervals(versions, from, to), from, to);
      forall t | from <= t < to
        ensures CoverAt(AllIntervals(versions, from, to))(t) == DepthAt(versions)(t)
      {
        AllCover(versions, from, to, t);
      }
      SumSame(CoverAt(AllIntervals(versions, from, to)), DepthAt(versions), from, to);
    }
  }

  /**
   * Elapsed working time is the number of open milliseconds, each under the version in force at it,
   * exactly when nothing in the span overlaps. An uncovered period counts nothing.
   */
  lemma ElapsedIsOpenTime(versions: seq<BusinessCalendar>, from: int, to: int)
    requires Sound(versions) && to <= from + GUARD_MS
    ensures ElapsedMs(versions, from, to) >= OpenMs(versions, from, to)
    ensures ElapsedMs(versions, from, to) == OpenMs(versions, from, to) <==> NoOverlap(versions, from, to)
  {
    hide DepthAt, OpenUnder, WalkReaches, ElapsedMs;
    ElapsedIsDepth(versions, from, to);
    forall t
      ensures OpenAt(versions)(t) <= DepthAt(versions)(t)
      ensures OpenAt(versions)(t) == DepthAt(versions)(t) <==> DepthAt(versions)(t) <= 1
    {
      DepthPositive(versions, t);
    }
    SumOrder(OpenAt(versions), DepthAt(versions), from, to);
  }

  // ---------------------------------------------------------------- when nothing overlaps

  predicate Apart(a: Window, b: Window) {
    a.closeMinute <= b.openMinute || b.closeMinute <= a.openMinute
  }

  /** The windows of every date keep apart from each other and from the next date's. */
  ghost predicate WindowsApart(cal: BusinessCalendar) {
    && (forall day: int, i, j :: 0 <= i < j < |WindowsForDate(cal, day)| ==>
          Apart(WindowsForDate(cal, day)[i], WindowsForDate(cal, day)[j]))
    && (forall day: int, a, b :: a in WindowsForDate(cal, day - 1) && b in WindowsForDate(cal, day) ==>
          a.closeMinute - 1440 <= b.openMinute)
  }

  /** No two versions of the history are in force together. */
  ghost predicate VersionsApart(versions: seq<BusinessCalendar>) {
    forall i, j, t :: 0 <= i < j < |versions| && versions[i].Covers(t) ==> !versions[j].Covers(t)
  }

  lemma {:induction false} VersionAtCovers(versions: seq<BusinessCalendar>, t: int)
    ensures match VersionAt(versions, t)
            case None => forall v :: v in versions ==> !v.Covers(t)
            case Some(v) => v in versions && v.Covers(t)
  {
    if versions != [] {
      VersionAtCovers(versions[1..], t);
      assert versions == [versions[0]] + versions[1..];
    }
  }

  /** With periods apart, `IsOpenAt` of the one version looked up decides as the whole history does. */
  lemma TheVersionInForceDecides(versions: seq<BusinessCalendar>, t: int)
    requires VersionsApart(versions)
    ensures var v := VersionAt(versions, t);
            OpenOnTheClock(versions, t) <==> v.Some? && InsideSomeWindow(v.value, t)
  {
    hide InsideSomeWindow;
    VersionAtCovers(versions, t);
    forall v, u | v in versions && u in versions && v.Covers(t) && u.Covers(t)
      ensures v == u
    {
      var i :| 0 <= i < |versions| && versions[i] == v;
      var j :| 0 <= j < |versions| && versions[j] == u;
    }
  }

  lemma {:induction false} ApartHitOnce(windows: seq<Window>, minute: int)
    requires forall i, j :: 0 <= i < j < |windows| ==> Apart(windows[i], windows[j])
    ensures Hits(windows, minute) <= 1
  {
    if windows != [] {
      var last := |windows| - 1;
      ApartHitOnce(windows[..last], minute);
      HitsPositive(windows[..last], minute);
      assert forall i :: 0 <= i < last ==> windows[..last][i] == windows[i] && Apart(windows[i], windows[last]);
    }
  }

  lemma ApartDepth(cal: BusinessCalendar, t: int)
    requires WindowsApart(cal)
    ensures Depth(cal, t) <= 1
  {
    hide WindowsForDate, Hits;
    var day, minute := cal.zone.LocalDay(t), cal.zone.MinuteOfDay(t);
    var today, yesterday := WindowsForDate(cal, day), WindowsForDate(cal, day - 1);
    ApartHitOnce(today, minute);
    ApartHitOnce(yesterday, minute + 1440);
    HitsPositive(today, minute);
    HitsPositive(yesterday, minute + 1440);
    if Hits(today, minute) > 0 {
      var i :| 0 <= i < |today| && today[i].Contains(minute);
      forall j | 0 <= j < |yesterday|
        ensures !yesterday[j].Contains(minute + 1440)
      {
        assert today[i] in today && yesterday[j] in yesterday;
      }
    }
  }

  lemma {:induction false} ApartHistoryDepth(versions: seq<BusinessCalendar>, n: nat, t: int)
    requires n <= |versions| && VersionsApart(versions)
    requires forall v :: v in versions ==> WindowsApart(v)
    ensures ClockDepthOfFirst(versions, n, t) <= 1
    ensures ClockDepthOfFirst(versions, n, t) > 0 ==> exists i :: 0 <= i < n && versions[i].Covers(t)
  {
    hide Depth, WindowsApart;
    if n > 0 {
      ApartHistoryDepth(versions, n - 1, t);
      assert versions[n - 1] in versions;
      ApartDepth(versions[n - 1], t);
    }
  }

  /**
   * Windows that keep apart under versions that keep apart never have the wall clock in two of them; so they
   * never overlap at any instant, if no edge is misplaced there.
   */
  lemma ApartNeverOverlaps(versions: seq<BusinessCalendar>, from: int, to: int)
    requires VersionsApart(versions) && forall v :: v in versions ==> WindowsApart(v)
    ensures forall t :: ClockDepthOfFirst(versions, |versions|, t) <= 1
    ensures (forall t :: from <= t < to ==> AllPlacedAt(versions, t)) ==> NoOverlap(versions, from, to)
  {
    hide DepthOfFirst, ClockDepthOfFirst, WindowsApart, VersionsApart, AllPlacedAt;
    forall t ensures ClockDepthOfFirst(versions, |versions|, t) <= 1 {
      ApartHistoryDepth(versions, |versions|, t);
    }
    if forall t :: from <= t < to ==> AllPlacedAt(versions, t) {
      forall t | from <= t < to
        ensures DepthAt(versions)(t) <= 1
      {
        DepthIsClockDepth(versions, |versions|, t);
      }
    }
  }

  /** Open from midnight to two o'clock less a minute and from two to four, every day, in a zone that skips 2 to 3. */
  const SPLIT_AT_TWO := BusinessCalendar(
    Zone(25_200_000, -300, -240), 0, None,
    seq(7, i => WorkingWindow(i, Window(0, 119))) + seq(7, i => WorkingWindow(i, Window(120, 240))), [], [])

  /**
   * It takes a misplaced edge: two o'clock on the day of the jump is put at one, so the second window opens
   * before the first has closed, and for most of an hour the clock counts twice.
   */
  lemma ApartWindowsCanOverlap()
    ensures WindowsApart(SPLIT_AT_TWO)
    ensures Over(SPLIT_AT_TWO, 21_600_000) == 2 && Depth(SPLIT_AT_TWO, 21_600_000) == 1
  {
    hide WindowsForDate, WindowsOver, Hits, WindowInterval;
    var zone, t, windows := SPLIT_AT_TWO.zone, 21_600_000, [Window(0, 119), Window(120, 240)];
    forall day: int ensures WindowsForDate(SPLIT_AT_TWO, day) == windows {
      SplitDates(day);
    }
    assert zone.LocalDay(t) == 0 && zone.MinuteOfDay(t) == 60;
    TwoWindowsOver(zone, 0, windows, t);
    TwoWindowsOver(zone, -1, windows, t);
    TwoWindowsHit(windows, 60);
    TwoWindowsHit(windows, 1500);
    SplitIntervals(zone);
  }

  lemma SplitEdges(zone: Zone)
    requires zone == Zone(25_200_000, -300, -240)
    ensures InstantOf(zone, 0) == 18_000_000 && InstantOf(zone, 7_140_000) == 25_140_000
    ensures InstantOf(zone, 7_200_000) == 21_600_000 && InstantOf(zone, 14_400_000) == 28_800_000
    ensures InstantOf(zone, -79_260_000) == -61_260_000 && InstantOf(zone, -72_000_000) == -54_000_000
  {
  }

  lemma SplitIntervals(zone: Zone)
    requires zone == Zone(25_200_000, -300, -240)
    ensures WindowInterval(zone, 0, Window(0, 119)).Has(21_600_000)
    ensures WindowInterval(zone, 0, Window(120, 240)).Has(21_600_000)
    ensures !WindowInterval(zone, -1, Window(0, 119)).Has(21_600_000)
    ensures !WindowInterval(zone, -1, Window(120, 240)).Has(21_600_000)
  {
    hide InstantOf, WallTime;
    SplitEdges(zone);
    OnTheLine(0, 0);
    OnTheLine(0, 119);
    OnTheLine(0, 120);
    OnTheLine(0, 240);
    OnTheLine(-1, 119);
    OnTheLine(-1, 240);
  }

  lemma OnTheLine(day: int, minute: int)
    ensures WallTime(day, minute) == day * 86_400_000 + minute * 60_000
  {
  }

  lemma TwoWindowsOver(zone: Zone, day: int, windows: seq<Window>, t: int)
    requires |windows| == 2
    ensures WindowsOver(zone, day, windows, t) == (if WindowInterval(zone, day, windows[0]).Has(t) then 1 else 0)
                                                + (if WindowInterval(zone, day, windows[1]).Has(t) then 1 else 0)
  {
    hide WindowInterval;
    var first := windows[..1];
    assert first[..0] == [] && first[0] == windows[0];
    assert WindowsOver(zone, day, first, t) == if WindowInterval(zone, day, windows[0]).Has(t) then 1 else 0;
  }

  lemma TwoWindowsHit(windows: seq<Window>, minute: int)
    requires |windows| == 2
    ensures Hits(windows, minute) == (if windows[0].Contains(minute) then 1 else 0)
                                   + (if windows[1].Contains(minute) then 1 else 0)
  {
    var first := windows[..1];
    assert first[..0] == [] && first[0] == windows[0];
    assert Hits(first, minute) == if windows[0].Contains(minute) then 1 else 0;
  }

  lemma SplitDates(day: int)
    ensures WindowsForDate(SPLIT_AT_TWO, day) == [Window(0, 119), Window(120, 240)]
  {
    var first := seq(7, i => WorkingWindow(i, Window(0, 119)));
    var second := seq(7, i => WorkingWindow(i, Window(120, 240)));
    PatternForTogether(first, second, WeekdayOf(day));
    OneWindowEachDay(7, Window(0, 119), WeekdayOf(day));
    OneWindowEachDay(7, Window(120, 240), WeekdayOf(day));
    assert first == seq(7, i => WorkingWindow(7 - 7 + i, Window(0, 119)));
    assert second == seq(7, i => WorkingWindow(7 - 7 + i, Window(120, 240)));
  }

  lemma {:induction false} OneWindowEachDay(n: nat, w: Window, weekday: int)
    requires n <= 7
    ensures PatternFor(seq(n, i => WorkingWindow(7 - n + i, w)), weekday) == if 7 - n <= weekday < 7 then [w] else []
  {
    if n > 0 {
      assert seq(n, i => WorkingWindow(7 - n + i, w))[1..] == seq(n - 1, i => WorkingWindow(7 - (n - 1) + i, w));
      OneWindowEachDay(n - 1, w, weekday);
    }
  }

  lemma {:induction false} PatternForTogether(a: seq<WorkingWindow>, b: seq<WorkingWindow>, weekday: int)
    ensures PatternFor(a + b, weekday) == PatternFor(a, weekday) + PatternFor(b, weekday)
  {
    if a == [] {
      assert a + b == b;
    } else {
      PatternForTogether(a[1..], b, weekday);
      assert (a + b)[1..] == a[1..] + b;
    }
  }

  // ---------------------------------------------------------------- laws of elapsed time

  /** Asking in two parts gives the same time as asking once, wherever the split falls. */
  lemma ElapsedSplits(versions: seq<BusinessCalendar>, from: int, mid: int, to: int)
    requires Sound(versions) && from <= mid <= to <= from + GUARD_MS
    ensures ElapsedMs(versions, from, to) == ElapsedMs(versions, from, mid) + ElapsedMs(versions, mid, to)
  {
    hide ElapsedMs, DepthAt, Sound;
    ElapsedIsDepth(versions, from, to);
    ElapsedIsDepth(versions, from, mid);
    ElapsedIsDepth(versions, mid, to);
    SumSplit(DepthAt(versions), from, mid, to);
  }

  /** Calendars that agree on their zone, their period and every date's windows. */
  ghost predicate SameHours(a: BusinessCalendar, b: BusinessCalendar) {
    a.zone == b.zone && a.effectiveFrom == b.effectiveFrom && a.effectiveTo == b.effectiveTo
    && forall day: int :: WindowsForDate(a, day) == WindowsForDate(b, day)
  }

  lemma {:induction false} GatherSame(p: int -> seq<Interval>, q: int -> seq<Interval>, first: int, count: nat)
    requires forall k: int :: p(k) == q(k)
    ensures Gather(p, first, count) == Gather(q, first, count)
  {
    if count > 0 {
      GatherSame(p, q, first, count - 1);
    }
  }

  lemma SameHoursSameIntervals(a: BusinessCalendar, b: BusinessCalendar, from: int, to: int)
    requires SameHours(a, b)
    ensures VersionIntervals(a, from, to) == VersionIntervals(b, from, to)
  {
    hide WindowsForDate, DatesWalked, SortByStart;
    forall lo: int, hi: int ensures IntervalsOf(a, lo, hi) == IntervalsOf(b, lo, hi) {
      GatherSame(DatePieces(a, lo, hi), DatePieces(b, lo, hi), a.zone.LocalDay(lo) - 1,
                 DatesWalked(a.zone.LocalDay(lo) - 1, a.zone.LocalDay(hi)));
    }
  }

  /** A correction that leaves the hours as they are leaves elapsed time as it is. */
  lemma SameHoursSameTime(versions: seq<BusinessCalendar>, i: nat, a: BusinessCalendar, b: BusinessCalendar, from: int, to: int)
    requires i < |versions| && SameHours(a, b)
    ensures ElapsedMs(versions[i := a], from, to) == ElapsedMs(versions[i := b], from, to)
  {
    hide VersionIntervals, SameHours, Total;
    SameHoursSameIntervals(a, b, from, to);
    GatherSame(VersionPieces(versions[i := a], from, to), VersionPieces(versions[i := b], from, to), 0, |versions|);
  }

  /** Recording a date as closed by exception or as a holiday gives the same elapsed time over every span. */
  lemma ClosedExceptionCountsAsAHoliday(versions: seq<BusinessCalendar>, i: nat, day: int, from: int, to: int)
    requires i < |versions| && !HasException(versions[i], day)
    ensures ElapsedMs(versions[i := WithException(versions[i], CalendarException(day, None))], from, to)
         == ElapsedMs(versions[i := WithHoliday(versions[i], day)], from, to)
  {
    hide WindowsForDate, ElapsedMs;
    var cal, e := versions[i], CalendarException(day, None);
    forall d: int ensures WindowsForDate(WithException(cal, e), d) == WindowsForDate(WithHoliday(cal, day), d) {
      ExceptionReplacesTheDate(cal, e, d);
    }
    SameHoursSameTime(versions, i, WithException(cal, e), WithHoliday(cal, day), from, to);
  }

  lemma HolidayOnlyClosesItsDate(cal: BusinessCalendar, holiday: int, day: int)
    ensures WindowsForDate(WithHoliday(cal, holiday), day)
            == if day == holiday && FindException(cal.exceptions, day).None? then [] else WindowsForDate(cal, day)
  {
  }

  lemma HolidayShrinksDepth(cal: BusinessCalendar, holiday: int, t: int)
    ensures Over(WithHoliday(cal, holiday), t) <= Over(cal, t)
  {
    hide WindowsForDate, WithHoliday, WindowsOver;
    var today := cal.zone.LocalDay(t);
    HolidayKeepsZone(cal, holiday);
    HolidayOnlyClosesItsDate(cal, holiday, today);
    HolidayOnlyClosesItsDate(cal, holiday, today - 1);
    NoWindowsOver(cal.zone, today, t);
    NoWindowsOver(cal.zone, today - 1, t);
  }

  lemma HolidayKeepsZone(cal: BusinessCalendar, holiday: int)
    ensures WithHoliday(cal, holiday).zone == cal.zone
  {
  }

  lemma NoWindowsOver(zone: Zone, day: int, t: int)
    ensures WindowsOver(zone, day, [], t) == 0
  {
  }

  lemma HolidayKeepsSound(cal: BusinessCalendar, holiday: int)
    requires cal.WellFormed() && WalkReaches(cal)
    ensures WithHoliday(cal, holiday).WellFormed() && WalkReaches(WithHoliday(cal, holiday))
  {
    hide WindowsForDate, WindowInterval, OnEveryWalk;
    HolidayKeepsZone(cal, holiday);
    forall day: int, w | w in WindowsForDate(WithHoliday(cal, holiday), day)
      ensures w in WindowsForDate(cal, day)
    {
      HolidayOnlyClosesItsDate(cal, holiday, day);
    }
  }

  lemma {:induction false} HolidayShrinksHistory(versions: seq<BusinessCalendar>, i: nat, holiday: int, n: nat, t: int)
    requires i < |versions| && n <= |versions|
    ensures DepthOfFirst(versions[i := WithHoliday(versions[i], holiday)], n, t) <= DepthOfFirst(versions, n, t)
  {
    hide Over;
    if n > 0 {
      HolidayShrinksHistory(versions, i, holiday, n - 1, t);
      HolidayShrinksDepth(versions[i], holiday, t);
    }
  }

  /** A holiday recorded after the fact re-derives history, and never adds working time to it. */
  lemma HolidayNeverAddsTime(versions: seq<BusinessCalendar>, i: nat, holiday: int, from: int, to: int)
    requires Sound(versions) && i < |versions| && to <= from + GUARD_MS
    ensures ElapsedMs(versions[i := WithHoliday(versions[i], holiday)], from, to) <= ElapsedMs(versions, from, to)
  {
    hide ElapsedMs, DepthOfFirst, WalkReaches;
    var corrected := versions[i := WithHoliday(versions[i], holiday)];
    assert versions[i] in versions;
    HolidayKeepsSound(versions[i], holiday);
    assert Sound(corrected) by {
      forall v | v in corrected
        ensures v.WellFormed() && WalkReaches(v)
      {
        assert v == corrected[i] || v in versions;
      }
    }
    forall t ensures DepthAt(corrected)(t) <= DepthAt(versions)(t) {
      HolidayShrinksHistory(versions, i, holiday, |versions|, t);
    }
    ElapsedIsDepth(corrected, from, to);
    ElapsedIsDepth(versions, from, to);
    SumOrder(DepthAt(corrected), DepthAt(versions), from, to);
  }

  // ---------------------------------------------------------------- the inverse

  lemma AllSortedInOrder(versions: seq<BusinessCalendar>, from: int, to: int)
    requires Sound(versions) && from <= to <= from + GUARD_MS && NoOverlap(versions, from, to)
    ensures InOrder(SortByStart(AllIntervals(versions, from, to)))
    ensures Within(SortByStart(AllIntervals(versions, from, to)), from, to)
  {
    hide AllIntervals, Cover, SortByStart, DepthAt, Sound;
    var s := AllIntervals(versions, from, to);
    AllWithin(versions, from, to);
    SortStaysWithin(s, from, to);
    SortKeeps(s, 0);
    forall t | from <= t < to
      ensures Cover(SortByStart(s), t) <= 1
    {
      AllCover(versions, from, to, t);
      SortCover(s, t);
    }
    SortedAndOnceIsInOrder(SortByStart(s), from, to);
  }

  /** Up to u, the sorted intervals of a longer query hold what the history's depth says. */
  lemma SortedSumIsDepth(versions: seq<BusinessCalendar>, from: int, to: int, u: int)
    requires Sound(versions) && u <= to <= from + GUARD_MS
    ensures Sum(CoverAt(SortByStart(AllIntervals(versions, from, to))), from, u) == Sum(DepthAt(versions), from, u)
  {
    hide AllIntervals, Cover, SortByStart, DepthAt, Sound;
    var s := AllIntervals(versions, from, to);
    forall t | from <= t < u
      ensures CoverAt(SortByStart(s))(t) == DepthAt(versions)(t)
    {
      AllCover(versions, from, to, t);
      SortCover(s, t);
    }
    SumSame(CoverAt(SortByStart(s)), DepthAt(versions), from, u);
  }

  /** The target instant and the elapsed clock, in milliseconds of working time. */
  ghost predicate IsTargetInstant(versions: seq<BusinessCalendar>, from: int, ms: int, horizon: int, at: Option<int>) {
    match at
    case None => ElapsedMs(versions, from, horizon) < ms
    case Some(t) =>
      && from < t <= horizon
      && ElapsedMs(versions, from, t) == ms
      && forall u :: u <= horizon ==> (ElapsedMs(versions, from, u) >= ms <==> u >= t)
  }

  lemma TargetFromSums(versions: seq<BusinessCalendar>, from: int, ms: nat, horizon: int, t: int)
    requires Sound(versions) && from < t <= horizon <= from + GUARD_MS
    requires Sum(DepthAt(versions), from, t) == ms && Sum(DepthAt(versions), from, t - 1) == ms - 1
    ensures IsTargetInstant(versions, from, ms, horizon, Some(t))
  {
    hide ElapsedMs, DepthAt, Sound;
    ElapsedIsDepth(versions, from, t);
    forall u | u <= horizon
      ensures ElapsedMs(versions, from, u) >= ms <==> u >= t
    {
      ElapsedIsDepth(versions, from, u);
      SumCrossesAt(DepthAt(versions), from, t, ms, u);
    }
  }

  /**
   * `InstantAfterWorkingSeconds` is the inverse of `ElapsedWorkingSeconds`: it returns the least instant
   * by which that much working time has passed, and nothing exactly when the horizon holds too little.
   */
  lemma InstantAfterIsInverse(versions: seq<BusinessCalendar>, from: int, seconds: int, horizonDays: nat)
    requires Sound(versions) && seconds > 0 && horizonDays <= 3650
    requires NoOverlap(versions, from, from + horizonDays * 86_400_000)
    ensures IsTargetInstant(versions, from, seconds * 1000, from + horizonDays * 86_400_000,
                            InstantAfter(versions, from, seconds, horizonDays))
  {
    hide AllIntervals, Cover, SortByStart, DepthAt, Sound, ElapsedMs, IsTargetInstant, WalkForward, Total;
    var horizon := from + horizonDays * 86_400_000;
    var s := SortByStart(AllIntervals(versions, from, horizon));
    var ms := seconds * 1000;
    AllSortedInOrder(versions, from, horizon);
    WalkCountsCoverage(s, from, horizon, ms);
    var end := WalkForward(s, ms);
    if end.Some? {
      SortedSumIsDepth(versions, from, horizon, end.value);
      SortedSumIsDepth(versions, from, horizon, end.value - 1);
      TargetFromSums(versions, from, ms, horizon, end.value);
    } else {
      TotalIsCoverage(s, from, horizon);
      SortedSumIsDepth(versions, from, horizon, horizon);
      ElapsedIsDepth(versions, from, horizon);
      TargetMissed(versions, from, ms, horizon);
    }
  }

  lemma TargetMissed(versions: seq<BusinessCalendar>, from: int, ms: int, horizon: int)
    requires ElapsedMs(versions, from, horizon) < ms
    ensures IsTargetInstant(versions, from, ms, horizon, None)
  {
  }

  // ---------------------------------------------------------------- the next opening

  lemma FirstStartIsFirstCovered(s: seq<Interval>, from: int, to: int, t: int)
    requires SortedByStart(s) && Within(s, from, to) && Cover(s, t) > 0
    ensures s != [] && s[0].from <= t
  {
    CoverPositive(s, t);
    var x :| x in s && x.Has(t);
    var i :| 0 <= i < |s| && s[i] == x;
  }

  lemma VersionSorted(cal: BusinessCalendar, from: int, to: int)
    ensures SortedByStart(VersionIntervals(cal, from, to))
  {
    hide IntervalsOf;
    var c := ClipToVersion(cal, from, to);
    if c.Some? {
      IntervalsSorted(cal, c.value.from, c.value.to);
    }
  }

  /** `first` is the first instant of the span at which one of the first `n` versions is open. */
  ghost predicate IsFirstOpen(versions: seq<BusinessCalendar>, n: nat, from: int, to: int, first: Option<int>)
    requires n <= |versions|
  {
    match first
    case None => forall t :: from <= t < to ==> DepthOfFirst(versions, n, t) == 0
    case Some(o) =>
      && from <= o < to && DepthOfFirst(versions, n, o) > 0
      && forall t :: from <= t < o ==> DepthOfFirst(versions, n, t) == 0
  }

  lemma VersionFirst(cal: BusinessCalendar, from: int, to: int)
    requires cal.WellFormed() && WalkReaches(cal) && from <= to <= from + GUARD_MS
    ensures var s := VersionIntervals(cal, from, to);
            if s == [] then forall t :: from <= t < to && cal.Covers(t) ==> Over(cal, t) == 0
            else
              && from <= s[0].from < to && cal.Covers(s[0].from) && Over(cal, s[0].from) > 0
              && forall t :: from <= t < s[0].from && cal.Covers(t) ==> Over(cal, t) == 0
  {
    hide VersionIntervals, Over, Cover, WalkReaches;
    var s := VersionIntervals(cal, from, to);
    VersionWithin(cal, from, to);
    VersionSorted(cal, from, to);
    if s != [] {
      assert s[0] in s && s[0].Has(s[0].from);
      CoverPositive(s, s[0].from);
      VersionCover(cal, from, to, s[0].from);
    }
    forall t | from <= t < to && cal.Covers(t) && (s == [] || t < s[0].from)
      ensures Over(cal, t) == 0
    {
      VersionCover(cal, from, to, t);
      if Cover(s, t) > 0 {
        FirstStartIsFirstCovered(s, from, to, t);
      }
    }
  }

  lemma {:induction false} EarliestIsFirstOpen(versions: seq<BusinessCalendar>, n: nat, from: int, to: int)
    requires n <= |versions| && Sound(versions) && from <= to <= from + GUARD_MS
    ensures IsFirstOpen(versions, n, from, to, EarliestStart(versions, n, from, to))
  {
    hide VersionIntervals, Over, WalkReaches;
    if n > 0 {
      EarliestIsFirstOpen(versions, n - 1, from, to);
      assert versions[n - 1] in versions;
      VersionFirst(versions[n - 1], from, to);
      forall t ensures DepthOfFirst(versions, n, t)
                       == DepthOfFirst(versions, n - 1, t)
                        + (if versions[n - 1].Covers(t) then Over(versions[n - 1], t) else 0) {
      }
      assert EarliestStart(versions, n, from, to)
          == EarlierStart(EarliestStart(versions, n - 1, from, to), VersionIntervals(versions[n - 1], from, to));
    }
  }

  /**
   * The next opening is the first instant from `at` on, inside the horizon, at which the team is open
   * under a version in force; there is none exactly when the answer is absent.
   */
  lemma NextOpeningIsFirstOpenInstant(versions: seq<BusinessCalendar>, at: int, horizonDays: nat)
    requires Sound(versions) && horizonDays <= 3650
    ensures var horizon := at + horizonDays * 86_400_000;
            match EarliestStart(versions, |versions|, at, horizon)
            case None => forall t :: at <= t < horizon ==> !OpenUnder(versions, t)
            case Some(o) => at <= o < horizon && OpenUnder(versions, o)
                            && forall t :: at <= t < o ==> !OpenUnder(versions, t)
  {
    hide EarliestStart, DepthOfFirst, OpenUnder, WalkReaches;
    EarliestIsFirstOpen(versions, |versions|, at, at + horizonDays * 86_400_000);
    forall t ensures DepthOfFirst(versions, |versions|, t) > 0 <==> OpenUnder(versions, t) {
      DepthPositive(versions, t);
    }
  }

  /** Starting the clock at the next opening loses nothing: no working time passes before it. */
  lemma ClockStartIsExact(versions: seq<BusinessCalendar>, at: int, horizonDays: nat, end: int)
    requires Sound(versions) && horizonDays <= 3650 && at <= end <= at + GUARD_MS
    ensures var horizon := at + horizonDays * 86_400_000;
            match EarliestStart(versions, |versions|, at, horizon)
            case None => end <= horizon ==> ElapsedMs(versions, at, end) == 0
            case Some(o) => o <= end ==> ElapsedMs(versions, o, end) == ElapsedMs(versions, at, end)
  {
    hide EarliestStart, DepthOfFirst, ElapsedMs, WalkReaches;
    var horizon := at + horizonDays * 86_400_000;
    EarliestIsFirstOpen(versions, |versions|, at, horizon);
    ElapsedIsDepth(versions, at, end);
    match EarliestStart(versions, |versions|, at, horizon)
    case None =>
      if end <= horizon {
        SumZero(DepthAt(versions), at, end);
      }
    case Some(o) =>
      if o <= end {
        ElapsedIsDepth(versions, o, end);
        SumSplit(DepthAt(versions), at, o, end);
        SumZero(DepthAt(versions), at, o);
      }
  }
}
