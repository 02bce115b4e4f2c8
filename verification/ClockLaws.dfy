/**
 * What the clock promises: it measures exactly the instants at which the calendar says the team is open,
 * `InstantAfterWorkingSeconds` is its inverse, and `NextOpening` is the first open instant.
 */
module ClockLaws {
  import opened Options
  import opened Calendar
  import opened Clock
  import opened Coverage
  import opened Sums
  import opened WallClock
  import Sorting

  /** The calendars the reader can produce whose open windows belong to dates the walk visits. */
  ghost predicate Sound(versions: seq<BusinessCalendar>) {
    forall v :: v in versions ==> v.WellFormed() && WalkReaches(v)
  }

  /** Queries this short never meet the runaway guard. */
  const GUARD_MS := 3650 * 86_400_000

  // ---------------------------------------------------------------- one version

  lemma DateWithin(cal: BusinessCalendar, day: int, from: int, to: int)
    ensures Within(DateIntervals(cal, day, from, to), from, to)
  {
    hide WindowsForDate, WindowInterval;
    var windows := WindowsForDate(cal, day);
    GatherWithin(WindowPieces(cal.zone, day, windows, from, to), 0, |windows|, from, to);
  }

  lemma IntervalsWithin(cal: BusinessCalendar, from: int, to: int)
    ensures Within(IntervalsOf(cal, from, to), from, to)
  {
    hide DateIntervals, DatesWalked;
    if from < to {
      var startDate, endDate := cal.zone.LocalDay(from) - 1, cal.zone.LocalDay(to);
      forall day: int ensures Within(DatePieces(cal, from, to)(day), from, to) {
        DateWithin(cal, day, from, to);
      }
      GatherWithin(DatePieces(cal, from, to), startDate, DatesWalked(startDate, endDate), from, to);
      SortStaysWithin(WalkIntervals(cal, startDate, endDate, from, to), from, to);
    }
  }

  /** How many of a date's windows hold an instant, each placed by its converted edges. */
  function WindowsOver(zone: Zone, day: int, windows: seq<Window>, t: int): nat {
    if windows == [] then 0
    else
      var last := |windows| - 1;
      WindowsOver(zone, day, windows[..last], t) + (if WindowInterval(zone, day, windows[last]).Has(t) then 1 else 0)
  }

  function DateOver(cal: BusinessCalendar, day: int, t: int): nat {
    WindowsOver(cal.zone, day, WindowsForDate(cal, day), t)
  }

  /** How many windows are over an instant: those of today's local date and of yesterday's. */
  function Over(cal: BusinessCalendar, t: int): nat {
    DateOver(cal, cal.zone.LocalDay(t), t) + DateOver(cal, cal.zone.LocalDay(t) - 1, t)
  }

  /** The window of some date is over the instant. */
  ghost predicate UnderSomeWindow(cal: BusinessCalendar, t: int) {
    exists day: int, w :: w in WindowsForDate(cal, day) && WindowInterval(cal.zone, day, w).Has(t)
  }

  lemma {:induction false} WindowsOverPositive(zone: Zone, day: int, windows: seq<Window>, t: int)
    ensures WindowsOver(zone, day, windows, t) > 0 <==> exists w :: w in windows && WindowInterval(zone, day, w).Has(t)
  {
    hide WindowInterval;
    if windows != [] {
      WindowsOverPositive(zone, day, windows[..|windows| - 1], t);
      assert windows == windows[..|windows| - 1] + [windows[|windows| - 1]];
    }
  }

  /** Looking at two dates is enough. */
  lemma OnlyTwoDatesOver(cal: BusinessCalendar, t: int, day: int)
    requires WalkReaches(cal) && day != cal.zone.LocalDay(t) && day != cal.zone.LocalDay(t) - 1
    ensures DateOver(cal, day, t) == 0
  {
    hide WindowsForDate, WindowInterval, WindowsOver;
    assert !OnEveryWalk(cal.zone, day, t);
    WindowsOverPositive(cal.zone, day, WindowsForDate(cal, day), t);
  }

  lemma OverMeansUnderSomeWindow(cal: BusinessCalendar, t: int)
    requires WalkReaches(cal)
    ensures Over(cal, t) > 0 <==> UnderSomeWindow(cal, t)
  {
    hide WindowsForDate, WindowInterval, WindowsOver, WalkReaches;
    var today := cal.zone.LocalDay(t);
    WindowsOverPositive(cal.zone, today, WindowsForDate(cal, today), t);
    WindowsOverPositive(cal.zone, today - 1, WindowsForDate(cal, today - 1), t);
    if day: int, w :| w in WindowsForDate(cal, day) && WindowInterval(cal.zone, day, w).Has(t) {
      WindowsOverPositive(cal.zone, day, WindowsForDate(cal, day), t);
      if day != today && day != today - 1 {
        OnlyTwoDatesOver(cal, t, day);
      }
    }
  }

  // ---------------------------------------------------------------- on the wall clock

  /** No edge of today's and yesterday's windows is misplaced at the instant. */
  ghost predicate PlacedAt(cal: BusinessCalendar, t: int) {
    forall day: int, w :: cal.zone.LocalDay(t) - 1 <= day <= cal.zone.LocalDay(t) && w in WindowsForDate(cal, day) ==>
      EdgesPlaced(cal.zone, day, w, t)
  }

  predicate EdgesPlaced(zone: Zone, day: int, w: Window, t: int) {
    !Misplaced(zone, WallTime(day, w.openMinute), t) && !Misplaced(zone, WallTime(day, w.closeMinute), t)
  }

  lemma {:induction false} WindowsOverAreHits(zone: Zone, day: int, windows: seq<Window>, t: int)
    requires forall w :: w in windows ==> EdgesPlaced(zone, day, w, t)
    ensures WindowsOver(zone, day, windows, t) == Hits(windows, zone.WallMinute(t) - 1440 * day)
  {
    hide WindowInterval, Misplaced;
    if windows != [] {
      assert EdgesPlaced(zone, day, windows[|windows| - 1], t);
      WindowsOverAreHits(zone, day, windows[..|windows| - 1], t);
      WindowMisplacedExactly(zone, day, windows[|windows| - 1], t);
    }
  }

  /** Where no edge is misplaced, the windows over an instant are those the wall clock stands in. */
  lemma OverIsDepth(cal: BusinessCalendar, t: int)
    requires PlacedAt(cal, t)
    ensures Over(cal, t) == Depth(cal, t)
  {
    hide WindowsForDate, WindowsOver, Hits, EdgesPlaced;
    var today := cal.zone.LocalDay(t);
    WallMinuteParts(cal.zone, t);
    WindowsOverAreHits(cal.zone, today, WindowsForDate(cal, today), t);
    WindowsOverAreHits(cal.zone, today - 1, WindowsForDate(cal, today - 1), t);
  }

  /** Off the shift no edge is misplaced, ever. */
  lemma OffShiftIsPlaced(cal: BusinessCalendar, t: int)
    requires EdgesOffShift(cal)
    ensures PlacedAt(cal, t)
  {
    hide WindowsForDate;
    forall day: int, w | w in WindowsForDate(cal, day)
      ensures EdgesPlaced(cal.zone, day, w, t)
    {
    }
  }

  // ---------------------------------------------------------------- what the walk collects

  lemma ClippedCover(i: Interval, from: int, to: int, t: int)
    requires from <= t < to
    ensures Cover(Clipped(i, from, to), t) == if i.Has(t) then 1 else 0
  {
    var c := Interval(Max(i.from, from), Min(i.to, to));
    assert [c][..0] == [];
  }

  function OverSoFar(zone: Zone, day: int, windows: seq<Window>, t: int): nat -> nat {
    (k: nat) => if k <= |windows| then WindowsOver(zone, day, windows[..k], t) else 0
  }

  lemma WindowPieceCover(cal: BusinessCalendar, day: int, from: int, to: int, t: int, k: nat)
    requires from <= t < to && k < |WindowsForDate(cal, day)|
    ensures var windows := WindowsForDate(cal, day);
            var running := OverSoFar(cal.zone, day, windows, t);
            running(k + 1) == running(k) + Cover(WindowPieces(cal.zone, day, windows, from, to)(k), t)
  {
    hide WindowsForDate, WindowInterval, Cover, Clipped;
    var windows := WindowsForDate(cal, day);
    ClippedCover(WindowInterval(cal.zone, day, windows[k]), from, to, t);
    assert windows[..k + 1][..k] == windows[..k];
  }

  /** A date's intervals hold an instant once for every window of that date over it. */
  lemma DateCover(cal: BusinessCalendar, day: int, from: int, to: int, t: int)
    requires from <= t < to
    ensures Cover(DateIntervals(cal, day, from, to), t) == DateOver(cal, day, t)
  {
    hide WindowsForDate, WindowPieces, Cover, Gather;
    var windows := WindowsForDate(cal, day);
    var pieces, running := WindowPieces(cal.zone, day, windows, from, to), OverSoFar(cal.zone, day, windows, t);
    forall k: nat | k < |windows|
      ensures running(k + 1) == running(k) + Cover(pieces(0 + k), t)
    {
      WindowPieceCover(cal, day, from, to, t, k);
    }
    assert windows[..0] == [] && windows[..|windows|] == windows;
    GatherCover(pieces, running, 0, |windows|, t);
  }

  /** A walk holds t once for every window of today and of yesterday, if it visits them. */
  lemma WalkCover(cal: BusinessCalendar, first: int, count: nat, from: int, to: int, t: int)
    requires WalkReaches(cal) && from <= t < to
    ensures var today := cal.zone.LocalDay(t);
            Cover(Gather(DatePieces(cal, from, to), first, count), t)
            == (if first <= today < first + count then DateOver(cal, today, t) else 0)
             + (if first <= today - 1 < first + count then DateOver(cal, today - 1, t) else 0)
  {
    hide DateIntervals, DateOver, WalkReaches;
    var today := cal.zone.LocalDay(t);
    forall day: int
      ensures Cover(DatePieces(cal, from, to)(day), t) == DateOver(cal, day, t)
      ensures day != today && day != today - 1 ==> DateOver(cal, day, t) == 0
    {
      DateCover(cal, day, from, to, t);
      if day != today && day != today - 1 {
        OnlyTwoDatesOver(cal, t, day);
      }
    }
    GatherTwo(DatePieces(cal, from, to), first, count, today, t);
  }

  lemma IntervalsCoverAsWalked(cal: BusinessCalendar, from: int, to: int, t: int)
    requires from < to
    ensures var startDate, endDate := cal.zone.LocalDay(from) - 1, cal.zone.LocalDay(to);
            Cover(IntervalsOf(cal, from, to), t)
            == Cover(Gather(DatePieces(cal, from, to), startDate, DatesWalked(startDate, endDate)), t)
  {
    hide DatePieces, DatesWalked, SortByStart, Cover, Gather;
    SortCover(WalkIntervals(cal, cal.zone.LocalDay(from) - 1, cal.zone.LocalDay(to), from, to), t);
  }

  /** A date that contributes at t is one the walk reaches, up to the guard. */
  lemma DatesOverAreWalked(cal: BusinessCalendar, from: int, to: int, t: int, day: int)
    requires WalkReaches(cal) && from <= t <= to && DateOver(cal, day, t) > 0
    ensures cal.zone.LocalDay(from) - 1 <= day <= cal.zone.LocalDay(to)
  {
    hide WindowsForDate, WindowInterval, WindowsOver;
    WindowsOverPositive(cal.zone, day, WindowsForDate(cal, day), t);
    assert OnEveryWalk(cal.zone, day, t);
  }

  /** Inside the query and up to the guard, an instant is held once for every window over it. */
  lemma CoverIsOver(cal: BusinessCalendar, from: int, to: int, t: int)
    requires WalkReaches(cal) && from <= t < to
    requires cal.zone.LocalDay(t) < cal.zone.LocalDay(from) + MAX_DAYS
    ensures Cover(IntervalsOf(cal, from, to), t) == Over(cal, t)
  {
    hide Cover, Gather, DatePieces, IntervalsOf, DateOver, WalkReaches;
    var today := cal.zone.LocalDay(t);
    var startDate, endDate := cal.zone.LocalDay(from) - 1, cal.zone.LocalDay(to);
    IntervalsCoverAsWalked(cal, from, to, t);
    WalkCover(cal, startDate, DatesWalked(startDate, endDate), from, to, t);
    if DateOver(cal, today, t) > 0 {
      DatesOverAreWalked(cal, from, to, t, today);
    }
    if DateOver(cal, today - 1, t) > 0 {
      DatesOverAreWalked(cal, from, to, t, today - 1);
    }
  }

  /** So it is held once for every window the wall clock stands in, where no edge is misplaced. */
  lemma CoverIsDepth(cal: BusinessCalendar, from: int, to: int, t: int)
    requires WalkReaches(cal) && PlacedAt(cal, t) && from <= t < to
    requires cal.zone.LocalDay(t) < cal.zone.LocalDay(from) + MAX_DAYS
    ensures Cover(IntervalsOf(cal, from, to), t) == Depth(cal, t)
  {
    CoverIsOver(cal, from, to, t);
    OverIsDepth(cal, t);
  }

  /**
   * The two definitions of "open" agree: up to the runaway guard and where no edge is misplaced, an instant lies
   * in one of the intervals exactly when it lies in the query and `IsOpenAt` says the team is open.
   */
  lemma IntervalsAgreeWithIsOpenAt(cal: BusinessCalendar, from: int, to: int, t: int)
    requires cal.WellFormed() && WalkReaches(cal) && PlacedAt(cal, t)
    requires cal.zone.LocalDay(t) < cal.zone.LocalDay(from) + MAX_DAYS
    ensures (exists x :: x in IntervalsOf(cal, from, to) && x.Has(t))
            <==> from <= t < to && InsideSomeWindow(cal, t)
  {
    hide IntervalsOf, Cover, Depth, InsideSomeWindow, WalkReaches, PlacedAt;
    var s := IntervalsOf(cal, from, to);
    IntervalsWithin(cal, from, to);
    CoverPositive(s, t);
    DepthMeansOpen(cal, t);
    if from <= t < to {
      CoverIsDepth(cal, from, to, t);
    }
  }

  /** A date of the walk. */
  predicate Walked(zone: Zone, from: int, to: int, day: int) {
    var startDate := zone.LocalDay(from) - 1;
    startDate <= day < startDate + DatesWalked(startDate, zone.LocalDay(to))
  }

  lemma {:induction false} GatherHas(piece: int -> seq<Interval>, first: int, count: nat, x: Interval)
    ensures x in Gather(piece, first, count) <==> exists d: int :: first <= d < first + count && x in piece(d)
  {
    if count > 0 {
      GatherHas(piece, first, count - 1, x);
    }
  }

  lemma DateHas(cal: BusinessCalendar, day: int, from: int, to: int, x: Interval)
    ensures x in DateIntervals(cal, day, from, to)
            <==> exists w :: w in WindowsForDate(cal, day) && x in Clipped(WindowInterval(cal.zone, day, w), from, to)
  {
    hide WindowsForDate, WindowInterval, Clipped;
    var windows := WindowsForDate(cal, day);
    GatherHas(WindowPieces(cal.zone, day, windows, from, to), 0, |windows|, x);
    if w :| w in windows && x in Clipped(WindowInterval(cal.zone, day, w), from, to) {
      var i :| 0 <= i < |windows| && windows[i] == w;
      assert x in WindowPieces(cal.zone, day, windows, from, to)(i);
    }
  }

  lemma ClippedHas(i: Interval, from: int, to: int, t: int)
    ensures (exists x :: x in Clipped(i, from, to) && x.Has(t)) <==> from <= t < to && i.Has(t)
  {
    var c := Interval(Max(i.from, from), Min(i.to, to));
    if from <= t < to && i.Has(t) {
      assert c in Clipped(i, from, to) && c.Has(t);
    }
  }

  /** A window of a walked date whose interval holds the instant. */
  ghost predicate InWalkedWindow(cal: BusinessCalendar, from: int, to: int, t: int) {
    exists day: int, w :: Walked(cal.zone, from, to, day) && w in WindowsForDate(cal, day)
      && WindowInterval(cal.zone, day, w).Has(t)
  }

  /** Whatever the calendar: the intervals hold an instant of the query exactly if some walked date's window does. */
  lemma IntervalsAreTheWalkedWindows(cal: BusinessCalendar, from: int, to: int, t: int)
    ensures (exists x :: x in IntervalsOf(cal, from, to) && x.Has(t)) <==> from <= t < to && InWalkedWindow(cal, from, to, t)
  {
    hide WindowsForDate, WindowInterval, Clipped, DateIntervals, DatesWalked, Gather;
    if from < to {
      var startDate, endDate := cal.zone.LocalDay(from) - 1, cal.zone.LocalDay(to);
      var count := DatesWalked(startDate, endDate);
      forall x
        ensures x in IntervalsOf(cal, from, to)
                <==> exists day: int :: Walked(cal.zone, from, to, day) && x in DatePieces(cal, from, to)(day)
      {
        Sorting.SortKeepsMembers(StartsBefore(), WalkIntervals(cal, startDate, endDate, from, to), x);
        GatherHas(DatePieces(cal, from, to), startDate, count, x);
      }
      forall day: int, x
        ensures x in DatePieces(cal, from, to)(day)
                <==> exists w :: w in WindowsForDate(cal, day) && x in Clipped(WindowInterval(cal.zone, day, w), from, to)
      {
        DateHas(cal, day, from, to, x);
      }
      forall day: int, w
        ensures (exists x :: x in Clipped(WindowInterval(cal.zone, day, w), from, to) && x.Has(t))
                <==> from <= t < to && WindowInterval(cal.zone, day, w).Has(t)
      {
        ClippedHas(WindowInterval(cal.zone, day, w), from, to, t);
      }
    }
  }

  /** Past the guard nothing is collected, however open the team is. */
  lemma NothingPastTheGuard(cal: BusinessCalendar, from: int, to: int, t: int)
    requires WalkReaches(cal) && from <= t < to && cal.zone.LocalDay(t) > cal.zone.LocalDay(from) + MAX_DAYS
    ensures Cover(IntervalsOf(cal, from, to), t) == 0
  {
    hide Cover, Gather, DatePieces, IntervalsOf, DateOver, WalkReaches;
    var startDate, endDate := cal.zone.LocalDay(from) - 1, cal.zone.LocalDay(to);
    IntervalsCoverAsWalked(cal, from, to, t);
    WalkCover(cal, startDate, DatesWalked(startDate, endDate), from, to, t);
  }

  lemma ShortQueriesStayWithinGuard(zone: Zone, from: int, t: int)
    requires zone.WellFormed() && from <= t <= from + GUARD_MS
    ensures zone.LocalDay(t) < zone.LocalDay(from) + MAX_DAYS
  {
    assert zone.Wall(t) - zone.Wall(from) <= GUARD_MS + 2 * 86_400_000;
  }

  lemma IntervalsSorted(cal: BusinessCalendar, from: int, to: int)
    ensures SortedByStart(IntervalsOf(cal, from, to))
  {
    hide WalkIntervals, SortByStart, Cover;
    if from < to {
      SortKeeps(WalkIntervals(cal, cal.zone.LocalDay(from) - 1, cal.zone.LocalDay(to), from, to), 0);
    }
  }

  /** The intervals come out sorted, and without overlap exactly when no instant has two windows over it. */
  lemma IntervalsComeInOrder(cal: BusinessCalendar, from: int, to: int)
    requires cal.WellFormed() && WalkReaches(cal) && to - from <= GUARD_MS
    ensures SortedByStart(IntervalsOf(cal, from, to))
    ensures InOrder(IntervalsOf(cal, from, to)) <==> forall t :: from <= t < to ==> Over(cal, t) <= 1
  {
    hide IntervalsOf, Cover, Over, WalkReaches;
    var s := IntervalsOf(cal, from, to);
    IntervalsSorted(cal, from, to);
    IntervalsWithin(cal, from, to);
    forall t | from <= t < to
      ensures Cover(s, t) == Over(cal, t)
    {
      ShortQueriesStayWithinGuard(cal.zone, from, t);
      CoverIsOver(cal, from, to, t);
    }
    if forall t :: from <= t < to ==> Over(cal, t) <= 1 {
      SortedAndOnceIsInOrder(s, from, to);
    }
    if InOrder(s) {
      forall t | from <= t < to
        ensures Over(cal, t) <= 1
      {
        InOrderCoversOnce(s, t);
      }
    }
  }

  lemma {:induction false} InOrderCoversOnce(s: seq<Interval>, t: int)
    requires InOrder(s) && (forall x :: x in s ==> x.from < x.to)
    ensures Cover(s, t) <= 1
  {
    if s != [] {
      var n := |s| - 1;
      InOrderCoversOnce(s[..n], t);
      CoverPositive(s[..n], t);
      if s[n].Has(t) {
        forall x | x in s[..n]
          ensures !x.Has(t)
        {
          var i :| 0 <= i < n && s[i] == x;
        }
      }
    }
  }
}
