/**
 * The business calendar: weekly windows, holidays, exceptions, and the question "is the team open now?".
 *
 * Instants are integer milliseconds since 1970-01-01T00:00Z and local dates are day numbers since the
 * same date. A zone is a whole-minute offset with at most one transition; a zone without daylight saving
 * has `before == after`.
 */
module Calendar {
  import opened Options

  datatype Zone = Zone(shiftAt: int, before: int, after: int) {
    /** The offset in force at an instant, in milliseconds. */
    function Offset(t: int): int {
      60_000 * (if t < shiftAt then before else after)
    }

    /** The wall clock at an instant, as milliseconds on the local time line. */
    function Wall(t: int): int {
      t + Offset(t)
    }

    function WallMinute(t: int): int {
      Wall(t) / 60_000
    }

    function LocalDay(t: int): int {
      Wall(t) / 86_400_000
    }

    function MinuteOfDay(t: int): int {
      (Wall(t) % 86_400_000) / 60_000
    }

    /** Every real zone is less than a day away from UTC. */
    predicate WellFormed() {
      -1440 < before < 1440 && -1440 < after < 1440
    }
  }

  datatype Window = Window(openMinute: int, closeMinute: int) {
    predicate Contains(minute: int) {
      openMinute <= minute < closeMinute
    }

    /** What the calendar reader accepts: a non-empty window that ends within two days. */
    predicate WellFormed() {
      0 <= openMinute < closeMinute <= 2 * 1440
    }
  }

  datatype WorkingWindow = WorkingWindow(weekday: int, window: Window)

  datatype CalendarException = CalendarException(date: int, windows: Option<seq<Window>>)

  datatype BusinessCalendar = BusinessCalendar(
    zone: Zone,
    effectiveFrom: int,
    effectiveTo: Option<int>,
    workingWindows: seq<WorkingWindow>,
    holidays: seq<int>,
    exceptions: seq<CalendarException>)
  {
    /** What the calendar reader guarantees of every row it hands out. */
    predicate WellFormed() {
      && zone.WellFormed()
      && (forall w :: w in workingWindows ==> w.window.WellFormed())
      && (forall e :: e in exceptions && e.windows.Some? ==>
            forall w :: w in e.windows.value ==> w.WellFormed())
    }

    /** Is the version in force at an instant? Half-open. */
    predicate Covers(t: int) {
      effectiveFrom <= t && (effectiveTo.Some? ==> t < effectiveTo.value)
    }
  }

  /** 0 is Sunday; day 0 was a Thursday. */
  function WeekdayOf(day: int): int {
    (day + 4) % 7
  }

  /** Day 0 was a Thursday, and every day is the weekday after the one before. */
  lemma WeekdaysFollow(day: int)
    ensures WeekdayOf(0) == 4 && 0 <= WeekdayOf(day) < 7
    ensures WeekdayOf(day + 1) == if WeekdayOf(day) == 6 then 0 else WeekdayOf(day) + 1
  {
  }

  /** The first exception recorded for a date. */
  function FindException(exceptions: seq<CalendarException>, day: int): Option<CalendarException> {
    if exceptions == [] then None
    else if exceptions[0].date == day then Some(exceptions[0])
    else FindException(exceptions[1..], day)
  }

  /** The weekly pattern for one weekday, in the order it was recorded. */
  function PatternFor(windows: seq<WorkingWindow>, weekday: int): seq<Window> {
    if windows == [] then []
    else if windows[0].weekday == weekday then [windows[0].window] + PatternFor(windows[1..], weekday)
    else PatternFor(windows[1..], weekday)
  }

  lemma {:induction false} FindExceptionFinds(exceptions: seq<CalendarException>, day: int)
    ensures var r := FindException(exceptions, day);
            if r.Some? then r.value in exceptions && r.value.date == day
            else forall e :: e in exceptions ==> e.date != day
  {
    if exceptions != [] && exceptions[0].date != day {
      FindExceptionFinds(exceptions[1..], day);
      assert exceptions == [exceptions[0]] + exceptions[1..];
    }
  }

  lemma {:induction false} PatternForSelects(windows: seq<WorkingWindow>, weekday: int)
    ensures forall w :: w in PatternFor(windows, weekday) <==> WorkingWindow(weekday, w) in windows
    ensures forall w :: multiset(PatternFor(windows, weekday))[w] == multiset(windows)[WorkingWindow(weekday, w)]
  {
    if windows != [] {
      PatternForSelects(windows[1..], weekday);
      assert windows == [windows[0]] + windows[1..];
    }
  }

  /** An exception replaces the day, a holiday closes it, and otherwise the weekly pattern applies. */
  function WindowsForDate(cal: BusinessCalendar, day: int): seq<Window> {
    var exception := FindException(cal.exceptions, day);
    if exception.Some? then
      if exception.value.windows.Some? then exception.value.windows.value else []
    else if day in cal.holidays then []
    else PatternFor(cal.workingWindows, WeekdayOf(day))
  }

  // ---------------------------------------------------------------- what a calendar declares

  predicate HasException(cal: BusinessCalendar, day: int) {
    exists e :: e in cal.exceptions && e.date == day
  }

  /** The exception that counts for its date: no earlier one is recorded for it. */
  predicate IsFirstFor(cal: BusinessCalendar, i: nat) {
    i < |cal.exceptions| && forall j :: 0 <= j < i ==> cal.exceptions[j].date != cal.exceptions[i].date
  }

  /**
   * A window is declared for a date, so many times: by the exception that counts for it, if there is one;
   * otherwise, unless the date is a holiday, by its weekday's pattern.
   */
  ghost predicate Declares(cal: BusinessCalendar, day: int, w: Window, times: nat) {
    if HasException(cal, day) then
      exists i: nat :: IsFirstFor(cal, i) && cal.exceptions[i].date == day
                       && times == TimesIn(cal.exceptions[i].windows, w)
    else times == if day in cal.holidays then 0 else multiset(cal.workingWindows)[WorkingWindow(WeekdayOf(day), w)]
  }

  function TimesIn(windows: Option<seq<Window>>, w: Window): nat {
    if windows.Some? then multiset(windows.value)[w] else 0
  }

  lemma {:induction false} FirstIsFound(exceptions: seq<CalendarException>, i: nat)
    requires i < |exceptions| && forall j :: 0 <= j < i ==> exceptions[j].date != exceptions[i].date
    ensures FindException(exceptions, exceptions[i].date) == Some(exceptions[i])
  {
    if i > 0 {
      FirstIsFound(exceptions[1..], i - 1);
    }
  }

  lemma {:induction false} FirstExists(exceptions: seq<CalendarException>, i: nat) returns (first: nat)
    requires i < |exceptions|
    ensures first <= i && exceptions[first].date == exceptions[i].date
    ensures forall j :: 0 <= j < first ==> exceptions[j].date != exceptions[first].date
  {
    if j :| 0 <= j < i && exceptions[j].date == exceptions[i].date {
      first := FirstExists(exceptions, j);
    } else {
      first := i;
    }
  }

  /** The windows of a date are those declared for it, each as often as it is declared. */
  lemma WindowsAreDeclared(cal: BusinessCalendar, day: int, w: Window, times: nat)
    ensures Declares(cal, day, w, times) <==> times == multiset(WindowsForDate(cal, day))[w]
  {
    hide FindException, PatternFor;
    FindExceptionFinds(cal.exceptions, day);
    PatternForSelects(cal.workingWindows, WeekdayOf(day));
    if HasException(cal, day) {
      var e :| e in cal.exceptions && e.date == day;
      var k :| 0 <= k < |cal.exceptions| && cal.exceptions[k] == e;
      var first := FirstExists(cal.exceptions, k);
      assert IsFirstFor(cal, first);
      forall i: nat | IsFirstFor(cal, i) && cal.exceptions[i].date == day
        ensures multiset(WindowsForDate(cal, day))[w] == TimesIn(cal.exceptions[i].windows, w)
      {
        FirstIsFound(cal.exceptions, i);
      }
    }
  }

  /** The team is open by declaration: the wall clock stands inside a window declared for some date. */
  ghost predicate DeclaredOpen(cal: BusinessCalendar, t: int) {
    exists day: int, w, times: nat ::
      Declares(cal, day, w, times) && times > 0 && w.Contains(cal.zone.WallMinute(t) - 1440 * day)
  }

  lemma InsideMeansDeclared(cal: BusinessCalendar, t: int)
    ensures InsideSomeWindow(cal, t) <==> DeclaredOpen(cal, t)
  {
    hide WindowsForDate, Declares, Hits;
    var minute := cal.zone.WallMinute(t);
    if day: int :| Hits(WindowsForDate(cal, day), minute - 1440 * day) > 0 {
      HitsPositive(WindowsForDate(cal, day), minute - 1440 * day);
      var i :| 0 <= i < |WindowsForDate(cal, day)| && WindowsForDate(cal, day)[i].Contains(minute - 1440 * day);
      var w := WindowsForDate(cal, day)[i];
      assert w in multiset(WindowsForDate(cal, day));
      WindowsAreDeclared(cal, day, w, multiset(WindowsForDate(cal, day))[w]);
    }
    if day: int, w, times: nat :| Declares(cal, day, w, times) && times > 0 && w.Contains(minute - 1440 * day) {
      WindowsAreDeclared(cal, day, w, times);
      assert w in WindowsForDate(cal, day);
      var i :| 0 <= i < |WindowsForDate(cal, day)| && WindowsForDate(cal, day)[i] == w;
      HitsPositive(WindowsForDate(cal, day), minute - 1440 * day);
    }
  }

  lemma WindowsAreWellFormed(cal: BusinessCalendar, day: int)
    requires cal.WellFormed()
    ensures forall w :: w in WindowsForDate(cal, day) ==> w.WellFormed()
  {
    FindExceptionFinds(cal.exceptions, day);
    PatternForSelects(cal.workingWindows, WeekdayOf(day));
    forall w | w in WindowsForDate(cal, day)
      ensures w.WellFormed()
    {
      if FindException(cal.exceptions, day).None? {
        assert WorkingWindow(WeekdayOf(day), w) in cal.workingWindows;
      }
    }
  }

  /** How many of these windows contain a minute counted from their own midnight. */
  function Hits(windows: seq<Window>, minute: int): nat {
    if windows == [] then 0
    else
      var last := |windows| - 1;
      Hits(windows[..last], minute) + (if windows[last].Contains(minute) then 1 else 0)
  }

  lemma {:induction false} HitsPositive(windows: seq<Window>, minute: int)
    ensures Hits(windows, minute) > 0 <==> exists i :: 0 <= i < |windows| && windows[i].Contains(minute)
  {
    if windows != [] {
      var last := |windows| - 1;
      HitsPositive(windows[..last], minute);
      assert forall i :: 0 <= i < last ==> windows[..last][i] == windows[i];
    }
  }

  /**
   * The meaning of a calendar: at this instant the wall clock stands inside some window of SOME local
   * date, whichever date the window was recorded for.
   */
  ghost predicate InsideSomeWindow(cal: BusinessCalendar, t: int) {
    exists day: int :: Hits(WindowsForDate(cal, day), cal.zone.WallMinute(t) - 1440 * day) > 0
  }

  /** How many windows are open at an instant: those of today's local date and yesterday's late ones. */
  function Depth(cal: BusinessCalendar, t: int): nat {
    var day := cal.zone.LocalDay(t);
    var minute := cal.zone.MinuteOfDay(t);
    Hits(WindowsForDate(cal, day), minute) + Hits(WindowsForDate(cal, day - 1), minute + 1440)
  }

  lemma WallMinuteParts(zone: Zone, t: int)
    ensures zone.WallMinute(t) == 1440 * zone.LocalDay(t) + zone.MinuteOfDay(t)
    ensures 0 <= zone.MinuteOfDay(t) < 1440
  {
    var w := zone.Wall(t);
    var rest := w % 86_400_000;
    assert w == 86_400_000 * (w / 86_400_000) + rest;
    assert rest == 60_000 * (rest / 60_000) + rest % 60_000;
    assert w == 60_000 * (1440 * (w / 86_400_000) + rest / 60_000) + rest % 60_000;
  }

  /** No date but today's and yesterday's can reach an instant. */
  lemma OtherDatesMiss(cal: BusinessCalendar, t: int, day: int)
    requires cal.WellFormed()
    requires day != cal.zone.LocalDay(t) && day != cal.zone.LocalDay(t) - 1
    ensures Hits(WindowsForDate(cal, day), cal.zone.WallMinute(t) - 1440 * day) == 0
  {
    WallMinuteParts(cal.zone, t);
    WindowsAreWellFormed(cal, day);
    var windows := WindowsForDate(cal, day);
    var minute := cal.zone.WallMinute(t) - 1440 * day;
    HitsPositive(windows, minute);
    forall i | 0 <= i < |windows|
      ensures !windows[i].Contains(minute)
    {
      assert windows[i] in windows;
    }
  }

  /** Checking two dates is enough: the count is positive exactly when some date's window is open. */
  lemma DepthMeansOpen(cal: BusinessCalendar, t: int)
    requires cal.WellFormed()
    ensures Depth(cal, t) > 0 <==> InsideSomeWindow(cal, t)
  {
    WallMinuteParts(cal.zone, t);
    var today := cal.zone.LocalDay(t);
    var minute := cal.zone.WallMinute(t);
    if Hits(WindowsForDate(cal, today), minute - 1440 * today) > 0 {
    } else if Hits(WindowsForDate(cal, today - 1), minute - 1440 * (today - 1)) > 0 {
    } else {
      forall day: int
        ensures Hits(WindowsForDate(cal, day), minute - 1440 * day) == 0
      {
        if day != today && day != today - 1 {
          OtherDatesMiss(cal, t, day);
        }
      }
    }
  }

  // ---------------------------------------------------------------- recording an exception

  function WithException(cal: BusinessCalendar, e: CalendarException): BusinessCalendar {
    cal.(exceptions := cal.exceptions + [e])
  }

  function WithHoliday(cal: BusinessCalendar, day: int): BusinessCalendar {
    cal.(holidays := cal.holidays + [day])
  }

  lemma {:induction false} FindAppended(exceptions: seq<CalendarException>, e: CalendarException, day: int)
    ensures FindException(exceptions + [e], day)
         == if FindException(exceptions, day).None? && e.date == day then Some(e) else FindException(exceptions, day)
  {
    if exceptions != [] {
      FindAppended(exceptions[1..], e, day);
      assert (exceptions + [e])[1..] == exceptions[1..] + [e];
    }
  }

  /** A first exception for a date gives it exactly its windows; a closed one closes it, as a holiday does. */
  lemma ExceptionReplacesTheDate(cal: BusinessCalendar, e: CalendarException, day: int)
    requires !HasException(cal, e.date)
    ensures WindowsForDate(WithException(cal, e), day)
         == if day == e.date && e.windows.Some? then e.windows.value else WindowsForDate(WithHoliday(cal, e.date), day)
  {
    FindExceptionFinds(cal.exceptions, day);
    FindAppended(cal.exceptions, e, day);
  }

  /** Recording a closed exception has the effect of recording a holiday, at every instant. */
  lemma ClosedExceptionIsAHoliday(cal: BusinessCalendar, day: int, t: int)
    requires !HasException(cal, day)
    ensures Depth(WithException(cal, CalendarException(day, None)), t) == Depth(WithHoliday(cal, day), t)
  {
    hide WindowsForDate;
    forall d ensures WindowsForDate(WithException(cal, CalendarException(day, None)), d)
      == WindowsForDate(WithHoliday(cal, day), d) {
      ExceptionReplacesTheDate(cal, CalendarException(day, None), d);
    }
  }

  /** An exception with windows opens its date inside exactly those, whatever the pattern and the holidays say of it. */
  lemma ExceptionDecidesTheDate(cal: BusinessCalendar, day: int, windows: seq<Window>, t: int)
    requires !HasException(cal, day)
    ensures InsideSomeWindow(WithException(cal, CalendarException(day, Some(windows))), t)
            <==> (exists w :: w in windows && w.Contains(cal.zone.WallMinute(t) - 1440 * day))
                 || InsideSomeWindow(WithHoliday(cal, day), t)
  {
    hide WindowsForDate, Hits;
    var with, minute := WithException(cal, CalendarException(day, Some(windows))), cal.zone.WallMinute(t);
    forall d ensures WindowsForDate(with, d) == if d == day then windows else WindowsForDate(WithHoliday(cal, day), d) {
      ExceptionReplacesTheDate(cal, CalendarException(day, Some(windows)), d);
    }
    HolidayIsClosed(cal, day);
    HitsPositive(windows, minute - 1440 * day);
    HitsPositive([], minute - 1440 * day);
    if w :| w in windows && w.Contains(minute - 1440 * day) {
      var i :| 0 <= i < |windows| && windows[i] == w;
      assert Hits(WindowsForDate(with, day), minute - 1440 * day) > 0;
    }
    if d: int :| Hits(WindowsForDate(WithHoliday(cal, day), d), minute - 1440 * d) > 0 {
      assert Hits(WindowsForDate(with, d), minute - 1440 * d) > 0;
    }
    if d: int :| Hits(WindowsForDate(with, d), minute - 1440 * d) > 0 {
      if d == day {
        var i :| 0 <= i < |windows| && windows[i].Contains(minute - 1440 * day);
        assert windows[i] in windows;
      } else {
        assert Hits(WindowsForDate(WithHoliday(cal, day), d), minute - 1440 * d) > 0;
      }
    }
  }

  /** A holiday closes a date without an exception. */
  lemma HolidayIsClosed(cal: BusinessCalendar, day: int)
    requires !HasException(cal, day)
    ensures WindowsForDate(WithHoliday(cal, day), day) == []
  {
    FindExceptionFinds(cal.exceptions, day);
  }

  /**
   * Is the team open at this instant?
   *
   * Scans today's windows, then yesterday's that run past midnight.
   */
  method IsOpenAt(cal: BusinessCalendar, t: int) returns (open: bool)
    ensures open <==> Depth(cal, t) > 0
    ensures cal.WellFormed() ==> (open <==> InsideSomeWindow(cal, t)) && (open <==> DeclaredOpen(cal, t))
  {
    hide Declares;
    if cal.WellFormed() {
      DepthMeansOpen(cal, t);
      InsideMeansDeclared(cal, t);
    }
    WallMinuteParts(cal.zone, t);
    var minute := cal.zone.MinuteOfDay(t);
    var today := WindowsForDate(cal, cal.zone.LocalDay(t));
    HitsPositive(today, minute);
    for i := 0 to |today|
      invariant forall k :: 0 <= k < i ==> !today[k].Contains(minute)
    {
      if minute >= today[i].openMinute && minute < today[i].closeMinute {
        return true;
      }
    }
    var yesterday := WindowsForDate(cal, cal.zone.LocalDay(t) - 1);
    HitsPositive(yesterday, minute + 1440);
    for i := 0 to |yesterday|
      invariant forall k :: 0 <= k < i ==> !yesterday[k].Contains(minute + 1440)
    {
      if yesterday[i].closeMinute <= 1440 {
        continue;
      }
      var spilled := minute + 1440;
      if spilled >= yesterday[i].openMinute && spilled < yesterday[i].closeMinute {
        return true;
      }
    }
    return false;
  }
}
