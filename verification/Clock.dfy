/**
 * Elapsed working time, derived on every read: the walk over local days, the measure across calendar
 * versions, the instant a target is reached and the next opening.
 *
 * Each method below is the source's loop. The functions beside them say what the loops compute; what the
 * clock promises about those values is proved in `ClockLaws`.
 */
module Clock {
  import opened Options
  import opened Calendar
  import Sorting

  /** The runaway guard of the day walk. */
  const MAX_DAYS := 3660

  datatype Interval = Interval(from: int, to: int) {
    predicate Has(t: int) {
      from <= t < to
    }
  }

  function Max(a: int, b: int): int { if a < b then b else a }

  function Min(a: int, b: int): int { if a < b then a else b }

  // ---------------------------------------------------------------- wall clock to instant

  /** A wall-clock time as milliseconds on the local time line. */
  function WallTime(day: int, minuteOfDay: int): int {
    day * 86_400_000 + minuteOfDay * 60_000
  }

  /** Where two rounds of correcting a guess end up. */
  function InstantOf(zone: Zone, wall: int): int {
    wall - zone.Offset(wall - zone.Offset(wall))
  }

  /** Splitting a whole number of minutes into days and minutes of the day loses nothing. */
  lemma DaysAndMinutes(minutes: int)
    ensures var wall := 60_000 * minutes;
            WallTime(wall / 86_400_000, (wall % 86_400_000) / 60_000) == wall
  {
    var day, rest := minutes / 1440, minutes % 1440;
    var wall := 60_000 * minutes;
    assert wall == 86_400_000 * day + 60_000 * rest;
    assert 0 <= 60_000 * rest < 86_400_000;
    assert wall / 86_400_000 == day;
    assert wall % 86_400_000 == 60_000 * rest;
  }

  /** The offset in force, in minutes. */
  function OffsetMinutes(zone: Zone, t: int): int {
    if t < zone.shiftAt then zone.before else zone.after
  }

  /** Reading the clock at a whole minute and treating what it shows as UTC drifts by the offset. */
  lemma DriftIsOffset(zone: Zone, minutes: int)
    ensures WallTime(zone.LocalDay(60_000 * minutes), zone.MinuteOfDay(60_000 * minutes)) - 60_000 * minutes
            == 60_000 * OffsetMinutes(zone, 60_000 * minutes)
  {
    hide WallTime;
    var shown := minutes + OffsetMinutes(zone, 60_000 * minutes);
    DaysAndMinutes(shown);
    assert zone.Wall(60_000 * minutes) == 60_000 * shown;
  }

  /** The instant at which a local wall-clock time occurs: guess, measure the drift, correct, twice. */
  method InstantAtLocal(zone: Zone, day: int, minuteOfDay: int) returns (instant: int)
    ensures instant == InstantOf(zone, WallTime(day, minuteOfDay))
  {
    var asIfUtc := WallTime(day, minuteOfDay);
    instant := asIfUtc;
    ghost var minutes := 1440 * day + minuteOfDay;
    ghost var wanted := minutes;
    var pass := 0;
    while pass < 2
      invariant 0 <= pass <= 2 && instant == 60_000 * minutes && asIfUtc == 60_000 * wanted
      invariant pass == 0 ==> minutes == wanted
      invariant pass == 1 ==> minutes == wanted - OffsetMinutes(zone, asIfUtc)
      invariant pass == 2 ==> instant == InstantOf(zone, asIfUtc)
    {
      DriftIsOffset(zone, minutes);
      var localAsIfUtc := WallTime(zone.LocalDay(instant), zone.MinuteOfDay(instant));
      var drift := localAsIfUtc - instant;
      var corrected := asIfUtc - drift;
      if corrected == instant {
        break;
      }
      minutes := wanted - OffsetMinutes(zone, instant);
      instant := corrected;
      pass := pass + 1;
    }
  }

  // ---------------------------------------------------------------- open intervals

  function WindowInterval(zone: Zone, day: int, w: Window): Interval {
    Interval(InstantOf(zone, WallTime(day, w.openMinute)), InstantOf(zone, WallTime(day, w.closeMinute)))
  }

  /** The part of an interval inside a query window, when there is any. */
  function Clipped(i: Interval, from: int, to: int): seq<Interval> {
    var c := Interval(Max(i.from, from), Min(i.to, to));
    if c.to > c.from then [c] else []
  }

  /** The pieces numbered first, first + 1, ..., first + count - 1, one after another. */
  function Gather(piece: int -> seq<Interval>, first: int, count: nat): seq<Interval> {
    if count == 0 then [] else Gather(piece, first, count - 1) + piece(first + count - 1)
  }

  /** What each window of one local date contributes to a query. */
  function WindowPieces(zone: Zone, day: int, windows: seq<Window>, from: int, to: int): int -> seq<Interval> {
    i => if 0 <= i < |windows| then Clipped(WindowInterval(zone, day, windows[i]), from, to) else []
  }

  function DateIntervals(cal: BusinessCalendar, day: int, from: int, to: int): seq<Interval> {
    var windows := WindowsForDate(cal, day);
    Gather(WindowPieces(cal.zone, day, windows, from, to), 0, |windows|)
  }

  /** What each local date contributes to a query. */
  function DatePieces(cal: BusinessCalendar, from: int, to: int): int -> seq<Interval> {
    day => DateIntervals(cal, day, from, to)
  }

  function StartsBefore(): (Interval, Interval) -> bool {
    (a: Interval, b: Interval) => a.from < b.from
  }

  function SortByStart(s: seq<Interval>): seq<Interval> {
    Sorting.Sort(StartsBefore(), s)
  }

  /** How many dates the walk visits before it reaches the end date or the guard; at least one. */
  function DatesWalked(startDate: int, endDate: int): nat {
    Min(MAX_DAYS + 1, Max(1, endDate - startDate + 1))
  }

  function WalkIntervals(cal: BusinessCalendar, startDate: int, endDate: int, from: int, to: int): seq<Interval> {
    Gather(DatePieces(cal, from, to), startDate, DatesWalked(startDate, endDate))
  }

  function IntervalsOf(cal: BusinessCalendar, from: int, to: int): seq<Interval> {
    if to <= from then []
    else
      var startDate := cal.zone.LocalDay(from) - 1;
      var endDate := cal.zone.LocalDay(to);
      SortByStart(WalkIntervals(cal, startDate, endDate, from, to))
  }

  /** The windows of one local date, clipped to the query: the inner loop of `OpenIntervals`. */
  method DateOpenIntervals(cal: BusinessCalendar, date: int, from: int, to: int) returns (intervals: seq<Interval>)
    ensures intervals == DateIntervals(cal, date, from, to)
  {
    hide WindowsForDate, InstantOf;
    intervals := [];
    var windows := WindowsForDate(cal, date);
    for i := 0 to |windows|
      invariant intervals == Gather(WindowPieces(cal.zone, date, windows, from, to), 0, i)
    {
      var opensAt := InstantAtLocal(cal.zone, date, windows[i].openMinute);
      var closesAt := InstantAtLocal(cal.zone, date, windows[i].closeMinute);
      var overlapFrom := Max(opensAt, from);
      var overlapTo := Min(closesAt, to);
      if overlapTo > overlapFrom {
        intervals := intervals + [Interval(overlapFrom, overlapTo)];
      }
    }
  }

  /** The day walk of `OpenIntervals`: date after date until the end date or the guard. */
  method WalkDates(cal: BusinessCalendar, startDate: int, endDate: int, from: int, to: int)
    returns (intervals: seq<Interval>)
    ensures intervals == WalkIntervals(cal, startDate, endDate, from, to)
  {
    hide DateIntervals;
    intervals := [];
    ghost var walked := DatesWalked(startDate, endDate);
    var date := startDate;
    var day := 0;
    while day <= MAX_DAYS
      invariant 0 <= day <= walked && date == startDate + day
      invariant day < walked || day == MAX_DAYS + 1
      invariant intervals == Gather(DatePieces(cal, from, to), startDate, day)
    {
      var ofDate := DateOpenIntervals(cal, date, from, to);
      intervals := intervals + ofDate;
      day := day + 1;
      if date >= endDate {
        break;
      }
      date := date + 1;
    }
    assert day == walked;
  }

  /** Every open interval of one calendar version that overlaps the query, earliest first. */
  method OpenIntervals(cal: BusinessCalendar, from: int, to: int) returns (intervals: seq<Interval>)
    ensures intervals == IntervalsOf(cal, from, to)
  {
    hide WalkIntervals, SortByStart;
    if to <= from {
      return [];
    }
    // A day early, so that a window that began yesterday and runs past midnight is not missed.
    var startDate := cal.zone.LocalDay(from) - 1;
    var endDate := cal.zone.LocalDay(to);
    var walked := WalkDates(cal, startDate, endDate, from, to);
    intervals := SortByStart(walked);
  }

  // ---------------------------------------------------------------- versions

  /** A version's effective period against a query window. */
  function ClipToVersion(cal: BusinessCalendar, from: int, to: int): Option<Interval> {
    var start := Max(from, cal.effectiveFrom);
    var end := if cal.effectiveTo.Some? then Min(to, cal.effectiveTo.value) else to;
    if end > start then Some(Interval(start, end)) else None
  }

  function VersionIntervals(cal: BusinessCalendar, from: int, to: int): seq<Interval> {
    match ClipToVersion(cal, from, to)
    case None => []
    case Some(c) => IntervalsOf(cal, c.from, c.to)
  }

  /** One version's open intervals inside the query, none when its period misses it. */
  method VersionOpenIntervals(cal: BusinessCalendar, from: int, to: int) returns (intervals: seq<Interval>)
    ensures intervals == VersionIntervals(cal, from, to)
  {
    var clipped := ClipToVersion(cal, from, to);
    if clipped.None? {
      return [];
    }
    intervals := OpenIntervals(cal, clipped.value.from, clipped.value.to);
  }

  /** What each version contributes to a query. */
  function VersionPieces(versions: seq<BusinessCalendar>, from: int, to: int): int -> seq<Interval> {
    v => if 0 <= v < |versions| then VersionIntervals(versions[v], from, to) else []
  }

  /** The intervals of every version, one version after another. */
  function AllIntervals(versions: seq<BusinessCalendar>, from: int, to: int): seq<Interval> {
    Gather(VersionPieces(versions, from, to), 0, |versions|)
  }

  /** The summed length of a list of intervals, in milliseconds. */
  function Total(intervals: seq<Interval>): int {
    if intervals == [] then 0
    else
      var n := |intervals| - 1;
      Total(intervals[..n]) + (intervals[n].to - intervals[n].from)
  }

  lemma {:induction false} TotalAppend(a: seq<Interval>, b: seq<Interval>)
    ensures Total(a + b) == Total(a) + Total(b)
  {
    if b == [] {
      assert a + b == a;
    } else {
      var n := |b| - 1;
      TotalAppend(a, b[..n]);
      assert (a + b)[..|a + b| - 1] == a + b[..n];
    }
  }

  method TotalLength(intervals: seq<Interval>) returns (total: int)
    ensures total == Total(intervals)
  {
    total := 0;
    for i := 0 to |intervals|
      invariant total == Total(intervals[..i])
    {
      assert intervals[..i + 1][..i] == intervals[..i];
      total := total + (intervals[i].to - intervals[i].from);
    }
    assert intervals[..|intervals|] == intervals;
  }

  /** Working milliseconds between two instants, before rounding. */
  function ElapsedMs(versions: seq<BusinessCalendar>, from: int, to: int): int {
    if to <= from then 0 else Total(AllIntervals(versions, from, to))
  }

  /** Milliseconds to the nearest whole second, halves upward. */
  function RoundToSeconds(ms: int): int {
    (ms + 500) / 1000
  }

  function ElapsedSeconds(versions: seq<BusinessCalendar>, from: int, to: int): int {
    RoundToSeconds(ElapsedMs(versions, from, to))
  }

  /** Working seconds between two instants, across every calendar version that applies. */
  method ElapsedWorkingSeconds(versions: seq<BusinessCalendar>, from: int, to: int) returns (seconds: int)
    ensures seconds == ElapsedSeconds(versions, from, to)
  {
    if to <= from {
      return 0;
    }
    var total := 0;
    for v := 0 to |versions|
      invariant total == Total(Gather(VersionPieces(versions, from, to), 0, v))
    {
      TotalAppend(Gather(VersionPieces(versions, from, to), 0, v), VersionIntervals(versions[v], from, to));
      var intervals := VersionOpenIntervals(versions[v], from, to);
      var length := TotalLength(intervals);
      total := total + length;
    }
    return RoundToSeconds(total);
  }

  // ---------------------------------------------------------------- the inverse

  /** Walks a list of intervals until `remaining` milliseconds are used up. */
  function WalkForward(intervals: seq<Interval>, remaining: int): Option<int> {
    if intervals == [] then None
    else
      var span := intervals[0].to - intervals[0].from;
      if span >= remaining then Some(intervals[0].from + remaining)
      else WalkForward(intervals[1..], remaining - span)
  }

  function InstantAfter(versions: seq<BusinessCalendar>, from: int, seconds: int, horizonDays: int): Option<int> {
    if seconds <= 0 then Some(from)
    else WalkForward(SortByStart(AllIntervals(versions, from, from + horizonDays * 86_400_000)), seconds * 1000)
  }

  /** The instant at which `seconds` of working time will have elapsed, if the horizon holds that much. */
  method InstantAfterWorkingSeconds(versions: seq<BusinessCalendar>, from: int, seconds: int, horizonDays: int)
    returns (at: Option<int>)
    ensures at == InstantAfter(versions, from, seconds, horizonDays)
  {
    hide VersionIntervals, SortByStart;
    if seconds <= 0 {
      return Some(from);
    }
    var horizon := from + horizonDays * 86_400_000;
    var intervals := [];
    for v := 0 to |versions|
      invariant intervals == Gather(VersionPieces(versions, from, horizon), 0, v)
    {
      var open := VersionOpenIntervals(versions[v], from, horizon);
      intervals := intervals + open;
    }
    intervals := SortByStart(intervals);

    var remaining := seconds * 1000;
    for i := 0 to |intervals|
      invariant WalkForward(intervals, seconds * 1000) == WalkForward(intervals[i..], remaining)
    {
      var span := intervals[i].to - intervals[i].from;
      if span >= remaining {
        return Some(intervals[i].from + remaining);
      }
      assert intervals[i..][1..] == intervals[i + 1..];
      remaining := remaining - span;
    }
    return None;
  }

  // ---------------------------------------------------------------- next opening

  /** The earlier of a running answer and the start of a version's first interval. */
  function EarlierStart(earliest: Option<int>, intervals: seq<Interval>): Option<int> {
    if intervals == [] then earliest
    else if earliest.None? || intervals[0].from < earliest.value then Some(intervals[0].from)
    else earliest
  }

  /** The earliest start over the first intervals of the first `n` versions. */
  function EarliestStart(versions: seq<BusinessCalendar>, n: nat, from: int, to: int): Option<int>
    requires n <= |versions|
  {
    if n == 0 then None
    else EarlierStart(EarliestStart(versions, n - 1, from, to), VersionIntervals(versions[n - 1], from, to))
  }

  /** When the team next opens at or after an instant, if it does within the horizon. */
  method NextOpening(versions: seq<BusinessCalendar>, at: int, horizonDays: int) returns (opening: Option<int>)
    ensures opening == EarliestStart(versions, |versions|, at, at + horizonDays * 86_400_000)
  {
    hide VersionIntervals;
    var horizon := at + horizonDays * 86_400_000;
    opening := None;
    for v := 0 to |versions|
      invariant opening == EarliestStart(versions, v, at, horizon)
    {
      var intervals := VersionOpenIntervals(versions[v], at, horizon);
      opening := EarlierStart(opening, intervals);
    }
  }

  /** The version covering an instant: the first one whose half-open period holds it. */
  function VersionAt(versions: seq<BusinessCalendar>, at: int): Option<BusinessCalendar> {
    if versions == [] then None
    else if versions[0].Covers(at) then Some(versions[0])
    else VersionAt(versions[1..], at)
  }
}
