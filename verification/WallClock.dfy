/**
 * What the two-pass wall-clock conversion really does around an offset transition, and which window edges
 * it places where the wall clock would.
 */
module WallClock {
  import opened Calendar
  import opened Clock

  /** Wall times the clock jumps over. */
  predicate InGap(zone: Zone, wall: int) {
    zone.shiftAt + 60_000 * zone.before <= wall < zone.shiftAt + 60_000 * zone.after
  }

  /** Wall times the clock shows twice. */
  predicate Repeated(zone: Zone, wall: int) {
    zone.shiftAt + 60_000 * zone.after <= wall < zone.shiftAt + 60_000 * zone.before
  }

  /** A gap is exactly the wall times no instant has, and the conversion maps back everywhere else. */
  lemma ConversionMapsBack(zone: Zone, wall: int)
    ensures zone.Wall(InstantOf(zone, wall)) == wall <==> !InGap(zone, wall)
    ensures InGap(zone, wall) <==> forall t :: zone.Wall(t) != wall
  {
    if InGap(zone, wall) {
    } else {
      assert zone.Wall(InstantOf(zone, wall)) == wall;
    }
  }

  /**
   * The comment's autumn convention, "the first occurrence", holds exactly for the repeated wall times
   * that read earlier than the transition does on a UTC clock; every other one gets its second occurrence.
   */
  lemma RepeatedTimeConvention(zone: Zone, wall: int)
    requires Repeated(zone, wall)
    ensures InstantOf(zone, wall) == wall - 60_000 * zone.before <==> wall < zone.shiftAt
    ensures InstantOf(zone, wall) == wall - 60_000 * zone.after <==> wall >= zone.shiftAt
  {
  }

  /** The comment's spring convention, "the instant the clock jumps to", holds for one gap time at most. */
  lemma GapTimeConvention(zone: Zone, wall: int)
    requires InGap(zone, wall)
    ensures InstantOf(zone, wall) == zone.shiftAt
            <==> wall == zone.shiftAt + 60_000 * zone.before && wall >= zone.shiftAt
  {
  }

  /** Central Europe's autumn: 02:30 resolves to its second occurrence. Eastern America's spring: 02:30
      resolves to an instant before the jump. */
  lemma ConventionCounterexamples()
    ensures var berlin := Zone(0, 120, 60);
            Repeated(berlin, 90 * 60_000) && InstantOf(berlin, 90 * 60_000) == 30 * 60_000
    ensures var newYork := Zone(0, -300, -240);
            InGap(newYork, -270 * 60_000) && InstantOf(newYork, -270 * 60_000) < newYork.shiftAt
  {
  }

  /** Outside the skipped or repeated stretch. */
  predicate OffShift(zone: Zone, wall: int) {
    || wall < zone.shiftAt + 60_000 * Min(zone.before, zone.after)
    || wall >= zone.shiftAt + 60_000 * Max(zone.before, zone.after)
  }

  /** Off the shift, an instant has reached an edge exactly when its wall clock has. */
  lemma EdgeReached(zone: Zone, wall: int, t: int)
    requires OffShift(zone, wall)
    ensures t >= InstantOf(zone, wall) <==> zone.Wall(t) >= wall
  {
  }

  /**
   * The instants an edge is misplaced at: for a skipped wall time those between where it is put and the jump;
   * for a repeated one those between the transition and the occurrence it was not given.
   */
  predicate Misplaced(zone: Zone, wall: int, t: int) {
    var put := InstantOf(zone, wall);
    if InGap(zone, wall) then Min(put, zone.shiftAt) <= t < Max(put, zone.shiftAt)
    else if !Repeated(zone, wall) then false
    else if put == wall - 60_000 * zone.before then zone.shiftAt <= t < wall - 60_000 * zone.after
    else wall - 60_000 * zone.before <= t < zone.shiftAt
  }

  /** Wherever an edge lies, it is reached when its wall clock says so except at exactly those instants. */
  lemma EdgeMisplacedExactly(zone: Zone, wall: int, t: int)
    ensures Misplaced(zone, wall, t) <==> ((t >= InstantOf(zone, wall)) != (zone.Wall(t) >= wall))
  {
    if InGap(zone, wall) {
      assert zone.Wall(t) >= wall <==> t >= zone.shiftAt;
    } else if Repeated(zone, wall) {
      var first, second := wall - 60_000 * zone.before, wall - 60_000 * zone.after;
      assert first < zone.shiftAt <= second;
      assert zone.Wall(t) >= wall <==> first <= t < zone.shiftAt || t >= second;
      RepeatedTimeConvention(zone, wall);
    } else {
      EdgeReached(zone, wall, t);
    }
  }

  /** No window of the calendar opens or closes inside the skipped or repeated stretch. */
  ghost predicate EdgesOffShift(cal: BusinessCalendar) {
    forall day: int, w: Window :: w in WindowsForDate(cal, day) ==>
      && OffShift(cal.zone, WallTime(day, w.openMinute))
      && OffShift(cal.zone, WallTime(day, w.closeMinute))
  }

  /** A window whose edges are off the shift is open as an interval exactly when the wall clock is inside it. */
  lemma WindowMeansInterval(zone: Zone, day: int, w: Window, t: int)
    requires OffShift(zone, WallTime(day, w.openMinute)) && OffShift(zone, WallTime(day, w.closeMinute))
    ensures WindowInterval(zone, day, w).Has(t) <==> w.Contains(zone.WallMinute(t) - 1440 * day)
  {
    EdgeReached(zone, WallTime(day, w.openMinute), t);
    EdgeReached(zone, WallTime(day, w.closeMinute), t);
    MinuteReached(zone, day, w.openMinute, t);
    MinuteReached(zone, day, w.closeMinute, t);
  }

  /** With any edges: the interval differs from the window exactly by the instants its edges are misplaced at. */
  lemma WindowMisplacedExactly(zone: Zone, day: int, w: Window, t: int)
    ensures var minute := zone.WallMinute(t) - 1440 * day;
            WindowInterval(zone, day, w).Has(t) <==>
              (minute >= w.openMinute) != Misplaced(zone, WallTime(day, w.openMinute), t)
              && (minute < w.closeMinute) != Misplaced(zone, WallTime(day, w.closeMinute), t)
  {
    hide Misplaced, InstantOf;
    EdgeMisplacedExactly(zone, WallTime(day, w.openMinute), t);
    EdgeMisplacedExactly(zone, WallTime(day, w.closeMinute), t);
    MinuteReached(zone, day, w.openMinute, t);
    MinuteReached(zone, day, w.closeMinute, t);
  }

  lemma MinuteReached(zone: Zone, day: int, minute: int, t: int)
    ensures zone.Wall(t) >= WallTime(day, minute) <==> zone.WallMinute(t) - 1440 * day >= minute
  {
    var m := zone.WallMinute(t);
    assert 60_000 * m <= zone.Wall(t) < 60_000 * (m + 1);
    assert WallTime(day, minute) == 60_000 * (1440 * day + minute);
  }

  // ---------------------------------------------------------------- dates the walk reaches

  /** Every walk over a query with the instant in it visits the date. */
  ghost predicate OnEveryWalk(zone: Zone, day: int, t: int) {
    && (forall from: int :: from <= t ==> zone.LocalDay(from) - 1 <= day)
    && (forall to: int :: t <= to ==> day <= zone.LocalDay(to))
  }

  /** No window of the calendar is open at an instant without the walk visiting its date. */
  ghost predicate WalkReaches(cal: BusinessCalendar) {
    forall day: int, w, t: int ::
      w in WindowsForDate(cal, day) && WindowInterval(cal.zone, day, w).Has(t) ==> OnEveryWalk(cal.zone, day, t)
  }

  /**
   * The walk misses no date that matters: a window open at t belongs to a date no earlier than the day
   * before the query starts and no later than the day it ends.
   */
  lemma OpenDatesAreWalked(cal: BusinessCalendar, day: int, w: Window, t: int)
    requires w.WellFormed() && WindowInterval(cal.zone, day, w).Has(t)
    requires OffShift(cal.zone, WallTime(day, w.openMinute)) && OffShift(cal.zone, WallTime(day, w.closeMinute))
    ensures OnEveryWalk(cal.zone, day, t)
  {
    var open, close := WallTime(day, w.openMinute), WallTime(day, w.closeMinute);
    forall from: int | from <= t
      ensures cal.zone.LocalDay(from) - 1 <= day
    {
      EdgeReached(cal.zone, close, from);
      assert cal.zone.Wall(from) < close <= (day + 2) * 86_400_000;
    }
    forall to: int | t <= to
      ensures day <= cal.zone.LocalDay(to)
    {
      EdgeReached(cal.zone, open, to);
      assert cal.zone.Wall(to) >= open >= day * 86_400_000;
    }
  }

  /** So it is for a calendar whose edges all lie off the shift. */
  lemma OffShiftIsReached(cal: BusinessCalendar)
    requires cal.WellFormed() && EdgesOffShift(cal)
    ensures WalkReaches(cal)
  {
    hide WindowsForDate, WindowInterval, OffShift, OnEveryWalk;
    forall day: int, w, t: int | w in WindowsForDate(cal, day) && WindowInterval(cal.zone, day, w).Has(t)
      ensures OnEveryWalk(cal.zone, day, t)
    {
      WindowsAreWellFormed(cal, day);
      OpenDatesAreWalked(cal, day, w, t);
    }
  }

  /** The skipped or repeated stretch keeps its own length away from every midnight. */
  ghost predicate MidnightsClear(zone: Zone) {
    forall day: int :: Clear(zone, WallTime(day, 0))
  }

  predicate Clear(zone: Zone, wall: int) {
    var length := 60_000 * (Max(zone.before, zone.after) - Min(zone.before, zone.after));
    || wall <= zone.shiftAt + 60_000 * Min(zone.before, zone.after) - length
    || wall >= zone.shiftAt + 60_000 * Max(zone.before, zone.after) + length
  }

  /** Past a clear wall time the conversion never goes back behind it, and before it never ahead of it. */
  lemma ClearKeepsSides(zone: Zone, clear: int, wall: int)
    requires Clear(zone, clear)
    ensures clear <= wall ==> InstantOf(zone, clear) <= InstantOf(zone, wall)
    ensures wall <= clear ==> InstantOf(zone, wall) <= InstantOf(zone, clear)
    ensures forall t: int :: t >= InstantOf(zone, clear) <==> zone.Wall(t) >= clear
  {
    forall t: int ensures t >= InstantOf(zone, clear) <==> zone.Wall(t) >= clear {
      EdgeReached(zone, clear, t);
    }
  }

  /** And so it is for any edges at all, skipped and repeated ones included, where midnights are clear. */
  lemma ClearMidnightsAreReached(cal: BusinessCalendar)
    requires cal.WellFormed() && MidnightsClear(cal.zone)
    ensures WalkReaches(cal)
  {
    hide WindowsForDate, InstantOf, Clear;
    forall day: int, w, t: int | w in WindowsForDate(cal, day) && WindowInterval(cal.zone, day, w).Has(t)
      ensures OnEveryWalk(cal.zone, day, t)
    {
      WindowsAreWellFormed(cal, day);
      assert Clear(cal.zone, WallTime(day, 0)) && Clear(cal.zone, WallTime(day + 2, 0));
      ClearKeepsSides(cal.zone, WallTime(day, 0), WallTime(day, w.openMinute));
      ClearKeepsSides(cal.zone, WallTime(day + 2, 0), WallTime(day, w.closeMinute));
      forall from: int | from <= t
        ensures cal.zone.LocalDay(from) - 1 <= day
      {
        assert from < InstantOf(cal.zone, WallTime(day + 2, 0));
        assert cal.zone.Wall(from) < WallTime(day + 2, 0);
      }
      forall to: int | t <= to
        ensures day <= cal.zone.LocalDay(to)
      {
        assert cal.zone.Wall(to) >= WallTime(day, 0);
      }
    }
  }

  /**
   * The conversion keeps two wall times in order but for two cases, both less than the gap apart: a skipped
   * time that reads earlier than the jump does on a UTC clock is put ahead of times from just before the gap,
   * and one that reads later behind times from just after it.
   */
  lemma OutOfOrderExactly(zone: Zone, a: int, b: int)
    requires a <= b
    ensures InstantOf(zone, a) > InstantOf(zone, b)
            <==> b - a < 60_000 * (zone.after - zone.before)
                 && ((InGap(zone, b) && b < zone.shiftAt && a < zone.shiftAt + 60_000 * zone.before)
                     || (InGap(zone, a) && a >= zone.shiftAt && b >= zone.shiftAt + 60_000 * zone.after))
  {
  }
}
