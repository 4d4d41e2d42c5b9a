/**
 The exploration-hours calculator: usable sightseeing hours between landing
 and taking off again, clipped to a daily window and shortened by an airport
 buffer on both ends.
 */
module Exploration {
  import opened Wrappers
  import opened Clock

  /** The configured day window (whole hours) and airport buffer (hours). */
  datatype DayWindow = DayWindow(startsAt: int, endsAt: int, buffer: real)

  /** `time(h, 0)` raises `ValueError` for any hour outside 0..23, and that call sits outside `calculate_exploration_hours`' `try`. */
  predicate ValidWindow(w: DayWindow) {
    0 <= w.startsAt <= 23 && 0 <= w.endsAt <= 23
  }

  /** Hours of one full day inside the window. */
  function Span(w: DayWindow): int {
    w.endsAt - w.startsAt
  }

  function Max(a: real, b: real): real { if a >= b then a else b }
  function Min(a: real, b: real): real { if a <= b then a else b }

  /**
   Usable hours for a trip landing at fractional hour `arrival` on the first
   day and leaving at `departure` on the last, `nights` nights later.
   A day trip gets the single clipped interval; a longer trip gets the rest
   of the arrival day, the start of the departure day and every full day
   in between.
   */
  function HoursBetween(arrival: real, departure: real, nights: int, w: DayWindow): (h: real)
    ensures Span(w) >= 0 ==> h >= 0.0
  {
    var starts := Max(w.startsAt as real, arrival + w.buffer);
    var ends := Min(w.endsAt as real, departure - w.buffer);
    if nights == 0 then
      Max(0.0, ends - starts)
    else
      var arrivalDay := Max(0.0, w.endsAt as real - starts);
      var departureDay := Max(0.0, ends - w.startsAt as real);
      var fullDays := if nights - 1 > 0 then nights - 1 else 0;
      arrivalDay + departureDay + fullDays as real * Span(w) as real
  }

  /** No trip yields more than a full window for each of its calendar days. */
  lemma HoursAtMostFullDays(arrival: real, departure: real, nights: nat, w: DayWindow)
    requires Span(w) >= 0
    ensures HoursBetween(arrival, departure, nights, w) <= (nights + 1) as real * Span(w) as real
  {
    if nights > 0 {
      HoursOverNights(arrival, departure, nights, w);
      assert (nights + 1) as real * Span(w) as real == (nights - 1) as real * Span(w) as real + 2.0 * Span(w) as real;
    }
  }

  /**
   `calculate_exploration_hours` on two flight time strings.
   A string strptime rejects yields 0.0 hours instead of an error.
   */
  function ExplorationHours(arrival: string, departure: string, nights: int, w: DayWindow): (h: real)
    requires ValidWindow(w)
    ensures Span(w) >= 0 ==> h >= 0.0
    ensures ParseTime(arrival).None? || ParseTime(departure).None? ==> h == 0.0
  {
    var a, d := ParseTime(arrival), ParseTime(departure);
    if a.Some? && d.Some? then HoursBetween(Hours(a.value), Hours(d.value), nights, w) else 0.0
  }

  /**
   Landing later or taking off earlier never adds hours: the result is
   non-decreasing in the departure time and non-increasing in the arrival time.
   */
  lemma HoursMonotone(a1: real, a2: real, d1: real, d2: real, nights: int, w: DayWindow)
    requires a2 <= a1 && d1 <= d2
    ensures HoursBetween(a1, d1, nights, w) <= HoursBetween(a2, d2, nights, w)
  {
  }

  /**
   With a non-negative buffer the noon/noon placeholders leave a day trip no
   usable time at all.
   */
  lemma NoonDayTripHasNoHours(w: DayWindow)
    requires ValidWindow(w) && w.buffer >= 0.0
    ensures ExplorationHours("12:00", "12:00", 0, w) == 0.0
  {
    var noon := "12:00";
    assert noon[..2] == "12" && noon[3..] == "00";
    assert !HasNextDayMarker(noon);
    assert ParseTime(noon) == Some(TimeOfDay(12, 0));
  }

  /** Day trip, window 08:00-21:00, buffer 2h, landing 10:00, leaving 18:00: 4 hours. */
  lemma DayTripExample()
    ensures ExplorationHours("10:00", "18:00", 0, DayWindow(8, 21, 2.0)) == 4.0
  {
    var a, d := "10:00", "18:00";
    assert a[..2] == "10" && a[3..] == "00" && !HasNextDayMarker(a);
    assert d[..2] == "18" && d[3..] == "00" && !HasNextDayMarker(d);
    assert ParseTime(a) == Some(TimeOfDay(10, 0));
    assert ParseTime(d) == Some(TimeOfDay(18, 0));
  }

  /** Two nights, window 08:00-21:00, buffer 2h, landing 14:00, leaving 10:00: 5 + 0 + 13 = 18 hours. */
  lemma TwoNightExample()
    ensures ExplorationHours("14:00", "10:00", 2, DayWindow(8, 21, 2.0)) == 18.0
  {
    var a, d := "14:00", "10:00";
    assert a[..2] == "14" && a[3..] == "00" && !HasNextDayMarker(a);
    assert d[..2] == "10" && d[3..] == "00" && !HasNextDayMarker(d);
    assert ParseTime(a) == Some(TimeOfDay(14, 0));
    assert ParseTime(d) == Some(TimeOfDay(10, 0));
  }

  // ---------------------------------------------------------------------
  // An independent reading of the formula on a continuous clock.

  /** Length of the intersection of [lo1, hi1] and [lo2, hi2]; 0 when they are disjoint. */
  function Overlap(lo1: real, hi1: real, lo2: real, hi2: real): real {
    Max(0.0, Min(hi1, hi2) - Max(lo1, lo2))
  }

  /** Hours of day `d`'s window, [24d + startsAt, 24d + endsAt], that fall inside [from, until]. */
  function WindowOnDay(from: real, until: real, w: DayWindow, d: nat): real {
    Overlap(24.0 * d as real + w.startsAt as real, 24.0 * d as real + w.endsAt as real, from, until)
  }

  /** Hours of the windows of days 0..k that fall inside [from, until]. */
  function WindowedHours(from: real, until: real, w: DayWindow, k: nat): real {
    if k == 0 then WindowOnDay(from, until, w, 0)
    else WindowedHours(from, until, w, k - 1) + WindowOnDay(from, until, w, k)
  }

  /**
   Usable time measured on one continuous clock: from `arrival + buffer` on
   day 0 until `departure - buffer` on day `nights`, counting only the hours
   inside each day's window.
   */
  function TimelineHours(arrival: real, departure: real, nights: nat, w: DayWindow): real {
    WindowedHours(arrival + w.buffer, 24.0 * nights as real + departure - w.buffer, w, nights)
  }

  lemma {:induction false} InnerDaysAreFull(from: real, until: real, w: DayWindow, nights: nat, k: nat)
    requires Span(w) >= 0
    requires 1 <= k < nights
    requires from <= 24.0 + w.startsAt as real
    requires until >= 24.0 * (nights - 1) as real + w.endsAt as real
    ensures WindowedHours(from, until, w, k) == WindowOnDay(from, until, w, 0) + k as real * Span(w) as real
  {
    assert 24.0 * k as real + w.startsAt as real >= from;
    assert 24.0 * k as real + w.endsAt as real <= until;
    assert WindowOnDay(from, until, w, k) == Span(w) as real;
    if k > 1 {
      InnerDaysAreFull(from, until, w, nights, k - 1);
    }
  }

  /** On the arrival day the clock runs past the window's end, so only the late start clips it. */
  lemma ArrivalDayWindow(from: real, until: real, w: DayWindow)
    requires until >= w.endsAt as real
    ensures WindowOnDay(from, until, w, 0) == Max(0.0, w.endsAt as real - Max(w.startsAt as real, from))
  {
  }

  /** On the departure day the clock started before the window, so only the early end clips it. */
  lemma DepartureDayWindow(from: real, departure: real, w: DayWindow, n: nat)
    requires from <= 24.0 * n as real + w.startsAt as real
    ensures WindowOnDay(from, 24.0 * n as real + departure, w, n)
         == Max(0.0, Min(w.endsAt as real, departure) - w.startsAt as real)
  {
    var base := 24.0 * n as real;
    assert Min(base + w.endsAt as real, base + departure) == base + Min(w.endsAt as real, departure);
  }

  /** The formula for a trip of at least one night, term by term. */
  lemma HoursOverNights(arrival: real, departure: real, nights: int, w: DayWindow)
    requires nights > 0
    ensures HoursBetween(arrival, departure, nights, w)
         == Max(0.0, w.endsAt as real - Max(w.startsAt as real, arrival + w.buffer))
          + Max(0.0, Min(w.endsAt as real, departure - w.buffer) - w.startsAt as real)
          + (nights - 1) as real * Span(w) as real
  {
  }

  /** The continuous-clock measure splits into the arrival day, the full inner days and the departure day. */
  lemma TimelineSplit(from: real, until: real, w: DayWindow, nights: nat)
    requires Span(w) >= 0 && nights > 0
    requires from <= 24.0 + w.startsAt as real
    requires until >= 24.0 * (nights - 1) as real + w.endsAt as real
    ensures WindowedHours(from, until, w, nights)
         == WindowOnDay(from, until, w, 0) + (nights - 1) as real * Span(w) as real + WindowOnDay(from, until, w, nights)
  {
    if nights > 1 {
      InnerDaysAreFull(from, until, w, nights, nights - 1);
    }
  }

  /**
   The engine's formula is exactly the continuous-clock measure, as long as
   the buffered arrival does not reach into the next day's window and the
   buffered departure does not reach back into the previous one.
   */
  lemma HoursMatchTimeline(arrival: real, departure: real, nights: nat, w: DayWindow)
    requires Span(w) >= 0
    requires nights > 0 ==> arrival + w.buffer <= 24.0 + w.startsAt as real
    requires nights > 0 ==> departure - w.buffer >= w.endsAt as real - 24.0
    ensures HoursBetween(arrival, departure, nights, w) == TimelineHours(arrival, departure, nights, w)
  {
    if nights > 0 {
      var n := nights;
      var from := arrival + w.buffer;
      var until := 24.0 * n as real + (departure - w.buffer);
      assert until == 24.0 * n as real + departure - w.buffer;
      HoursOverNights(arrival, departure, n, w);
      TimelineSplit(from, until, w, n);
      ArrivalDayWindow(from, until, w);
      DepartureDayWindow(from, departure - w.buffer, w, n);
    }
  }

  /**
   Outside those conditions the formula overcounts. Window 01:00-23:00,
   buffer 2h, landing 23:30 and leaving 12:00 one night later: the buffer
   carries the start past midnight into the departure day, but the formula
   still counts that day's window from 01:00, giving 9 hours where the
   continuous clock gives 8.5.
   */
  lemma BufferCrossesMidnight()
    ensures HoursBetween(23.5, 12.0, 1, DayWindow(1, 23, 2.0)) == 9.0
    ensures TimelineHours(23.5, 12.0, 1, DayWindow(1, 23, 2.0)) == 8.5
  {
    var w := DayWindow(1, 23, 2.0);
    assert WindowOnDay(25.5, 34.0, w, 0) == 0.0;
    assert WindowOnDay(25.5, 34.0, w, 1) == 8.5;
  }
}
