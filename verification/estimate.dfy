/**
 The cost estimator and ranker: a rough cost per hour for every generated
 trip, from its estimated flight cost, its matched lodging and noon/noon
 placeholder flight times, sorted best first.
 */
module Estimate {
  import opened Wrappers
  import opened Exploration
  import opened Trips
  import opened Lodging
  import opened Sorting
  import opened Config

  datatype EstimatedTrip = EstimatedTrip(trip: Trip, totalCost: real, costPerHour: real, accommodation: Accommodation)

  function CostPerHour(e: EstimatedTrip): real {
    e.costPerHour
  }

  /** Exact flight times are not known yet, so both are taken to be noon. */
  const Noon: string := "12:00"

  function RoughHours(nights: int, w: DayWindow): real
    requires ValidWindow(w)
  {
    ExplorationHours(Noon, Noon, nights, w)
  }

  /**
   One trip's estimate, or None when it is dropped: too few rough hours,
   no lodging match, or no hours at all (an infinite cost per hour).
   */
  function EstimateTrip(t: Trip, samples: seq<DurationSample>, cache: CalendarCache, c: Settings): (r: Option<EstimatedTrip>)
    requires Valid(c)
    ensures r.Some? <==> RoughHours(t.nights, c.window) >= c.minHours
                         && RoughHours(t.nights, c.window) > 0.0
                         && MatchLodging(t, samples, cache).Some?
    ensures r.Some? ==> r.value.trip == t && r.value.accommodation == MatchLodging(t, samples, cache).value
    ensures r.Some? ==> r.value.totalCost == t.flightCost + r.value.accommodation.Cost()
    ensures r.Some? ==> r.value.costPerHour == r.value.totalCost / RoughHours(t.nights, c.window)
  {
    var hours := RoughHours(t.nights, c.window);
    if hours < c.minHours then None
    else
      match MatchLodging(t, samples, cache)
      case None => None
      case Some(a) =>
        var total := t.flightCost + a.Cost();
        if hours > 0.0 then Some(EstimatedTrip(t, total, total / hours, a)) else None
  }

  /** Every trip's estimate, in generation order, dropped trips left out. */
  function EstimateAll(trips: seq<Trip>, samples: seq<DurationSample>, cache: CalendarCache, c: Settings): (r: seq<EstimatedTrip>)
    requires Valid(c)
    ensures |r| <= |trips|
    ensures forall e :: e in r ==> e.trip in trips && EstimateTrip(e.trip, samples, cache, c) == Some(e)
  {
    if |trips| == 0 then []
    else
      var init := trips[..|trips| - 1];
      var rest := EstimateAll(init, samples, cache, c);
      assert forall t :: t in init ==> t in trips;
      match EstimateTrip(trips[|trips| - 1], samples, cache, c)
      case None => rest
      case Some(e) => rest + [e]
  }

  /** Trip `a` occurs in `trips` at an earlier position than trip `b`. */
  predicate Precedes(a: Trip, b: Trip, trips: seq<Trip>) {
    exists p, q :: 0 <= p < q < |trips| && a == trips[p] && b == trips[q]
  }

  /** The estimates of `r` follow their trips' order in `trips`. */
  predicate KeepsOrder(r: seq<EstimatedTrip>, trips: seq<Trip>) {
    forall i, j :: 0 <= i < j < |r| ==> Precedes(r[i].trip, r[j].trip, trips)
  }

  /** Appending a trip, and possibly its estimate, keeps the order. */
  lemma KeepsOrderSnoc(r: seq<EstimatedTrip>, init: seq<Trip>, x: Trip, last: Option<EstimatedTrip>)
    requires KeepsOrder(r, init) && forall u :: u in r ==> u.trip in init
    requires last.Some? ==> last.value.trip == x
    ensures KeepsOrder(if last.Some? then r + [last.value] else r, init + [x])
  {
    var trips := init + [x];
    var r' := if last.Some? then r + [last.value] else r;
    forall i, j | 0 <= i < j < |r'|
      ensures Precedes(r'[i].trip, r'[j].trip, trips)
    {
      assert r'[i] == r[i];
      if j < |r| {
        assert r'[j] == r[j];
        assert Precedes(r[i].trip, r[j].trip, init);
        var p, q :| 0 <= p < q < |init| && r[i].trip == init[p] && r[j].trip == init[q];
        assert trips[p] == init[p] && trips[q] == init[q];
      } else {
        assert r[i] in r;
        var p :| 0 <= p < |init| && init[p] == r[i].trip;
        assert trips[p] == init[p];
        assert r'[j].trip == trips[|init|];
      }
    }
  }

  /** Estimation keeps generation order: it only drops trips, never reorders them. */
  lemma {:induction false} EstimateAllKeepsOrder(trips: seq<Trip>, samples: seq<DurationSample>, cache: CalendarCache, c: Settings)
    requires Valid(c)
    ensures KeepsOrder(EstimateAll(trips, samples, cache, c), trips)
  {
    if |trips| > 0 {
      var init := trips[..|trips| - 1];
      var x := trips[|trips| - 1];
      var rest := EstimateAll(init, samples, cache, c);
      var last := EstimateTrip(x, samples, cache, c);
      assert init + [x] == trips;
      assert EstimateAll(trips, samples, cache, c) == if last.Some? then rest + [last.value] else rest;
      EstimateAllKeepsOrder(init, samples, cache, c);
      KeepsOrderSnoc(rest, init, x, last);
    }
  }

  /** No trip that survives estimation is lost. */
  lemma {:induction false} EstimateAllComplete(trips: seq<Trip>, samples: seq<DurationSample>, cache: CalendarCache, c: Settings, t: Trip)
    requires Valid(c)
    requires t in trips && EstimateTrip(t, samples, cache, c).Some?
    ensures EstimateTrip(t, samples, cache, c).value in EstimateAll(trips, samples, cache, c)
  {
    var init := trips[..|trips| - 1];
    if t != trips[|trips| - 1] {
      assert t in init;
      EstimateAllComplete(init, samples, cache, c, t);
    }
  }

  /**
   Phase 5's result: the estimates sorted ascending by cost per hour,
   stably, so equal costs keep generation order.
   */
  function Rank(trips: seq<Trip>, samples: seq<DurationSample>, cache: CalendarCache, c: Settings): (r: seq<EstimatedTrip>)
    requires Valid(c)
    ensures SortedBy(r, CostPerHour)
    ensures multiset(r) == multiset(EstimateAll(trips, samples, cache, c))
    ensures forall k :: WithKey(r, CostPerHour, k) == WithKey(EstimateAll(trips, samples, cache, c), CostPerHour, k)
  {
    var es := EstimateAll(trips, samples, cache, c);
    SortByCorrect(es, CostPerHour);
    SortBy(es, CostPerHour)
  }

  /**
   Every ranked trip had enough rough hours, more than zero of them, and a
   cost that is its flight cost plus its matched lodging.
   */
  lemma RankedTripsQualify(trips: seq<Trip>, samples: seq<DurationSample>, cache: CalendarCache, c: Settings)
    requires Valid(c)
    ensures forall e :: e in Rank(trips, samples, cache, c) ==>
              && e.trip in trips
              && RoughHours(e.trip.nights, c.window) >= c.minHours
              && RoughHours(e.trip.nights, c.window) > 0.0
              && e.totalCost == e.trip.flightCost + e.accommodation.Cost()
              && e.costPerHour == e.totalCost / RoughHours(e.trip.nights, c.window)
  {
    var r := Rank(trips, samples, cache, c);
    forall e | e in r ensures e in EstimateAll(trips, samples, cache, c) {
      assert e in multiset(r);
    }
  }

  /**
   With a non-negative airport buffer no day trip is ever ranked: noon to
   noon leaves it zero hours, so the threshold or the zero-hours guard drops it.
   */
  lemma NoDayTripRanked(trips: seq<Trip>, samples: seq<DurationSample>, cache: CalendarCache, c: Settings)
    requires Valid(c) && c.window.buffer >= 0.0
    ensures forall e :: e in Rank(trips, samples, cache, c) ==> e.trip.nights != 0
  {
    NoonDayTripHasNoHours(c.window);
    RankedTripsQualify(trips, samples, cache, c);
  }
}
