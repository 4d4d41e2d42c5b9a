/**
 The trip-combination generator: every outbound day paired with every
 return day whose night count fits under the trip-length cap.
 */
module Trips {
  import opened Wrappers

  /**
   One scraped daily price. `date` is the day number of the price's
   calendar date, `None` when the date string does not parse.
   */
  datatype PricePoint = PricePoint(date: Option<int>, price: real)

  datatype Trip = Trip(outbound: int, ret: int, nights: int, flightCost: real)

  /** `max(0, max_trip_duration_days - 1)`: a trip of d days spans d - 1 nights. */
  function MaxNights(maxTripDays: int): nat {
    if maxTripDays - 1 > 0 then maxTripDays - 1 else 0
  }

  /** The invariant every generated trip keeps. */
  predicate WellFormed(t: Trip, maxNights: int) {
    t.nights == t.ret - t.outbound && 0 <= t.nights <= maxNights
  }

  /**
   One (outbound, return) pair: a trip when both dates parse and the night
   count is within [0, maxNights]; skipped otherwise.
   */
  function PairTrip(ob: PricePoint, rt: PricePoint, maxNights: int): (r: Option<Trip>)
    ensures r.Some? <==> ob.date.Some? && rt.date.Some? && 0 <= rt.date.value - ob.date.value <= maxNights
    ensures r.Some? ==> WellFormed(r.value, maxNights)
    ensures r.Some? ==> Some(r.value.outbound) == ob.date && Some(r.value.ret) == rt.date
    ensures r.Some? ==> r.value.flightCost == ob.price + rt.price
  {
    if ob.date.Some? && rt.date.Some? && 0 <= rt.date.value - ob.date.value <= maxNights then
      Some(Trip(ob.date.value, rt.date.value, rt.date.value - ob.date.value, ob.price + rt.price))
    else None
  }

  /** The inner loop: `ob` against every return price, in order. */
  function PairsWith(ob: PricePoint, rets: seq<PricePoint>, maxNights: int): (r: seq<Trip>)
    ensures |r| <= |rets|
    ensures forall t :: t in r ==> WellFormed(t, maxNights) && Some(t.outbound) == ob.date
  {
    if |rets| == 0 then []
    else
      var rest := PairsWith(ob, rets[..|rets| - 1], maxNights);
      match PairTrip(ob, rets[|rets| - 1], maxNights)
      case Some(t) => rest + [t]
      case None => rest
  }

  /**
   Phase 2 of the engine: the cross product of outbound and return prices,
   outer loop over outbound, inner over return, keeping the pairs whose
   night count is within [0, maxNights].
   */
  function GenerateTrips(obs: seq<PricePoint>, rets: seq<PricePoint>, maxNights: int): (r: seq<Trip>)
    ensures |r| <= |obs| * |rets|
    ensures forall t :: t in r ==> WellFormed(t, maxNights)
  {
    if |obs| == 0 then []
    else
      var earlier := GenerateTrips(obs[..|obs| - 1], rets, maxNights);
      var pairs := PairsWith(obs[|obs| - 1], rets, maxNights);
      assert |earlier| + |pairs| <= (|obs| - 1) * |rets| + |rets|;
      earlier + pairs
  }

  lemma {:induction false} PairsWithFrom(ob: PricePoint, rets: seq<PricePoint>, maxNights: int, t: Trip)
    requires t in PairsWith(ob, rets, maxNights)
    ensures exists j :: 0 <= j < |rets| && PairTrip(ob, rets[j], maxNights) == Some(t)
  {
    var init := rets[..|rets| - 1];
    if t in PairsWith(ob, init, maxNights) {
      PairsWithFrom(ob, init, maxNights, t);
      var j :| 0 <= j < |init| && PairTrip(ob, init[j], maxNights) == Some(t);
      assert rets[j] == init[j];
    }
  }

  lemma {:induction false} PairsWithHas(ob: PricePoint, rets: seq<PricePoint>, maxNights: int, j: nat)
    requires j < |rets| && PairTrip(ob, rets[j], maxNights).Some?
    ensures PairTrip(ob, rets[j], maxNights).value in PairsWith(ob, rets, maxNights)
  {
    var init := rets[..|rets| - 1];
    if j < |init| {
      assert init[j] == rets[j];
      PairsWithHas(ob, init, maxNights, j);
    }
  }

  /** Nothing is invented: every generated trip is what some outbound/return pair yields. */
  lemma {:induction false} GeneratedFromPair(obs: seq<PricePoint>, rets: seq<PricePoint>, maxNights: int, t: Trip)
    requires t in GenerateTrips(obs, rets, maxNights)
    ensures exists i, j :: 0 <= i < |obs| && 0 <= j < |rets| && PairTrip(obs[i], rets[j], maxNights) == Some(t)
  {
    var init := obs[..|obs| - 1];
    if t in GenerateTrips(init, rets, maxNights) {
      GeneratedFromPair(init, rets, maxNights, t);
      var i, j :| 0 <= i < |init| && 0 <= j < |rets| && PairTrip(init[i], rets[j], maxNights) == Some(t);
      assert obs[i] == init[i];
    } else {
      PairsWithFrom(obs[|obs| - 1], rets, maxNights, t);
    }
  }

  /**
   Nothing is lost: every outbound/return pair whose dates parse and whose
   night count fits yields a generated trip.
   */
  lemma {:induction false} EveryPairGenerated(obs: seq<PricePoint>, rets: seq<PricePoint>, maxNights: int, i: nat, j: nat)
    requires i < |obs| && j < |rets| && PairTrip(obs[i], rets[j], maxNights).Some?
    ensures PairTrip(obs[i], rets[j], maxNights).value in GenerateTrips(obs, rets, maxNights)
  {
    var init := obs[..|obs| - 1];
    if i < |init| {
      assert init[i] == obs[i];
      EveryPairGenerated(init, rets, maxNights, i, j);
    } else {
      PairsWithHas(obs[i], rets, maxNights, j);
    }
  }

  /** The scraper's last-write-wins merge leaves at most one price per date. */
  predicate DistinctDates(series: seq<PricePoint>) {
    forall i, j :: 0 <= i < j < |series| && series[i].date.Some? ==> series[i].date != series[j].date
  }

  predicate DistinctDatePairs(trips: seq<Trip>) {
    forall i, j :: 0 <= i < j < |trips| ==>
      trips[i].outbound != trips[j].outbound || trips[i].ret != trips[j].ret
  }

  lemma {:induction false} PairsWithDistinct(ob: PricePoint, rets: seq<PricePoint>, maxNights: int)
    requires DistinctDates(rets)
    ensures DistinctDatePairs(PairsWith(ob, rets, maxNights))
    ensures forall t :: t in PairsWith(ob, rets, maxNights) ==>
              exists j :: 0 <= j < |rets| && rets[j].date == Some(t.ret)
  {
    if |rets| > 0 {
      var init := rets[..|rets| - 1];
      var lastRet := rets[|rets| - 1];
      assert DistinctDates(init) by {
        forall i, j | 0 <= i < j < |init| && init[i].date.Some? ensures init[i].date != init[j].date {
          assert init[i] == rets[i] && init[j] == rets[j];
        }
      }
      PairsWithDistinct(ob, init, maxNights);
      var rest := PairsWith(ob, init, maxNights);
      forall t | t in rest ensures exists j :: 0 <= j < |rets| && rets[j].date == Some(t.ret) {
        var j :| 0 <= j < |init| && init[j].date == Some(t.ret);
        assert rets[j] == init[j];
      }
      match PairTrip(ob, lastRet, maxNights)
      case None =>
      case Some(t) =>
        var r := rest + [t];
        forall u | u in rest ensures u.ret != t.ret {
          var j :| 0 <= j < |init| && init[j].date == Some(u.ret);
          assert rets[j] == init[j];
        }
        forall i, j | 0 <= i < j < |r| ensures r[i].outbound != r[j].outbound || r[i].ret != r[j].ret {
          if j == |rest| {
            assert r[i] in rest;
          } else {
            assert r[i] == rest[i] && r[j] == rest[j];
          }
        }
        assert rets[|rets| - 1].date == Some(t.ret);
    }
  }

  /**
   With the scraper's one-price-per-date series, no two generated trips
   share the same outbound and return dates.
   */
  lemma {:induction false} GeneratedDatePairsDistinct(obs: seq<PricePoint>, rets: seq<PricePoint>, maxNights: int)
    requires DistinctDates(obs) && DistinctDates(rets)
    ensures DistinctDatePairs(GenerateTrips(obs, rets, maxNights))
  {
    GeneratedOutboundsFrom(obs, rets, maxNights);
    if |obs| > 0 {
      var init := obs[..|obs| - 1];
      var last := obs[|obs| - 1];
      assert DistinctDates(init) by {
        forall i, j | 0 <= i < j < |init| && init[i].date.Some? ensures init[i].date != init[j].date {
          assert init[i] == obs[i] && init[j] == obs[j];
        }
      }
      GeneratedDatePairsDistinct(init, rets, maxNights);
      GeneratedOutboundsFrom(init, rets, maxNights);
      PairsWithDistinct(last, rets, maxNights);
      var earlier := GenerateTrips(init, rets, maxNights);
      var pairs := PairsWith(last, rets, maxNights);
      var r := earlier + pairs;
      forall i, j | 0 <= i < j < |r| ensures r[i].outbound != r[j].outbound || r[i].ret != r[j].ret {
        if j < |earlier| {
          assert r[i] == earlier[i] && r[j] == earlier[j];
        } else if i >= |earlier| {
          assert r[i] == pairs[i - |earlier|] && r[j] == pairs[j - |earlier|];
        } else {
          assert r[i] in earlier && r[j] in pairs;
          var k :| 0 <= k < |init| && init[k].date == Some(r[i].outbound);
          assert obs[k] == init[k];
        }
      }
    }
  }

  lemma {:induction false} GeneratedOutboundsFrom(obs: seq<PricePoint>, rets: seq<PricePoint>, maxNights: int)
    ensures forall t :: t in GenerateTrips(obs, rets, maxNights) ==>
              exists i :: 0 <= i < |obs| && obs[i].date == Some(t.outbound)
  {
    if |obs| > 0 {
      var init := obs[..|obs| - 1];
      GeneratedOutboundsFrom(init, rets, maxNights);
      forall t | t in GenerateTrips(obs, rets, maxNights)
        ensures exists i :: 0 <= i < |obs| && obs[i].date == Some(t.outbound)
      {
        if t in GenerateTrips(init, rets, maxNights) {
          var i :| 0 <= i < |init| && init[i].date == Some(t.outbound);
          assert obs[i] == init[i];
        } else {
          assert obs[|obs| - 1].date == Some(t.outbound);
        }
      }
    }
  }
}
