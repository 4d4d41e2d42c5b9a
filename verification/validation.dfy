/**
 The validation loop: the best-ranked estimates are re-costed with exact
 flight prices and times, stopping as soon as an estimate can no longer
 beat the best confirmed cost per hour.
 */
module Validation {
  import opened Wrappers
  import opened Exploration
  import opened Lodging
  import opened Sorting
  import opened Config
  import opened Estimate

  /** One flight as the detail extractor reports it; any field may be absent. */
  datatype FlightLeg = FlightLeg(price: Option<real>, departureTime: Option<string>, arrivalTime: Option<string>)

  /** The exact-flight lookup: (from, to, day) to the flights found, cheapest first. */
  type FlightSearch = (string, string, int) -> seq<FlightLeg>

  datatype ConfirmedTrip = ConfirmedTrip(
    destination: string,
    outbound: int,
    ret: int,
    totalCost: real,
    costPerHour: real,
    hours: real,
    flightCost: real,
    outboundLeg: FlightLeg,
    returnLeg: FlightLeg,
    accommodation: Accommodation)

  function ConfirmedCostPerHour(t: ConfirmedTrip): real {
    t.costPerHour
  }

  /** `leg.get('price', 0)`. */
  function LegPrice(l: FlightLeg): real {
    l.price.GetOr(0.0)
  }

  /** Exploration hours from the exact landing and take-off times, "00:00" when absent. */
  function ExactHours(ob: FlightLeg, rt: FlightLeg, nights: int, w: DayWindow): real
    requires ValidWindow(w)
  {
    ExplorationHours(ob.arrivalTime.GetOr("00:00"), rt.departureTime.GetOr("00:00"), nights, w)
  }

  /**
   One candidate's exact costing: rejected (None) when either flight search
   is empty, when the exact hours fall below the threshold, or when there
   are no hours at all.
   */
  function ConfirmTrip(e: EstimatedTrip, d: Destination, flights: FlightSearch, c: Settings): (r: Option<ConfirmedTrip>)
    requires Valid(c)
    ensures var outs := flights(c.origin, d.id, e.trip.outbound);
            var rets := flights(d.id, c.origin, e.trip.ret);
            r.Some? <==> |outs| > 0 && |rets| > 0
                         && ExactHours(outs[0], rets[0], e.trip.nights, c.window) >= c.minHours
                         && ExactHours(outs[0], rets[0], e.trip.nights, c.window) > 0.0
    ensures r.Some? ==> r.value.hours >= c.minHours && r.value.hours > 0.0
    ensures r.Some? ==> (&& r.value.outboundLeg == flights(c.origin, d.id, e.trip.outbound)[0]
                         && r.value.returnLeg == flights(d.id, c.origin, e.trip.ret)[0]
                         && r.value.flightCost == LegPrice(r.value.outboundLeg) + LegPrice(r.value.returnLeg))
    ensures r.Some? ==> (&& r.value.totalCost == r.value.flightCost + e.accommodation.Cost()
                         && r.value.costPerHour == r.value.totalCost / r.value.hours)
    ensures r.Some? ==> (&& r.value.destination == d.name && r.value.outbound == e.trip.outbound
                         && r.value.ret == e.trip.ret && r.value.accommodation == e.accommodation)
  {
    var outs := flights(c.origin, d.id, e.trip.outbound);
    var rets := flights(d.id, c.origin, e.trip.ret);
    if |outs| == 0 || |rets| == 0 then None
    else
      var flightCost := LegPrice(outs[0]) + LegPrice(rets[0]);
      var hours := ExactHours(outs[0], rets[0], e.trip.nights, c.window);
      if hours < c.minHours || hours <= 0.0 then None
      else
        var total := flightCost + e.accommodation.Cost();
        Some(ConfirmedTrip(d.name, e.trip.outbound, e.trip.ret, total, total / hours, hours,
                           flightCost, outs[0], rets[0], e.accommodation))
  }

  /** Every candidate that confirms, in ranked order. */
  function ConfirmAll(cands: seq<EstimatedTrip>, d: Destination, flights: FlightSearch, c: Settings): (r: seq<ConfirmedTrip>)
    requires Valid(c)
    ensures |r| <= |cands|
  {
    if |cands| == 0 then []
    else
      var rest := ConfirmAll(cands[..|cands| - 1], d, flights, c);
      match ConfirmTrip(cands[|cands| - 1], d, flights, c)
      case None => rest
      case Some(t) => rest + [t]
  }

  /**
   Every confirmed trip comes from a candidate, has enough hours, more than
   zero of them, and costs its exact flights plus its matched lodging.
   */
  lemma {:induction false} ConfirmedTripsQualify(cands: seq<EstimatedTrip>, d: Destination, flights: FlightSearch, c: Settings)
    requires Valid(c)
    ensures forall t :: t in ConfirmAll(cands, d, flights, c) ==>
              exists i :: 0 <= i < |cands| && ConfirmTrip(cands[i], d, flights, c) == Some(t)
    ensures forall t :: t in ConfirmAll(cands, d, flights, c) ==>
              && t.hours >= c.minHours && t.hours > 0.0
              && t.totalCost == t.flightCost + t.accommodation.Cost()
              && t.costPerHour == t.totalCost / t.hours
  {
    if |cands| > 0 {
      var init := cands[..|cands| - 1];
      ConfirmedTripsQualify(init, d, flights, c);
      forall t | t in ConfirmAll(cands, d, flights, c)
        ensures exists i :: 0 <= i < |cands| && ConfirmTrip(cands[i], d, flights, c) == Some(t)
      {
        if t in ConfirmAll(init, d, flights, c) {
          var i :| 0 <= i < |init| && ConfirmTrip(init[i], d, flights, c) == Some(t);
          assert init[i] == cands[i];
        } else {
          assert ConfirmTrip(cands[|cands| - 1], d, flights, c) == Some(t);
        }
      }
    }
  }

  /** `min(best, x)`. */
  function Lower(b: Bound, x: real): Bound {
    if b.Admits(x) then AtMost(x) else b
  }

  /** The best confirmed cost per hour: +infinity for none, else the minimum. */
  function Best(ts: seq<ConfirmedTrip>): (b: Bound)
    ensures b.Unbounded? <==> |ts| == 0
    ensures b.AtMost? ==> exists i :: 0 <= i < |ts| && ts[i].costPerHour == b.limit
    ensures b.AtMost? ==> forall i :: 0 <= i < |ts| ==> b.limit <= ts[i].costPerHour
  {
    if |ts| == 0 then Unbounded
    else
      var init := ts[..|ts| - 1];
      assert forall i :: 0 <= i < |init| ==> init[i] == ts[i];
      Lower(Best(init), ts[|ts| - 1].costPerHour)
  }

  /**
   The early-stop test: the candidate at `j` is examined only when its
   estimate beats the best confirmed among the candidates before it.
   */
  predicate Proceeds(cands: seq<EstimatedTrip>, j: nat, d: Destination, flights: FlightSearch, c: Settings)
    requires Valid(c) && j < |cands|
  {
    Best(ConfirmAll(cands[..j], d, flights, c)).Admits(cands[j].costPerHour)
  }

  function StopFrom(cands: seq<EstimatedTrip>, j: nat, d: Destination, flights: FlightSearch, c: Settings): (k: nat)
    requires Valid(c) && j <= |cands|
    decreases |cands| - j
    ensures j <= k <= |cands|
    ensures forall i :: j <= i < k ==> Proceeds(cands, i, d, flights, c)
    ensures k < |cands| ==> !Proceeds(cands, k, d, flights, c)
  {
    if j == |cands| || !Proceeds(cands, j, d, flights, c) then j
    else StopFrom(cands, j + 1, d, flights, c)
  }

  /**
   How many candidates the loop examines: the position of the first one
   whose estimate does not beat the best confirmed before it.
   */
  function StopIndex(cands: seq<EstimatedTrip>, d: Destination, flights: FlightSearch, c: Settings): (k: nat)
    requires Valid(c)
    ensures k <= |cands|
    ensures forall i :: 0 <= i < k ==> Proceeds(cands, i, d, flights, c)
    ensures k < |cands| ==> !Proceeds(cands, k, d, flights, c)
  {
    StopFrom(cands, 0, d, flights, c)
  }

  /** `ts` with the verdict's trip appended when there is one. */
  function Extend(ts: seq<ConfirmedTrip>, verdict: Option<ConfirmedTrip>): seq<ConfirmedTrip> {
    match verdict
    case None => ts
    case Some(t) => ts + [t]
  }

  lemma ConfirmAllSnoc(cands: seq<EstimatedTrip>, j: nat, d: Destination, flights: FlightSearch, c: Settings)
    requires Valid(c) && j < |cands|
    ensures ConfirmAll(cands[..j + 1], d, flights, c)
         == Extend(ConfirmAll(cands[..j], d, flights, c), ConfirmTrip(cands[j], d, flights, c))
  {
    assert cands[..j + 1][..j] == cands[..j];
  }

  lemma BestExtend(ts: seq<ConfirmedTrip>, verdict: Option<ConfirmedTrip>)
    ensures Best(Extend(ts, verdict)) == (if verdict.Some? then Lower(Best(ts), verdict.value.costPerHour) else Best(ts))
  {
    if verdict.Some? {
      assert (ts + [verdict.value])[..|ts|] == ts;
    }
  }

  lemma StopsHere(cands: seq<EstimatedTrip>, k: nat, d: Destination, flights: FlightSearch, c: Settings)
    requires Valid(c) && k < |cands| && k <= StopIndex(cands, d, flights, c)
    requires !Proceeds(cands, k, d, flights, c)
    ensures k == StopIndex(cands, d, flights, c)
  {
  }

  lemma PassesHere(cands: seq<EstimatedTrip>, k: nat, d: Destination, flights: FlightSearch, c: Settings)
    requires Valid(c) && k < |cands| && k <= StopIndex(cands, d, flights, c)
    requires Proceeds(cands, k, d, flights, c)
    ensures k < StopIndex(cands, d, flights, c)
  {
  }

  /**
   One turn of the loop at candidate `k`: stop when its estimate does not
   beat the best so far; otherwise cost it exactly and, when it confirms,
   record the trip and lower the best to `min(best, its cost per hour)`.
   */
  method Examine(cands: seq<EstimatedTrip>, k: nat, confirmed: seq<ConfirmedTrip>, best: Bound,
                 d: Destination, flights: FlightSearch, c: Settings)
    returns (confirmed': seq<ConfirmedTrip>, best': Bound, stop: bool)
    requires Valid(c) && k < |cands| && k <= StopIndex(cands, d, flights, c)
    requires confirmed == ConfirmAll(cands[..k], d, flights, c) && best == Best(confirmed)
    ensures stop ==> k == StopIndex(cands, d, flights, c) && confirmed' == confirmed
    ensures !stop ==> k < StopIndex(cands, d, flights, c) && confirmed' == ConfirmAll(cands[..k + 1], d, flights, c)
    ensures best' == Best(confirmed')
  {
    if !best.Admits(cands[k].costPerHour) {
      StopsHere(cands, k, d, flights, c);
      return confirmed, best, true;
    }
    PassesHere(cands, k, d, flights, c);
    ConfirmAllSnoc(cands, k, d, flights, c);
    var verdict := ConfirmTrip(cands[k], d, flights, c);
    BestExtend(confirmed, verdict);
    confirmed' := Extend(confirmed, verdict);
    best' := best;
    if verdict.Some? {
      best' := Lower(best, verdict.value.costPerHour);
    }
    stop := false;
  }

  /**
   The engine's validation loop over the top candidates. It breaks at the
   first estimate that does not beat the best confirmed cost per hour and
   examines every candidate before it.
   */
  method Validate(cands: seq<EstimatedTrip>, d: Destination, flights: FlightSearch, c: Settings)
    returns (confirmed: seq<ConfirmedTrip>, best: Bound, examined: nat)
    requires Valid(c)
    ensures examined == StopIndex(cands, d, flights, c)
    ensures confirmed == ConfirmAll(cands[..examined], d, flights, c)
    ensures best == Best(confirmed)
  {
    confirmed, best, examined := [], Unbounded, 0;
    assert confirmed == ConfirmAll(cands[..examined], d, flights, c);
    ghost var stop := StopIndex(cands, d, flights, c);
    while examined < |cands|
      invariant examined <= stop
      invariant confirmed == ConfirmAll(cands[..examined], d, flights, c)
      invariant best == Best(confirmed)
    {
      var stopped;
      confirmed, best, stopped := Examine(cands, examined, confirmed, best, d, flights, c);
      if stopped {
        break;
      }
      examined := examined + 1;
    }
  }

  /** The first candidate is always examined: nothing is confirmed yet, so the best is +infinity. */
  lemma FirstCandidateExamined(cands: seq<EstimatedTrip>, d: Destination, flights: FlightSearch, c: Settings)
    requires Valid(c) && |cands| > 0
    ensures StopIndex(cands, d, flights, c) >= 1
  {
    assert ConfirmAll(cands[..0], d, flights, c) == [];
  }

  lemma {:induction false} ConfirmAllHas(cands: seq<EstimatedTrip>, j: nat, d: Destination, flights: FlightSearch, c: Settings)
    requires Valid(c) && j < |cands| && ConfirmTrip(cands[j], d, flights, c).Some?
    ensures ConfirmTrip(cands[j], d, flights, c).value in ConfirmAll(cands, d, flights, c)
  {
    var init := cands[..|cands| - 1];
    if j < |cands| - 1 {
      assert init[j] == cands[j];
      ConfirmAllHas(init, j, d, flights, c);
    }
  }

  /**
   When estimates never overrate a trip (its exact cost per hour is at
   least its estimate) and the candidates are sorted by estimate, stopping
   early loses nothing: the loop's best is at most the exact cost per hour
   of every candidate that would confirm, examined or not.
   */
  lemma EarlyStopSound(cands: seq<EstimatedTrip>, d: Destination, flights: FlightSearch, c: Settings)
    requires Valid(c)
    requires SortedBy(cands, CostPerHour)
    requires forall j :: 0 <= j < |cands| && ConfirmTrip(cands[j], d, flights, c).Some? ==>
               ConfirmTrip(cands[j], d, flights, c).value.costPerHour >= cands[j].costPerHour
    ensures var best := Best(ConfirmAll(cands[..StopIndex(cands, d, flights, c)], d, flights, c));
            forall j :: 0 <= j < |cands| && ConfirmTrip(cands[j], d, flights, c).Some? ==>
              best.AtMost? && best.limit <= ConfirmTrip(cands[j], d, flights, c).value.costPerHour
  {
    var k := StopIndex(cands, d, flights, c);
    var prefix := cands[..k];
    var best := Best(ConfirmAll(prefix, d, flights, c));
    forall j | 0 <= j < |cands| && ConfirmTrip(cands[j], d, flights, c).Some?
      ensures best.AtMost? && best.limit <= ConfirmTrip(cands[j], d, flights, c).value.costPerHour
    {
      var t := ConfirmTrip(cands[j], d, flights, c).value;
      ConfirmedTripsQualify(prefix, d, flights, c);
      if j < k {
        assert prefix[j] == cands[j];
        ConfirmAllHas(prefix, j, d, flights, c);
        var i :| 0 <= i < |ConfirmAll(prefix, d, flights, c)| && ConfirmAll(prefix, d, flights, c)[i] == t;
      } else {
        assert !Proceeds(cands, k, d, flights, c);
        assert CostPerHour(cands[k]) <= CostPerHour(cands[j]) || k == j;
      }
    }
  }
}
