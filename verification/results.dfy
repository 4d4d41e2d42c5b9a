/**
 The driver: every enabled country's cities run through the six phases in
 configuration order, destinations already in the results store are
 skipped, and each destination that yields confirmed trips has its best few
 written under its name.
 */
module Results {
  import opened Wrappers
  import opened Trips
  import opened Lodging
  import opened Sorting
  import opened Config
  import opened Estimate
  import opened Validation

  /** The results file: destination name to its stored trips, best first. */
  type ResultStore = map<string, seq<ConfirmedTrip>>

  /**
   The scrapers the engine drives, as pure lookups: daily prices for a route
   from a start day, the cheapest listings for a stay, a listing's
   availability calendar, and the exact flights on a day.
   */
  datatype Collaborators = Collaborators(
    prices: (string, string, int) -> seq<PricePoint>,
    lodging: (string, int, int) -> seq<Listing>,
    calendar: string -> Calendar,
    flights: FlightSearch)

  /**
   Phases 1 to 5 and the slice of the top candidates: empty when the price
   calendars, the trip combinations or the sample lodging searches come up
   empty.
   */
  function Candidates(d: Destination, c: Settings, co: Collaborators): (r: seq<EstimatedTrip>)
    requires Valid(c)
    ensures c.candidatesToValidate >= 0 ==> |r| <= c.candidatesToValidate
  {
    var obs := co.prices(c.origin, d.id, c.startDay);
    var rets := co.prices(d.id, c.origin, c.startDay);
    if |obs| == 0 || |rets| == 0 then []
    else
      var maxNights := MaxNights(c.maxTripDays);
      var trips := GenerateTrips(obs, rets, maxNights);
      if |trips| == 0 then []
      else
        var samples := SampleStays(d, c, co);
        if |samples| == 0 then []
        else Take(Rank(trips, samples, BuildCache(samples, co.calendar), c), c.candidatesToValidate)
  }

  /** Phase 3's sample stays: one entry per common duration whose lodging search found listings. */
  function SampleStays(d: Destination, c: Settings, co: Collaborators): seq<DurationSample> {
    CollectSamples(CommonDurations(MaxNights(c.maxTripDays)), n => co.lodging(d.name, c.startDay, c.startDay + n))
  }

  /** Phase 5's estimates of every trip generated for the destination, in generation order. */
  function Estimates(d: Destination, c: Settings, co: Collaborators): seq<EstimatedTrip>
    requires Valid(c)
  {
    var samples := SampleStays(d, c, co);
    var trips := GenerateTrips(co.prices(c.origin, d.id, c.startDay), co.prices(d.id, c.origin, c.startDay), MaxNights(c.maxTripDays));
    EstimateAll(trips, samples, BuildCache(samples, co.calendar), c)
  }

  /**
   The candidates are the best of the estimates: none when no sample stay
   was found; otherwise the first `num_candidates_to_validate` of them by
   the Python slice, and no estimate left out is strictly cheaper per hour
   than one kept.
   */
  lemma CandidatesAreTopRanked(d: Destination, c: Settings, co: Collaborators)
    requires Valid(c)
    ensures |SampleStays(d, c, co)| == 0 ==> Candidates(d, c, co) == []
    ensures forall x :: x in Candidates(d, c, co) ==> x in Estimates(d, c, co)
    ensures var n, k := c.candidatesToValidate, |Estimates(d, c, co)|;
            |SampleStays(d, c, co)| > 0 ==>
              |Candidates(d, c, co)| == if n >= 0 then (if n < k then n else k) else (if k + n > 0 then k + n else 0)
    ensures forall e, x :: e in Estimates(d, c, co) && x in Candidates(d, c, co) && e.costPerHour < x.costPerHour ==>
              e in Candidates(d, c, co)
  {
    var obs := co.prices(c.origin, d.id, c.startDay);
    var rets := co.prices(d.id, c.origin, c.startDay);
    var trips := GenerateTrips(obs, rets, MaxNights(c.maxTripDays));
    var samples := SampleStays(d, c, co);
    if |obs| == 0 || |rets| == 0 || |trips| == 0 {
      assert |trips| == 0;
      assert Estimates(d, c, co) == [];
    } else if |samples| > 0 {
      assert Candidates(d, c, co) == Take(Rank(trips, samples, BuildCache(samples, co.calendar), c), c.candidatesToValidate);
      TopOfRanked(trips, samples, BuildCache(samples, co.calendar), c, c.candidatesToValidate);
    }
  }

  /** The first `n` ranked estimates, by the Python slice, are the best of all the estimates. */
  lemma TopOfRanked(trips: seq<Trip>, samples: seq<DurationSample>, cache: CalendarCache, c: Settings, n: int)
    requires Valid(c)
    ensures var top, es := Take(Rank(trips, samples, cache, c), n), EstimateAll(trips, samples, cache, c);
            && (forall x :: x in top ==> x in es)
            && |top| == |Take(es, n)|
            && forall e, x :: e in es && x in top && e.costPerHour < x.costPerHour ==> e in top
  {
    var ranked := Rank(trips, samples, cache, c);
    var es := EstimateAll(trips, samples, cache, c);
    assert |multiset(ranked)| == |multiset(es)|;
    forall e | e in es ensures e in ranked {
      assert e in multiset(es);
    }
    forall x | x in ranked ensures x in es {
      assert x in multiset(ranked);
    }
    TakeKeepsSmaller(ranked, n, CostPerHour);
  }

  /**
   With trips of at most one day no stay length is sampled, so the
   destination is skipped before any trip is estimated and nothing is
   stored for it, whatever the buffer.
   */
  lemma DayTripsOnlyStoreNothing(store: ResultStore, d: Destination, c: Settings, co: Collaborators)
    requires Valid(c) && c.maxTripDays <= 1
    ensures Candidates(d, c, co) == []
    ensures ProcessDestination(store, d, c, co) == store
  {
    assert SampleStays(d, c, co) == [];
  }

  /** Phase 6: the candidates the validation loop examines, and the ones it confirms. */
  function Search(d: Destination, c: Settings, co: Collaborators): (r: seq<ConfirmedTrip>)
    requires Valid(c)
    ensures |r| <= |Candidates(d, c, co)|
    ensures forall t :: t in r ==> exists e :: e in Candidates(d, c, co) && ConfirmTrip(e, d, co.flights, c) == Some(t)
  {
    var top := Candidates(d, c, co);
    var examined := top[..StopIndex(top, d, co.flights, c)];
    ConfirmedTripsQualify(examined, d, co.flights, c);
    assert forall i :: 0 <= i < |examined| ==> examined[i] in top;
    ConfirmAll(examined, d, co.flights, c)
  }

  /**
   Phase 6 as the engine runs it: the validation loop over the destination's
   top candidates yields exactly the search's confirmed trips.
   */
  method SearchDestination(d: Destination, c: Settings, co: Collaborators) returns (confirmed: seq<ConfirmedTrip>)
    requires Valid(c)
    ensures confirmed == Search(d, c, co)
  {
    var top := Candidates(d, c, co);
    var best, examined;
    confirmed, best, examined := Validate(top, d, co.flights, c);
  }

  /** A prefix of a sorted list is sorted. */
  lemma PrefixSorted<T>(s: seq<T>, n: nat, key: T -> real)
    requires SortedBy(s, key) && n <= |s|
    ensures SortedBy(s[..n], key)
  {
    assert forall i :: 0 <= i < n ==> s[..n][i] == s[i];
  }

  /**
   The candidates are ranked best estimate first, and each is a generated
   trip within the trip-length cap with enough rough hours.
   */
  lemma CandidatesQualify(d: Destination, c: Settings, co: Collaborators)
    requires Valid(c)
    ensures SortedBy(Candidates(d, c, co), CostPerHour)
    ensures forall e :: e in Candidates(d, c, co) ==>
              && WellFormed(e.trip, MaxNights(c.maxTripDays))
              && RoughHours(e.trip.nights, c.window) >= c.minHours
              && RoughHours(e.trip.nights, c.window) > 0.0
  {
    var obs := co.prices(c.origin, d.id, c.startDay);
    var rets := co.prices(d.id, c.origin, c.startDay);
    var maxNights := MaxNights(c.maxTripDays);
    var trips := GenerateTrips(obs, rets, maxNights);
    var samples := CollectSamples(CommonDurations(maxNights), n => co.lodging(d.name, c.startDay, c.startDay + n));
    if |obs| > 0 && |rets| > 0 && |trips| > 0 && |samples| > 0 {
      var ranked := Rank(trips, samples, BuildCache(samples, co.calendar), c);
      var top := Take(ranked, c.candidatesToValidate);
      assert top == Candidates(d, c, co);
      PrefixSorted(ranked, |top|, CostPerHour);
      assert top == ranked[..|top|];
      RankedTripsQualify(trips, samples, BuildCache(samples, co.calendar), c);
      forall e | e in top ensures e in ranked {
        var i :| 0 <= i < |top| && top[i] == e;
        assert ranked[i] == e;
      }
    }
  }

  /**
   Every trip the search confirms is for this destination, has enough exact
   hours, more than zero of them, and its stated cost per hour.
   */
  lemma SearchQualifies(d: Destination, c: Settings, co: Collaborators)
    requires Valid(c)
    ensures forall t :: t in Search(d, c, co) ==>
              && t.destination == d.name
              && t.hours >= c.minHours && t.hours > 0.0
              && t.costPerHour == t.totalCost / t.hours
  {
    var top := Candidates(d, c, co);
    var examined := top[..StopIndex(top, d, co.flights, c)];
    ConfirmedTripsQualify(examined, d, co.flights, c);
  }

  /** The entry written for a destination, as the results file holds it. */
  predicate GoodEntry(ts: seq<ConfirmedTrip>, name: string, c: Settings) {
    && SortedBy(ts, ConfirmedCostPerHour)
    && (c.resultsToStore >= 0 ==> |ts| <= c.resultsToStore)
    && forall t :: t in ts ==> t.destination == name && t.hours >= c.minHours && t.hours > 0.0
  }

  /**
   Writing a destination's confirmed trips: nothing when there are none;
   otherwise they are sorted by exact cost per hour and sliced to the number
   of results to keep, Python-style.
   */
  function StoreConfirmed(store: ResultStore, name: string, confirmed: seq<ConfirmedTrip>, keep: int): (r: ResultStore)
    ensures |confirmed| == 0 ==> r == store
    ensures |confirmed| > 0 ==> r.Keys == store.Keys + {name}
    ensures forall n :: n in store && n != name ==> n in r && r[n] == store[n]
    ensures |confirmed| > 0 ==> SortedBy(r[name], ConfirmedCostPerHour)
    ensures |confirmed| > 0 ==> forall t :: t in r[name] ==> t in confirmed
    ensures |confirmed| > 0 && keep >= 0 ==> |r[name]| == (if keep < |confirmed| then keep else |confirmed|)
  {
    if |confirmed| == 0 then store
    else
      var kept := Take(SortBy(confirmed, ConfirmedCostPerHour), keep);
      KeptAreSorted(confirmed, keep);
      store[name := kept]
  }

  /** Sorting keeps every trip, and the kept slice is sorted and holds only confirmed trips. */
  lemma KeptAreSorted(confirmed: seq<ConfirmedTrip>, keep: int)
    ensures SortedBy(Take(SortBy(confirmed, ConfirmedCostPerHour), keep), ConfirmedCostPerHour)
    ensures forall t :: t in Take(SortBy(confirmed, ConfirmedCostPerHour), keep) ==> t in confirmed
    ensures |SortBy(confirmed, ConfirmedCostPerHour)| == |confirmed|
  {
    var sorted := SortBy(confirmed, ConfirmedCostPerHour);
    SortByCorrect(confirmed, ConfirmedCostPerHour);
    var kept := Take(sorted, keep);
    PrefixSorted(sorted, |kept|, ConfirmedCostPerHour);
    assert kept == sorted[..|kept|];
    assert forall t :: t in kept ==> t in multiset(sorted);
    assert |multiset(sorted)| == |multiset(confirmed)|;
  }

  /**
   The slice keeps the best: a confirmed trip strictly cheaper per hour
   than some stored one is stored too, and trips of equal cost per hour are
   kept in confirmation order.
   */
  lemma StoredAreBest(store: ResultStore, name: string, confirmed: seq<ConfirmedTrip>, keep: int)
    requires |confirmed| > 0
    ensures var kept := StoreConfirmed(store, name, confirmed, keep)[name];
            forall i, t :: 0 <= i < |kept| && t in confirmed && t.costPerHour < kept[i].costPerHour ==> t in kept
    ensures var kept := StoreConfirmed(store, name, confirmed, keep)[name];
            forall k :: WithKey(kept, ConfirmedCostPerHour, k) <= WithKey(confirmed, ConfirmedCostPerHour, k)
  {
    var sorted := SortBy(confirmed, ConfirmedCostPerHour);
    SortByCorrect(confirmed, ConfirmedCostPerHour);
    var kept := Take(sorted, keep);
    assert kept == StoreConfirmed(store, name, confirmed, keep)[name];
    TakeKeepsSmaller(sorted, keep, ConfirmedCostPerHour);
    forall t | t in confirmed ensures t in sorted {
      assert t in multiset(confirmed);
    }
    forall k ensures WithKey(kept, ConfirmedCostPerHour, k) <= WithKey(confirmed, ConfirmedCostPerHour, k) {
      WithKeyOfPrefix(sorted, |kept|, ConfirmedCostPerHour, k);
      assert sorted[..|kept|] == kept;
    }
  }

  /** The elements of one key in a prefix are a prefix of that key's elements. */
  lemma {:induction false} WithKeyOfPrefix<T>(s: seq<T>, n: nat, key: T -> real, k: real)
    requires n <= |s|
    ensures WithKey(s[..n], key, k) <= WithKey(s, key, k)
  {
    if n < |s| {
      var init := s[..|s| - 1];
      assert init[..n] == s[..n];
      WithKeyOfPrefix(init, n, key, k);
    } else {
      assert s[..n] == s;
    }
  }

  /** One configured city: skipped when already stored, else searched and stored. */
  function ProcessDestination(store: ResultStore, d: Destination, c: Settings, co: Collaborators): (r: ResultStore)
    requires Valid(c)
    ensures d.name in store ==> r == store
    ensures r.Keys <= store.Keys + {d.name}
    ensures forall n :: n in store ==> n in r && r[n] == store[n]
  {
    if d.name in store then store
    else StoreConfirmed(store, d.name, Search(d, c, co), c.resultsToStore)
  }

  /**
   A newly written entry is sorted, no longer than asked for, and holds
   only trips the search confirmed for the destination.
   */
  lemma NewEntryIsGood(store: ResultStore, d: Destination, c: Settings, co: Collaborators)
    requires Valid(c) && d.name !in store
    ensures d.name in ProcessDestination(store, d, c, co) <==> |Search(d, c, co)| > 0
    ensures d.name in ProcessDestination(store, d, c, co) ==> GoodEntry(ProcessDestination(store, d, c, co)[d.name], d.name, c)
    ensures d.name in ProcessDestination(store, d, c, co) ==>
              forall t :: t in ProcessDestination(store, d, c, co)[d.name] ==> t in Search(d, c, co)
  {
    SearchQualifies(d, c, co);
    StoredEntryIsGood(store, d.name, Search(d, c, co), c);
  }

  /** Storing trips that qualify for `name` writes a good entry for it. */
  lemma StoredEntryIsGood(store: ResultStore, name: string, confirmed: seq<ConfirmedTrip>, c: Settings)
    requires name !in store
    requires forall t :: t in confirmed ==> t.destination == name && t.hours >= c.minHours && t.hours > 0.0
    ensures name in StoreConfirmed(store, name, confirmed, c.resultsToStore) <==> |confirmed| > 0
    ensures name in StoreConfirmed(store, name, confirmed, c.resultsToStore) ==>
              GoodEntry(StoreConfirmed(store, name, confirmed, c.resultsToStore)[name], name, c)
  {
    var r := StoreConfirmed(store, name, confirmed, c.resultsToStore);
    if |confirmed| > 0 {
      assert forall t :: t in r[name] ==> t in confirmed;
    }
  }

  /**
   With the same collaborators, processing a destination a second time
   changes nothing: either it is now stored and skipped, or the search
   comes up empty again.
   */
  lemma ProcessDestinationIdempotent(store: ResultStore, d: Destination, c: Settings, co: Collaborators)
    requires Valid(c)
    ensures ProcessDestination(ProcessDestination(store, d, c, co), d, c, co) == ProcessDestination(store, d, c, co)
  {
    if d.name !in store {
      NewEntryIsGood(store, d, c, co);
    }
  }

  /** A country's cities in configuration order. */
  function ProcessCities(store: ResultStore, cities: seq<Destination>, c: Settings, co: Collaborators): (r: ResultStore)
    requires Valid(c)
    ensures forall n :: n in store ==> n in r && r[n] == store[n]
    ensures forall n :: n in r ==> n in store || exists i :: 0 <= i < |cities| && cities[i].name == n
  {
    if |cities| == 0 then store
    else
      var before := ProcessCities(store, cities[..|cities| - 1], c, co);
      assert forall i :: 0 <= i < |cities| - 1 ==> cities[..|cities| - 1][i] == cities[i];
      ProcessDestination(before, cities[|cities| - 1], c, co)
  }

  /** The whole run: every enabled country in configuration order; disabled ones are passed over. */
  function ProcessCountries(store: ResultStore, countries: seq<Country>, c: Settings, co: Collaborators): (r: ResultStore)
    requires Valid(c)
    ensures forall n :: n in store ==> n in r && r[n] == store[n]
  {
    if |countries| == 0 then store
    else
      var before := ProcessCountries(store, countries[..|countries| - 1], c, co);
      var last := countries[|countries| - 1];
      if last.enabled then ProcessCities(before, last.cities, c, co) else before
  }

  /** `ts` holds only trips the search confirmed for one of `cities` named `n`. */
  predicate FoundFor(ts: seq<ConfirmedTrip>, n: string, cities: seq<Destination>, c: Settings, co: Collaborators)
    requires Valid(c)
  {
    exists d :: d in cities && d.name == n && forall t :: t in ts ==> t in Search(d, c, co)
  }

  /**
   Every entry a country's cities add is good for its destination and made
   of trips the search confirmed for a city of that name.
   */
  lemma {:induction false} CitiesAddGoodEntries(store: ResultStore, cities: seq<Destination>, c: Settings, co: Collaborators)
    requires Valid(c)
    ensures forall n :: n in ProcessCities(store, cities, c, co) && n !in store ==>
              GoodEntry(ProcessCities(store, cities, c, co)[n], n, c)
    ensures forall n :: n in ProcessCities(store, cities, c, co) && n !in store ==>
              FoundFor(ProcessCities(store, cities, c, co)[n], n, cities, c, co)
  {
    if |cities| > 0 {
      var init := cities[..|cities| - 1];
      var d := cities[|cities| - 1];
      var before := ProcessCities(store, init, c, co);
      var r := ProcessCities(store, cities, c, co);
      assert r == ProcessDestination(before, d, c, co);
      CitiesAddGoodEntries(store, init, c, co);
      if d.name !in before {
        NewEntryIsGood(before, d, c, co);
      }
      forall n | n in r && n !in store ensures FoundFor(r[n], n, cities, c, co) {
        if n in before {
          var x :| x in init && x.name == n && forall t :: t in before[n] ==> t in Search(x, c, co);
          assert x in cities;
        } else {
          assert d in cities;
        }
      }
    }
  }

  /** `ts` holds only trips the search confirmed for a city of that name in an enabled country. */
  predicate FoundInRun(ts: seq<ConfirmedTrip>, n: string, countries: seq<Country>, c: Settings, co: Collaborators)
    requires Valid(c)
  {
    exists k :: 0 <= k < |countries| && countries[k].enabled && FoundFor(ts, n, countries[k].cities, c, co)
  }

  /**
   A run never rewrites a stored destination, and every destination it
   adds holds a good entry: sorted by exact cost per hour, truncated to the
   number of results to keep, and made of trips the validation loop
   confirmed for a city of that name in an enabled country.
   */
  lemma {:induction false} RunAddsGoodEntries(store: ResultStore, countries: seq<Country>, c: Settings, co: Collaborators)
    requires Valid(c)
    ensures forall n :: n in ProcessCountries(store, countries, c, co) && n !in store ==>
              GoodEntry(ProcessCountries(store, countries, c, co)[n], n, c)
    ensures forall n :: n in ProcessCountries(store, countries, c, co) && n !in store ==>
              FoundInRun(ProcessCountries(store, countries, c, co)[n], n, countries, c, co)
  {
    if |countries| > 0 {
      var init := countries[..|countries| - 1];
      var last := countries[|countries| - 1];
      var before := ProcessCountries(store, init, c, co);
      var r := ProcessCountries(store, countries, c, co);
      RunAddsGoodEntries(store, init, c, co);
      if last.enabled {
        CitiesAddGoodEntries(before, last.cities, c, co);
      }
      forall n | n in r && n !in store ensures FoundInRun(r[n], n, countries, c, co) {
        if n in before {
          var k :| 0 <= k < |init| && init[k].enabled && FoundFor(before[n], n, init[k].cities, c, co);
          assert countries[k] == init[k];
        } else {
          assert countries[|countries| - 1] == last;
        }
      }
    }
  }

  /** Disabled countries contribute nothing. */
  lemma {:induction false} DisabledCountriesIgnored(store: ResultStore, countries: seq<Country>, c: Settings, co: Collaborators)
    requires Valid(c)
    requires forall i :: 0 <= i < |countries| ==> !countries[i].enabled
    ensures ProcessCountries(store, countries, c, co) == store
  {
    if |countries| > 0 {
      DisabledCountriesIgnored(store, countries[..|countries| - 1], c, co);
    }
  }
}
