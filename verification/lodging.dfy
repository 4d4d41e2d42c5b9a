/**
 The lodging matcher: sampled lodging searches for a few fixed stay lengths,
 the calendar cache keyed by listing link, and the choice of one listing
 for a trip's exact nights.
 */
module Lodging {
  import opened Wrappers
  import opened Trips

  /** One scraped listing; the link is its identity. */
  datatype Listing = Listing(name: string, cost: real, link: string)

  /** What a trip sleeps in: nothing for a day trip, or one listing. */
  datatype Accommodation = DayTrip | Stay(listing: Listing) {
    /** `total_accommodation_cost`, 0 for the day-trip placeholder. */
    function Cost(): real {
      match this
      case DayTrip => 0.0
      case Stay(l) => l.cost
    }
  }

  /** Day number to "bookable that night"; a missing day is unknown. */
  type Calendar = map<int, bool>

  /** Calendars by listing link. */
  type CalendarCache = map<string, Calendar>

  /** The cheapest-first listings one sampled search returned. */
  datatype DurationSample = DurationSample(nights: int, listings: seq<Listing>)

  /** The stay lengths that are searched once per destination. */
  const SampleDurations: seq<int> := [1, 2, 3, 5, 7, 10, 14]

  predicate StrictlyAscending(s: seq<int>) {
    forall i, j :: 0 <= i < j < |s| ==> s[i] < s[j]
  }

  /** `[d for d in SampleDurations if d <= maxNights]`. */
  function DurationsUpTo(ds: seq<int>, maxNights: int): (r: seq<int>)
    ensures forall d :: d in r <==> d in ds && d <= maxNights
    ensures StrictlyAscending(ds) ==> StrictlyAscending(r)
  {
    if |ds| == 0 then []
    else
      var init := ds[..|ds| - 1];
      var d := ds[|ds| - 1];
      var rest := DurationsUpTo(init, maxNights);
      assert forall e :: e in ds <==> e in init || e == d;
      assert StrictlyAscending(ds) ==> StrictlyAscending(init) && forall e :: e in init ==> e < d;
      if d <= maxNights then
        AppendAscending(rest, d);
        rest + [d]
      else rest
  }

  lemma AppendAscending(s: seq<int>, x: int)
    ensures StrictlyAscending(s) && (forall e :: e in s ==> e < x) ==> StrictlyAscending(s + [x])
  {
    var r := s + [x];
    if StrictlyAscending(s) && (forall e :: e in s ==> e < x) {
    forall i, j | 0 <= i < j < |r| ensures r[i] < r[j] {
      assert r[i] == s[i];
      if j == |s| {
        assert s[i] in s;
      } else {
        assert r[j] == s[j];
      }
    }
    }
  }

  function CommonDurations(maxNights: int): (r: seq<int>)
    ensures forall d :: d in r <==> d in SampleDurations && d <= maxNights
    ensures StrictlyAscending(r)
    ensures maxNights < 1 ==> r == []
  {
    var r := DurationsUpTo(SampleDurations, maxNights);
    assert |r| > 0 ==> r[0] in r;
    r
  }

  /**
   Phase 3's dictionary: one entry per sampled duration whose search found
   something, in search order.
   */
  function CollectSamples(durations: seq<int>, search: int -> seq<Listing>): (r: seq<DurationSample>)
    ensures forall k :: 0 <= k < |r| ==> |r[k].listings| > 0 && r[k].listings == search(r[k].nights)
    ensures forall k :: 0 <= k < |r| ==> r[k].nights in durations
  {
    if |durations| == 0 then []
    else
      var init := durations[..|durations| - 1];
      var d := durations[|durations| - 1];
      var rest := CollectSamples(init, search);
      assert forall e :: e in init ==> e in durations;
      if |search(d)| > 0 then rest + [DurationSample(d, search(d))] else rest
  }

  /** Every duration whose search found listings has an entry. */
  lemma {:induction false} CollectSamplesComplete(durations: seq<int>, search: int -> seq<Listing>, d: int)
    requires d in durations && |search(d)| > 0
    ensures exists k :: 0 <= k < |CollectSamples(durations, search)| && CollectSamples(durations, search)[k].nights == d
  {
    var init := durations[..|durations| - 1];
    var rest := CollectSamples(init, search);
    if d == durations[|durations| - 1] {
      assert CollectSamples(durations, search)[|rest|].nights == d;
    } else {
      assert d in init;
      CollectSamplesComplete(init, search, d);
      var k :| 0 <= k < |rest| && rest[k].nights == d;
      assert CollectSamples(durations, search)[k] == rest[k];
    }
  }

  predicate NightsAscending(samples: seq<DurationSample>) {
    forall i, j :: 0 <= i < j < |samples| ==> samples[i].nights < samples[j].nights
  }

  /** Entries keep the ascending order of the searched durations. */
  lemma {:induction false} CollectSamplesAscending(durations: seq<int>, search: int -> seq<Listing>)
    requires StrictlyAscending(durations)
    ensures NightsAscending(CollectSamples(durations, search))
  {
    if |durations| > 0 {
      var init := durations[..|durations| - 1];
      var d := durations[|durations| - 1];
      assert StrictlyAscending(init);
      CollectSamplesAscending(init, search);
      var rest := CollectSamples(init, search);
      assert forall k :: 0 <= k < |rest| ==> rest[k].nights < d by {
        forall k | 0 <= k < |rest| ensures rest[k].nights < d {
          var e := rest[k].nights;
          assert e in init;
          var p :| 0 <= p < |init| && init[p] == e;
          assert durations[p] == e;
        }
      }
      var r := CollectSamples(durations, search);
      if |search(d)| > 0 {
        assert r == rest + [DurationSample(d, search(d))];
        forall i, j | 0 <= i < j < |r| ensures r[i].nights < r[j].nights {
          assert r[i] == rest[i];
          assert rest[i].nights < d;
          if j < |rest| {
            assert r[j] == rest[j];
            assert rest[i].nights < rest[j].nights;
          } else {
            assert r[j].nights == d;
          }
        }
      }
    }
  }

  /** Every listing link in the samples: the calendars phase 4 fetches. */
  function Links(samples: seq<DurationSample>): set<string> {
    set k, i | 0 <= k < |samples| && 0 <= i < |samples[k].listings| :: samples[k].listings[i].link
  }

  /**
   Phase 4: one calendar per distinct link; an empty calendar stands for a
   failed scan.
   */
  function BuildCache(samples: seq<DurationSample>, fetch: string -> Calendar): (c: CalendarCache)
    ensures c.Keys == Links(samples)
    ensures forall l :: l in c ==> c[l] == fetch(l)
  {
    map l | l in Links(samples) :: fetch(l)
  }

  /** Every night of [from, to) is known and bookable. */
  predicate NightsFree(cal: Calendar, from: int, to: int) {
    forall d :: from <= d < to ==> d in cal && cal[d]
  }

  /**
   The engine's day-by-day calendar scan from `day` up to `to`, stopping at the first
   night that is missing or booked.
   */
  function ScanNights(cal: Calendar, day: int, to: int): (ok: bool)
    decreases to - day
    ensures ok <==> NightsFree(cal, day, to)
  {
    if day >= to then true
    else if !(day in cal && cal[day]) then false
    else ScanNights(cal, day + 1, to)
  }

  /**
   A listing can host the stay when the cache holds a non-empty calendar
   for its link and every night of the stay is free in it.
   */
  predicate Bookable(l: Listing, cache: CalendarCache, from: int, to: int) {
    l.link in cache && |cache[l.link]| > 0 && NightsFree(cache[l.link], from, to)
  }

  function IsBookable(l: Listing, cache: CalendarCache, from: int, to: int): (ok: bool)
    ensures ok <==> Bookable(l, cache, from, to)
  {
    l.link in cache && |cache[l.link]| > 0 && ScanNights(cache[l.link], from, to)
  }

  /** The position of the first bookable listing, or None when none is. */
  function FirstBookable(ls: seq<Listing>, cache: CalendarCache, from: int, to: int): (r: Option<nat>)
    ensures r.Some? ==> r.value < |ls| && Bookable(ls[r.value], cache, from, to)
    ensures r.Some? ==> forall j :: 0 <= j < r.value ==> !Bookable(ls[j], cache, from, to)
    ensures r.None? ==> forall j :: 0 <= j < |ls| ==> !Bookable(ls[j], cache, from, to)
  {
    if |ls| == 0 then None
    else if IsBookable(ls[0], cache, from, to) then Some(0)
    else
      match FirstBookable(ls[1..], cache, from, to)
      case None => None
      case Some(i) => Some(i + 1)
  }

  function Distance(d: int, n: int): nat {
    if d >= n then d - n else n - d
  }

  /**
   `min(keys, key=lambda d: abs(d - n))`: the position of the first sample
   whose duration is nearest to `n`.
   */
  function Nearest(samples: seq<DurationSample>, n: int): (k: nat)
    requires |samples| > 0
    ensures k < |samples|
    ensures forall j :: 0 <= j < |samples| ==> Distance(samples[k].nights, n) <= Distance(samples[j].nights, n)
    ensures forall j :: 0 <= j < k ==> Distance(samples[j].nights, n) > Distance(samples[k].nights, n)
  {
    if |samples| == 1 then 0
    else
      var i := Nearest(samples[..|samples| - 1], n);
      var last := |samples| - 1;
      assert samples[i] == samples[..|samples| - 1][i];
      assert forall j :: 0 <= j < last ==> samples[j] == samples[..|samples| - 1][j];
      if Distance(samples[last].nights, n) < Distance(samples[i].nights, n) then last else i
  }

  /**
   The trip's accommodation: the day-trip placeholder for no nights; else
   the first listing of the nearest sampled duration that is free for every
   night of the stay; None (the trip is dropped) when there is none.
   */
  function MatchLodging(t: Trip, samples: seq<DurationSample>, cache: CalendarCache): (r: Option<Accommodation>)
    ensures t.nights <= 0 ==> r == Some(DayTrip)
    ensures t.nights > 0 && |samples| == 0 ==> r.None?
    ensures t.nights > 0 && |samples| > 0 ==>
              var ls := samples[Nearest(samples, t.nights)].listings;
              && (r.None? <==> forall j :: 0 <= j < |ls| ==> !Bookable(ls[j], cache, t.outbound, t.ret))
              && (r.Some? ==> exists i :: 0 <= i < |ls| && r.value == Stay(ls[i])
                                && Bookable(ls[i], cache, t.outbound, t.ret)
                                && forall j :: 0 <= j < i ==> !Bookable(ls[j], cache, t.outbound, t.ret))
  {
    if t.nights > 0 then
      if |samples| == 0 then None
      else
        var ls := samples[Nearest(samples, t.nights)].listings;
        match FirstBookable(ls, cache, t.outbound, t.ret)
        case None => None
        case Some(i) => Some(Stay(ls[i]))
    else Some(DayTrip)
  }

  /**
   On a tie in distance the smaller sampled duration wins, because samples
   come in ascending duration order.
   */
  lemma NearestPrefersShorter(samples: seq<DurationSample>, n: int)
    requires |samples| > 0
    requires NightsAscending(samples)
    ensures forall j :: 0 <= j < |samples| && Distance(samples[j].nights, n) == Distance(samples[Nearest(samples, n)].nights, n) ==>
              samples[Nearest(samples, n)].nights <= samples[j].nights
  {
  }

  predicate CheapestFirst(ls: seq<Listing>) {
    forall i, j :: 0 <= i < j < |ls| ==> ls[i].cost <= ls[j].cost
  }

  /**
   With the searches' cheapest-first lists, the matched listing is the
   cheapest listing of the nearest duration that is free for the stay.
   */
  lemma MatchIsCheapestFree(t: Trip, samples: seq<DurationSample>, cache: CalendarCache)
    requires t.nights > 0 && |samples| > 0
    requires forall k :: 0 <= k < |samples| ==> CheapestFirst(samples[k].listings)
    requires MatchLodging(t, samples, cache).Some?
    ensures var ls := samples[Nearest(samples, t.nights)].listings;
            forall j :: 0 <= j < |ls| && Bookable(ls[j], cache, t.outbound, t.ret) ==>
              MatchLodging(t, samples, cache).value.Cost() <= ls[j].cost
  {
    var ls := samples[Nearest(samples, t.nights)].listings;
    var i :| 0 <= i < |ls| && MatchLodging(t, samples, cache).value == Stay(ls[i])
             && forall j :: 0 <= j < i ==> !Bookable(ls[j], cache, t.outbound, t.ret);
    assert CheapestFirst(ls);
  }
}
