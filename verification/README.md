# EU trip optimiser: a Dafny model of the trip-search engine

The engine searches, for each configured destination city, for the cheapest
trip per usable hour of sightseeing. Cities already in the results store are
skipped. For every other city the program runs six numbered phases:

1. It reads daily flight prices from the origin to the city and back.
2. It pairs every outbound day with every return day whose night count fits
   under the trip-length cap.
3. It searches lodging for a few fixed stay lengths.
4. It scans and caches the availability calendar of every listing found.
5. It estimates each trip's cost per hour. It assumes noon/noon flight times
   and matches the trip to the nearest sampled stay length and its first free
   listing. Trips with too few hours or no lodging are dropped. The rest are
   stable-sorted by estimate.
6. It validates the best candidates with exact flights and times. The loop
   stops as soon as an estimate can no longer beat the best confirmed cost
   per hour.

Finally, it stores the best few confirmed trips under the city's name.

The usable-hours calculator under all of this clips the time between landing
and take-off to a daily window and removes an airport buffer at each end.

This project models those phases as pure Dafny functions over immutable
datatypes, plus the validation loop as a method. Clock times are strings
parsed as `strptime("%H:%M")` parses them. Dates are integer day numbers.
Hours and money are exact `real`s. The scrapers are function-valued
parameters (`Results.Collaborators`, `Validation.FlightSearch`).

Files, one module each:

- `wrappers.dfy`: `Option` and `Bound` (a minimum that starts at +infinity).
- `clock.dfy`: time strings.
- `exploration.dfy`: usable hours, plus an independent continuous-clock measure.
- `trips.dfy`: phase 2.
- `lodging.dfy`: phases 3 and 4, and the lodging match of phase 5.
- `sorting.dfy`: the stable key sort and Python slicing.
- `config.dfy`: settings.
- `estimate.dfy`: phase 5's cost estimate and ranking.
- `validation.dfy`: phase 6's validation loop.
- `results.dfy`: skip, store and the whole run.

## Model

| member | source | states |
|---|---|---|
| Clock.ParseHourMinute | main_controller.py:52 | a parsed `%H:%M` time is a valid clock time (hour 0..23, minute 0..59) |
| Clock.BeforeFirstPlus | main_controller.py:51 | `split('+')[0]` is a prefix of the string, holds no '+', and is followed by '+' when shorter |
| Clock.ParseTime | main_controller.py:50-52 | the parsed time is valid; without a "+1" marker the string is parsed as it stands |
| Clock.ParseFormat | main_controller.py:50-52 | every valid time, written zero-padded as HH:MM, parses back to itself |
| Clock.NextDaySuffixIgnored | main_controller.py:51-55 | appending "+1" to a time string never changes the parsed time |
| Exploration.HoursBetween | main_controller.py:57-80 | the hours are never negative when the day window does not end before it starts |
| Exploration.HoursAtMostFullDays | main_controller.py:67-80 | a trip of n nights gets at most n + 1 full day windows of hours |
| Exploration.ExplorationHours | main_controller.py:41-84 | the hours are non-negative for a well-ordered window, and a time string strptime rejects gives 0.0 |
| Exploration.HoursMonotone | main_controller.py:62-80 | landing later or leaving earlier never adds hours |
| Exploration.NoonDayTripHasNoHours | main_controller.py:62-70 | with a non-negative buffer, the noon/noon placeholders give a day trip 0 hours |
| Exploration.DayTripExample | main_controller.py:67-70 | window 8-21, buffer 2, landing 10:00 and leaving 18:00 on the same day gives 4 hours |
| Exploration.TwoNightExample | main_controller.py:71-80 | the same window, landing 14:00 and leaving 10:00 two nights later, gives 5 + 0 + 13 = 18 hours |
| Exploration.HoursMatchTimeline | main_controller.py:57-80 | the formula equals the hours of the daily windows inside [arrival + buffer, departure − buffer] on one continuous clock, when the buffer does not push either end across a day boundary |
| Exploration.BufferCrossesMidnight | main_controller.py:62-80 | window 1-23, buffer 2, landing 23:30 and leaving 12:00 one night later: the formula gives 9 hours, the continuous clock 8.5 |
| Trips.PairTrip | main_controller.py:143-154 | a pair yields a trip exactly when both dates parse and 0 ≤ nights ≤ cap; the trip has nights = return − outbound and cost = sum of the two prices |
| Trips.PairsWith | main_controller.py:142-156 | one outbound day yields at most one trip per return price, all well formed and leaving on that day |
| Trips.GenerateTrips | main_controller.py:137-156 | at most (outbound prices) × (return prices) trips, each with nights = return − outbound within [0, max(0, days − 1)] |
| Trips.GeneratedFromPair | main_controller.py:141-154 | every generated trip is what some outbound/return pair yields |
| Trips.EveryPairGenerated | main_controller.py:141-154 | every pair that yields a trip has that trip generated |
| Trips.GeneratedDatePairsDistinct | flight_scraper.py:47-48 | with one price per day, no two trips share outbound and return days; this assumes the scraper's merge keyed by date string leaves one price per day, which holds only when no two date strings parse to the same day |
| Lodging.DurationsUpTo | main_controller.py:164 | the kept durations are exactly those at most the cap, in their ascending order |
| Lodging.CommonDurations | main_controller.py:163-164 | the durations searched are exactly those of 1, 2, 3, 5, 7, 10, 14 up to the night cap, ascending, and none when the cap is below one night |
| Lodging.CollectSamples | main_controller.py:170-179 | each entry is a searched duration with the non-empty listings its search returned |
| Lodging.CollectSamplesComplete | main_controller.py:178-179 | every duration whose search found listings has an entry |
| Lodging.CollectSamplesAscending | main_controller.py:167-179 | entries come in ascending duration order |
| Lodging.BuildCache | main_controller.py:189-202 | the cache holds one calendar for each distinct listing link, the one fetched for it |
| Lodging.ScanNights | main_controller.py:225-231 | the day-by-day scan succeeds exactly when every night of [outbound, return) is present and true |
| Lodging.IsBookable | main_controller.py:223-231 | a listing qualifies exactly when its cached calendar is non-empty and every night is free |
| Lodging.FirstBookable | main_controller.py:222-234 | the chosen listing is bookable and every listing before it is not; None means no listing is bookable |
| Lodging.Nearest | main_controller.py:220 | the chosen duration minimises the distance to the night count, and is the first that does |
| Lodging.NearestPrefersShorter | main_controller.py:220 | on a tie in distance the shorter sampled duration wins |
| Lodging.MatchLodging | main_controller.py:217-238 | a day trip gets the placeholder; otherwise the result is the first bookable listing of the nearest duration, or nothing when none is bookable |
| Lodging.MatchIsCheapestFree | airbnb_scraper.py:107-109 | with the cheapest-first listing lists, the match costs no more than any bookable listing of that duration |
| Sorting.SortByCorrect | main_controller.py:250 | the sort is ascending by key, a permutation of its input, and keeps equal keys in input order |
| Sorting.Take | main_controller.py:257 | `s[:n]` is a prefix of length min(n, len(s)) for n ≥ 0, and len(s) + n clipped at 0 for negative n |
| Sorting.TakeKeepsSmaller | main_controller.py:297 | slicing a sorted list never drops an element strictly better than one it keeps |
| Estimate.EstimateTrip | main_controller.py:210-248 | a trip is kept exactly when its rough hours reach the minimum, are above 0, and lodging matches; then cost = flight + lodging and cost per hour = cost / rough hours |
| Estimate.EstimateAll | main_controller.py:207-248 | every estimate is the estimate of one of the generated trips |
| Estimate.EstimateAllComplete | main_controller.py:210-248 | every trip that survives estimation is in the list |
| Estimate.EstimateAllKeepsOrder | main_controller.py:210-248 | estimation only drops trips: the estimates follow their trips' generation order |
| Estimate.Rank | main_controller.py:250 | the estimates sorted ascending by cost per hour, a permutation, with ties in the order of the estimate list, which is generation order (`Estimate.EstimateAllKeepsOrder`) |
| Estimate.RankedTripsQualify | main_controller.py:213-250 | every ranked trip is generated, has enough rough hours, more than 0, and cost = flight + lodging |
| Estimate.NoDayTripRanked | main_controller.py:213-244 | with a non-negative buffer no day trip is ever ranked |
| Validation.ConfirmTrip | main_controller.py:265-292 | a candidate confirms exactly when both flight searches found flights and the exact hours reach the minimum and are above 0; then cost = exact prices of the cheapest legs + lodging |
| Validation.ConfirmAll | main_controller.py:259-292 | no more trips are confirmed than candidates examined |
| Validation.ConfirmedTripsQualify | main_controller.py:275-292 | every confirmed trip comes from a candidate, has enough hours, more than 0, and its stated cost per hour |
| Validation.Best | main_controller.py:255 | the running best is +infinity exactly when nothing is confirmed, else the minimum confirmed cost per hour |
| Validation.StopIndex | main_controller.py:259-263 | the loop passes every candidate before the stop point and breaks at the first one not strictly below the best so far |
| Validation.Examine | main_controller.py:261-293 | one loop turn either breaks at the stop point or appends the candidate's confirmation and lowers the best |
| Validation.Validate | main_controller.py:254-293 | the loop examines exactly the candidates before the stop point, confirms what those confirm, and ends with their minimum |
| Validation.FirstCandidateExamined | main_controller.py:255-263 | the first candidate is always examined, because the best starts at +infinity |
| Validation.EarlyStopSound | main_controller.py:259-263 | when estimates never overrate a trip, stopping early loses no confirmable trip cheaper per hour than the best found |
| Results.Candidates | main_controller.py:128-257 | at most `num_candidates_to_validate` candidates reach validation; which ones is stated by `Results.CandidatesAreTopRanked` |
| Results.CandidatesAreTopRanked | main_controller.py:163-257 | no candidates when no sample stay was found; otherwise the candidates are drawn from the destination's estimates, as many as the Python slice `[:num_candidates_to_validate]` of the estimate list leaves, and no estimate left out is strictly cheaper per hour than a candidate |
| Results.TopOfRanked | main_controller.py:250-257 | the slice of the ranked estimates holds only estimates, has the slice length of the estimate list, and keeps every estimate strictly cheaper per hour than one it holds |
| Results.DayTripsOnlyStoreNothing | main_controller.py:163-186 | with `max_trip_duration_days` at most 1 no stay is sampled, so no candidate reaches validation and nothing is stored for the destination |
| Results.CandidatesQualify | main_controller.py:137-257 | the candidates are sorted by estimate, and each is a trip within the cap with enough rough hours |
| Results.Search | main_controller.py:253-293 | the trips the validation loop confirms among the destination's candidates: at most one per candidate, each the confirmation of a candidate |
| Results.SearchDestination | main_controller.py:253-293 | running `Validation.Validate` on the destination's candidates yields exactly `Results.Search` |
| Results.SearchQualifies | main_controller.py:259-292 | every trip found for a destination names it and has enough exact hours |
| Results.StoreConfirmed | main_controller.py:295-297 | nothing is written for no trips; otherwise only this name changes, and its entry is sorted, drawn from the trips and min(keep, number of trips) long |
| Results.StoredAreBest | main_controller.py:296-297 | the stored trips are the best: a trip strictly cheaper per hour than a stored one is stored, and ties keep their order |
| Results.ProcessDestination | main_controller.py:121-123 | a stored destination is skipped unchanged, and no existing entry is ever rewritten |
| Results.NewEntryIsGood | main_controller.py:295-302 | a new entry is written exactly when the search confirms trips, and is sorted, truncated, valid for the destination and made only of trips the search confirmed |
| Results.StoredEntryIsGood | main_controller.py:295-297 | storing trips that all qualify for a name not yet stored writes an entry exactly when there are trips, and that entry is sorted, truncated and valid for the name |
| Results.ProcessDestinationIdempotent | main_controller.py:121-123 | processing a destination twice is the same as once |
| Results.ProcessCities | main_controller.py:120-123 | the cities keep every existing entry and add entries only for their own names |
| Results.ProcessCountries | main_controller.py:116-123 | a run keeps every entry the results store started with |
| Results.CitiesAddGoodEntries | main_controller.py:120-302 | every entry a country's cities add is good for its destination and made of trips the search confirmed for a city of that name |
| Results.RunAddsGoodEntries | main_controller.py:116-302 | every entry a run adds is sorted, truncated, and made of trips the validation loop confirmed for a city of that name in an enabled country |
| Results.DisabledCountriesIgnored | main_controller.py:116-118 | disabled countries add nothing |

Behaviour of the code worth knowing:

- `main` calls the price scrapers (main_controller.py:128-129) with no
  `try`. A scraper that raises after its retries (flight_scraper.py:79-80)
  therefore ends the whole run, not just the current destination. The
  scrapers are modelled as total functions, so this does not appear.
- A "+1" next-day marker does not change the arithmetic at all. The flag
  `parse_time` returns is discarded, and the night count alone decides the
  day offset (`Clock.NextDaySuffixIgnored`).
- `num_final_results_to_store` is used as a Python slice bound. A zero or
  negative value stores an empty (or shortened) list. The destination then
  counts as processed and is skipped by later runs (`Sorting.Take`,
  `Results.StoreConfirmed`).
- A destination is skipped when no sample stay is found
  (main_controller.py:184-186). With `max_trip_duration_days` at most 1
  there are no durations to sample (main_controller.py:164), so a
  day-trips-only configuration never stores anything, whatever the buffer
  (`Results.DayTripsOnlyStoreNothing`).
- The hours formula trusts that the buffered arrival stays on the arrival
  day. A late landing whose buffer crosses midnight still gets the
  departure day's window counted from its opening hour, so the formula can
  overcount (`Exploration.BufferCrossesMidnight`). When the buffer stays
  within the day, the formula matches the continuous clock
  (`Exploration.HoursMatchTimeline`).

## Left out

- Browser scraping (flight calendars, lodging search, listing calendars) is not modelled. It is replaced by the pure functions in `Results.Collaborators`. A scraper that raises, times out or is non-deterministic is not modelled.
- The LLM-backed exact-flight extraction is not modelled. It is replaced by `Validation.FlightSearch`, which returns the flights cheapest first. Any field of a flight may be absent, and an absent price counts as 0.
- `api_handler.py`'s rotating client and `api_client.py`'s HTTP call and JSON extraction are not part of this model.
- Not modelled: config loading and its defaults, logging, reading and writing the results JSON file, and the final printout. These are I/O. The settings arrive as `Config.Settings`, and the store as a map.
- The start-date parse, with its fallback to tomorrow, is not modelled. That needs the system clock. `Config.Settings.startDay` is the day it yields.
- Date strings (`%Y-%m-%d`) are not modelled. They are integer day numbers, and an unparseable date is `None` (`Trips.PricePoint`). Calendar keys are day numbers too.
- The day window's hours must lie in 0..23 (`Exploration.ValidWindow`). This is because `time_obj(h, 0)` sits outside the `try` and raises for any other value, and that crash is not modelled.
- `round(x, 2)` on stored and returned hours and costs is treated as the identity. Float arithmetic is exact `real` arithmetic.
- `float('inf')` is not used. The zero-hours guard is explicit, and the running best is `Wrappers.Bound`.
- Non-string flight times (the `TypeError` path) are not modelled: times are always strings. strptime's acceptance of non-ASCII Unicode digits is also not modelled; only '0'..'9' are digits.
- Exploration.ExplorationHours: states non-negativity and the 0.0 error result, but not the formula itself. The formula and its bounds are stated on `Exploration.HoursBetween`, `Exploration.HoursAtMostFullDays` and `Exploration.HoursMatchTimeline`.
- Validation.ConfirmAll: states only the length bound. What each confirmed trip satisfies is `Validation.ConfirmedTripsQualify`.
- The cap of three listings per lodging search and their cheapest-first order are not imposed on the inputs. The cheapest-first order is assumed only where it matters (`Lodging.MatchIsCheapestFree`).
- The calendar scan's month count (`airbnb_calendar_months_to_scan`) is not modelled. It only steers the scraper.
