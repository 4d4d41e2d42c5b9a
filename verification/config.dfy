/** The search parameters the engine reads from its configuration. */
module Config {
  import opened Exploration

  /**
   `max_trip_duration_days`, `min_exploration_hours`, the day window and
   airport buffer, `num_candidates_to_validate`, `num_final_results_to_store`,
   the origin city and the first searched day.
   */
  datatype Settings = Settings(
    maxTripDays: int,
    minHours: real,
    window: DayWindow,
    candidatesToValidate: int,
    resultsToStore: int,
    origin: string,
    startDay: int)

  /** A configured city: the id the flight site knows it by, and its display name. */
  datatype Destination = Destination(id: string, name: string)

  /** A configured country: only enabled ones are searched. */
  datatype Country = Country(enabled: bool, cities: seq<Destination>)

  predicate Valid(c: Settings) {
    ValidWindow(c.window)
  }
}
