/** The mine record the dashboard keeps for every site it shows. */
module Mines {

  /** A monitored mine. `coordinates` is `[longitude, latitude]`; `status`
      and `color` are display labels; `ph`, `lead` and `pm25` are the live
      readings and `riskScore` the 0-100 index derived from them. */
  datatype Mine = Mine(
    id: int,
    coordinates: seq<real>,
    location: string,
    county: string,
    name: string,
    status: string,
    ph: real,
    lead: real,
    pm25: real,
    riskScore: int,
    color: string,
    initialDaysOffset: real)

  /** The readings lie within the bounds every writer clamps them to. */
  predicate InBounds(m: Mine) {
    2.0 <= m.ph <= 10.0 && 0.0 <= m.lead <= 300.0 && 0.0 <= m.pm25 <= 200.0
    && 0 <= m.riskScore <= 100
  }
}
