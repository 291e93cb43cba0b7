/** The weather provider behind `axios.get` (`controllers/weather.controller.js`,
    lines 41-45). The URL it is called with is built from the normalised city,
    the unit and the number of days; here the provider is a fixed function of
    those three values, and a ghost log records each call. */
module Upstream {
  import opened CustomError

  /** What the handler passes to the provider, unchanged. */
  datatype WeatherQuery = WeatherQuery(city: string, unit: string, days: string)

  /** The body the provider sent, as the JSON text it is cached as. The
      serialisation of any value is a non-empty text (`null`, `""`, `{}`, …),
      so a payload is never the empty string. */
  type Payload = s: string | s != "" witness "null"

  /** A successful response carries the payload; a failed one the error that
      was thrown. */
  datatype FetchOutcome = Fetched(payload: Payload) | FetchFailed(error: AppError)

  class WeatherApi {
    /** How the provider answers each query. */
    const respond: WeatherQuery -> FetchOutcome
    /** Every query sent so far, oldest first. */
    ghost var calls: seq<WeatherQuery>

    constructor (respond: WeatherQuery -> FetchOutcome)
      ensures this.respond == respond && calls == []
    {
      this.respond := respond;
      calls := [];
    }

    /** One request to the provider. */
    method Fetch(q: WeatherQuery) returns (o: FetchOutcome)
      modifies this`calls
      ensures o == respond(q)
      ensures calls == old(calls) + [q]
    {
      o := respond(q);
      calls := calls + [q];
    }
  }
}
