# Weather API gateway — a Dafny model of its handlers

The Weather API wrapper is a small HTTP gateway. It answers
`GET /weather/:city` (or `GET /weather?city=…`) from a Redis cache, or from an
external weather provider, and it offers administrative routes to list, read,
delete and clear cache entries. Every failure is passed on to one error
formatter. This project models those handlers and proves what they do:

- **`CityName`** (`city_name.dfy`): the normalisation of the requested city.
  - It lower-cases the city, trims it, collapses runs of whitespace into one
    space and lower-cases it again.
  - A reference definition stands beside it: the words of the lower-cased
    input, joined by single spaces.
  - Normalisation is proved equal to that reference definition. The result is
    proved lower-case, trimmed and single-spaced, and normalising is proved
    idempotent.
  - Two cities are proved to normalise alike exactly when they have the same
    words once lower-cased.
- **`CacheKey`** (`cache_key.dfy`): the key `<city>:unit=<unit>:days=<days>`.
  - It comes with a parser that reads a key back into its three parts.
  - The parser inverts the key whenever the unit and the days hold no colon.
    The city may hold colons.
  - With a colon in the unit, two different lookups can share a key. For
    example, the city `paris:unit=us` with unit `x` has the same key as the
    city `paris` with unit `us:unit=x`.
- **`RedisStore`** (`redis_store.dfy`): the Redis client.
  - It is a class with a `map<string, string>` field.
  - The five commands the handlers use are methods on it: `GET`, `SETEX`,
    `DEL`, `KEYS *` and `FLUSHALL`.
  - A ghost log records every command. `Step` and `Replay` say how one
    command and a run of commands change the contents.
- **`Upstream`** (`upstream.dfy`): the weather provider.
  - It is a fixed function from (normalised city, unit, days) to a payload or
    an error.
  - A payload is the JSON text the handler caches, and is never the empty
    string.
  - A ghost log records every call to it.
- **`WeatherController`** (`weather_controller.dfy`): the weather lookup.
  - `Lookup` states, as a value, everything one request does: the answer, the
    store commands, the provider calls and the new store contents.
  - The method `GetWeatherByCity` performs the request step by step on the
    store and the provider, and is proved to do exactly what `Lookup` says.
  - Lemmas on `Lookup` cover the missing city, refresh, a hit, a miss, the
    error path and the second lookup.
  - A city made only of whitespace is present for the handler's check. It
    normalises to the empty string, and the provider is then asked about an
    empty city (`BlankCityAccepted`).
- **`CacheController`** (`cache_controller.dfy`): the four admin handlers as
  methods on the store, plus short sequences of handler calls.
- **`CustomError`, `ErrorHandler`, `HttpStatusText`** (`errors.dfy`): the
  error record and the formatter that maps it to a status code, a status tag
  and a message, with their defaults.

Status tags.
- The module that defines `HTTPStatusText` is not part of this model.
- `SUCCESS`, `FAIL` and `ERROR` are three distinct constants. `Text(s)` stands
  for any other string used as a tag.
- The constructor default of `CustomError` is the literal `"fail"`, so it is
  kept as `Text("fail")`. It is not identified with `FAIL`.

## Model

| member | source | states |
|---|---|---|
| CustomError.NewCustomError | utils/customError.js:2-5 | the error keeps the given message, status code and status tag |
| CustomError.OmittedStatusTextIsFail | utils/customError.js:2 | leaving out the tag gives the literal tag "fail" |
| ErrorHandler.FormatError | utils/errorHandler.js:3-10 | each response field is the error's field when truthy, otherwise 500, FAIL or "Internal server error"; no response field is ever falsy |
| ErrorHandler.FormatKeepsTruthyFields | utils/errorHandler.js:4-9 | an error is reported exactly as it is if and only if its code, tag and message are all truthy |
| ErrorHandler.CustomErrorFormatsAsGiven | utils/errorHandler.js:4-9 | a CustomError with a non-zero code, a non-empty message and a truthy tag is reported as exactly those values; without a tag it is reported with "fail" |
| CityName.Lower | controllers/weather.controller.js:18 | lower-casing keeps the length, leaves no capital letter, and changes nothing in a string without capitals |
| CityName.LowerMapsEachChar | controllers/weather.controller.js:18 | lower-casing folds each character on its own, in place |
| CityName.Trim | controllers/weather.controller.js:18 | the trimmed string has whitespace at neither end |
| CityName.TrimStartShape | controllers/weather.controller.js:18 | trimming the start drops exactly the leading whitespace and keeps the rest |
| CityName.TrimEndShape | controllers/weather.controller.js:18 | trimming the end drops exactly the trailing whitespace and keeps the rest |
| CityName.Collapse | controllers/weather.controller.js:18 | replacing whitespace runs keeps the empty string empty and turns a leading run into one space |
| CityName.CollapseIsSingleSpaced | controllers/weather.controller.js:18 | after replacing every whitespace run by one space, no two whitespace characters are adjacent and each is a plain space |
| CityName.CollapseFixesSingleSpaced | controllers/weather.controller.js:18 | the replacement leaves an already single-spaced string unchanged |
| CityName.CollapseKeepsNoUpper | controllers/weather.controller.js:18 | the replacement brings in no capital letter |
| CityName.Normalize | controllers/weather.controller.js:18 | the normalised city has no capital letter, no whitespace at either end, and only single plain spaces inside |
| CityName.CollapseTrimmedIsJoin | controllers/weather.controller.js:18 | for a trimmed string, replacing whitespace runs gives its words joined by single spaces |
| CityName.WordsOfTrim | controllers/weather.controller.js:18 | trimming does not change the words |
| CityName.NormalizeIsJoinedWords | controllers/weather.controller.js:18 | the normalised city equals the words of the lower-cased input joined by single spaces |
| CityName.WordsOfJoin | controllers/weather.controller.js:18 | splitting words joined by single spaces gives the same words back |
| CityName.NormalizeCanonical | controllers/weather.controller.js:18 | a lower-case, trimmed, single-spaced city normalises to itself |
| CityName.NormalizeIdempotent | controllers/weather.controller.js:18 | normalising twice is normalising once |
| CityName.SameNormalFormIffSameWords | controllers/weather.controller.js:18 | two cities normalise alike if and only if their lower-cased words are the same |
| CacheKey.Key | controllers/weather.controller.js:27 | the key starts with the city, and its length is the parts' lengths plus twelve |
| CacheKey.ParseKeySound | controllers/weather.controller.js:27 | whatever the parser reads out of a key rebuilds exactly that key |
| CacheKey.ParseKeyOfKey | controllers/weather.controller.js:27 | a key whose unit and days have no colon reads back as its city, unit and days |
| CacheKey.KeyInjective | controllers/weather.controller.js:27 | when units and days have no colon, two lookups share a key if and only if their city, unit and days are all equal |
| CacheKey.KeySameCity | controllers/weather.controller.js:27 | for the same unit and days, two keys are equal if and only if the cities are |
| RedisStore.EnumerationLength | controllers/cache.controller.js:12 | a listing of the keys without repeats has as many entries as there are keys |
| RedisStore.Step | controllers/weather.controller.js:47-51 | one command: reads and listing change nothing, SETEX sets its key to its value, DEL removes its key, FLUSHALL empties the store; every other key keeps its value |
| RedisStore.ReplayProvenance | controllers/weather.controller.js:30-51 | after a run of commands (`Replay`) every value held was held before or was written by a SETEX of that key in the run; without FLUSHALL every key held before is still held or was deleted by a DEL in the run |
| RedisStore.ReplayReads | controllers/weather.controller.js:30 | a run of read commands leaves the store contents unchanged |
| RedisStore.ReplayAppend | controllers/weather.controller.js:30-51 | replaying a read and then a write is replaying them one run after another |
| RedisStore.Store.Get | controllers/cache.controller.js:25 | the value held under the key, or nothing for an absent key; only the log changes |
| RedisStore.Store.SetEx | controllers/weather.controller.js:47-51 | the key now holds the value, every other key is unchanged, and the command and its TTL are logged |
| RedisStore.Store.Del | controllers/cache.controller.js:50 | the key is gone, nothing else changed, and the answer is 1 if the key was held and 0 otherwise |
| RedisStore.Store.Keys | controllers/cache.controller.js:8 | every key held appears in the answer exactly once, and nothing else does |
| RedisStore.Store.FlushAll | controllers/cache.controller.js:72 | the store is empty afterwards |
| Upstream.WeatherApi.Fetch | controllers/weather.controller.js:41-45 | the provider's answer to the query, and exactly one logged call |
| CacheController.NotFound | controllers/cache.controller.js:27-33 | the error for a missing key is reported as 404, FAIL, "Cache key not found" |
| CacheController.DeletedMessage | controllers/cache.controller.js:62 | the confirmation is "Cache key '", the key, then "' deleted successfully" |
| CacheController.GetAllKeys | controllers/cache.controller.js:5-18 | SUCCESS, every key of the store exactly once, and a count equal to the number of keys; the store is unchanged |
| CacheController.GetByKey | controllers/cache.controller.js:20-43 | SUCCESS with the key and its stored value, or the 404 error when the key is absent or holds an empty value; the store is unchanged |
| CacheController.DeleteByKey | controllers/cache.controller.js:45-67 | removes that key only; SUCCESS with the message naming the key if it was held, otherwise the 404 error and the store as it was |
| CacheController.ClearAll | controllers/cache.controller.js:69-81 | the store is empty and the answer is SUCCESS with "All cache cleared successfully" |
| CacheController.DeleteTwice | controllers/cache.controller.js:50-57 | a second delete of the same key always fails with the 404 error, and only that key has gone |
| CacheController.ClearThenList | controllers/cache.controller.js:71-77 | after clearing, the key listing has count 0 and no keys |
| CacheController.ClearTwice | controllers/cache.controller.js:71-77 | clearing again gives the same answer and the same empty store |
| CacheController.ReadThenDeleteMissing | controllers/cache.controller.js:25-33 | for an absent key both the read and the delete fail with the 404 error, and the store is unchanged |
| WeatherController.ChooseCity | controllers/weather.controller.js:8 | a city is present if and only if the path or the query names one; a truthy path city wins, otherwise the query's is used |
| WeatherController.MissingCity | controllers/weather.controller.js:10-16 | the missing-city error is reported as 400, FAIL, "City is required (via route param or query)" |
| WeatherController.Unit | controllers/weather.controller.js:21 | the unit given in the query, or "us" when it is absent |
| WeatherController.Days | controllers/weather.controller.js:22 | the days given in the query, or "7" when they are absent |
| WeatherController.Refresh | controllers/weather.controller.js:23 | the refresh flag given in the query, or "false" (no refresh) when it is absent |
| WeatherController.FromCache | controllers/weather.controller.js:34 | the cache-hit message: "Weather fetched successfully for ", the normalised city, then " (from cache)" |
| WeatherController.FromApi | controllers/weather.controller.js:54 | the fresh-answer message: "Weather fetched successfully for ", the normalised city, then " (from API)" |
| WeatherController.MessagesTellSource | controllers/weather.controller.js:34-54 | a cache-hit message never equals a fresh-answer message, whatever the two cities |
| WeatherController.KeyOf | controllers/weather.controller.js:20-27 | a request has a cache key if and only if it names a city |
| WeatherController.Lookup | controllers/weather.controller.js:8-57 | the store afterwards is the old store with the request's logged commands replayed, and the provider is asked at most once |
| WeatherController.GetWeatherByCity | controllers/weather.controller.js:6-61 | the handler's answer, store contents, store commands and provider calls are exactly those `Lookup` gives |
| WeatherController.MissingCityRejected | controllers/weather.controller.js:8-16 | without a city the answer is the 400 error, with no store command, no provider call and the store unchanged |
| WeatherController.RefreshSkipsCache | controllers/weather.controller.js:29-51 | with refresh=true the store is never read and the provider is called once; on success the only command writes the payload under the key with TTL 3600; on failure nothing is written |
| WeatherController.CacheHit | controllers/weather.controller.js:29-38 | a truthy cached value is answered with cached=true and that value, after one read, with no provider call and the store unchanged |
| WeatherController.CacheMiss | controllers/weather.controller.js:45-57 | on a miss the provider is called once; on success it reads, then writes the payload with TTL 3600 and answers with cached=false; on failure it passes the error on with the store unchanged |
| WeatherController.OnlyItsKeyChanges | controllers/weather.controller.js:47-51 | a request leaves the store unchanged, or sets only its own key to the payload it answers with |
| WeatherController.SecondLookupHits | controllers/weather.controller.js:29-57 | after a successful answer, the next request for the same key without refresh is a cache hit with the same payload and no provider call |
| WeatherController.ProviderErrorReported | controllers/weather.controller.js:58-60 | a CustomError from the provider is reported with its own code, tag and message |
| WeatherController.DefaultKey | controllers/weather.controller.js:20-27 | without unit and days the key is the normalised city followed by ":unit=us:days=7" |
| WeatherController.SameKeyIffSameWords | controllers/weather.controller.js:18-27 | for the same unit and days, two cities share a cache entry if and only if their lower-cased words are the same |
| WeatherController.KeyOfReadsBack | controllers/weather.controller.js:27 | a request's key reads back as its normalised city, unit and days when neither unit nor days holds a colon |
| WeatherController.BlankCityAccepted | controllers/weather.controller.js:8-27 | a city made only of whitespace passes the presence check and normalises to the empty string; on a miss the provider is asked about an empty city |

## Left out

- HTTP plumbing is not modelled: Express requests and responses, `res.json` and `next(err)`. A handler's answer is a value. Its error is a `Failure` that `FormatError` turns into the response.
- The request URL sent to the provider is not modelled (`controllers/weather.controller.js:41-43`): `encodeURIComponent`, the API key from the environment, and the URL itself. The provider is a function of the normalised city, the unit and the days, which it receives unchanged.
- `JSON.stringify` and `JSON.parse` are not modelled. The payload is an opaque string, cached and returned unchanged. The error that `JSON.parse` throws on a corrupt cached value (`controllers/weather.controller.js:36`, `controllers/cache.controller.js:38`) is not modelled.
- Failures of the store and of the network are not modelled. The Redis commands always succeed, and the only provider failure is its `FetchFailed` outcome.
- Cache expiry is not modelled. The TTL of 3600 seconds is recorded with each write, but no clock is modelled.
- Concurrent requests are not modelled. Each handler runs alone from start to finish.
- Character handling is reduced to ASCII. Case folding covers `A`-`Z` only. Whitespace is the six ASCII characters tab, line feed, vertical tab, form feed, carriage return and space. JavaScript's `toLowerCase`, `trim` and `\s` cover Unicode.
- Query parameters are strings or absent. A parameter given several times arrives as an array in Express, and that case is not modelled.
- `days` is a string. The default number 7 appears in the key as "7", exactly as the template literal writes it.
- `WeatherResponse.days` is a string. In the source, `meta.days` is the number 7 when the query gives no days and the query's string otherwise, so the JSON answer shows `7` and not `"7"` in the default case; the model answers "7" in both cases.
- The values of `HTTPStatusText` are not modelled; `utils/HTTPStatusText.js` is not part of this model.
- `CacheKey.KeyInjective` holds only when unit and days contain no colon, because the key format itself does not separate the parts otherwise.
- Some source files are not part of this model, because they are wiring, environment reads or library calls:
  - `controllers/system.controller.js`;
  - `middlewares/rateLimiter.js` and `utils/rateLimiterParams.js`;
  - `routes/*.js` and `index.js`.
