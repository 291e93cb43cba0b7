/** The weather lookup handler (`WeatherController.getWeatherByCity` in
    `controllers/weather.controller.js`): choose the city, normalise it, build
    the cache key, answer from the cache unless a refresh is asked for, and
    otherwise ask the provider and cache what it sends. `Lookup` states the
    whole effect of one request as a value; `GetWeatherByCity` performs it on
    the store and the provider and is proved to do exactly that. */
module WeatherController {
  import opened Wrappers
  import opened HttpStatusText
  import opened CustomError
  import opened ErrorHandler
  import opened CityName
  import opened CacheKey
  import opened RedisStore
  import opened Upstream

  /** The query string parameters the handler reads; an absent parameter is
      `None` (`undefined`). */
  datatype Query = Query(city: Option<string>, unit: Option<string>, days: Option<string>, refresh: Option<string>)

  /** The route parameter `:city`, if the route has one, and the query. */
  datatype Request = Request(pathCity: Option<string>, query: Query)

  /** The JSON body `{message, meta: {unit, days, cached}, data}`; the payload
      text stands for the parsed JSON value. */
  datatype WeatherResponse = WeatherResponse(message: string, unit: string, days: string, cached: bool, data: string)

  const MissingCityMessage := "City is required (via route param or query)"
  const DefaultUnit := "us"
  /** The number 7, as the template literal writes it. */
  const DefaultDays := "7"
  const DefaultRefresh := "false"
  /** Seconds a cached answer is kept. */
  const CacheTtl := 3600

  /** JavaScript truthiness of a parameter: absent and empty are falsy. */
  predicate Truthy(v: Option<string>) {
    v.Some? && v.value != ""
  }

  /** `req.params.city || req.query.city`: the path city when it is truthy,
      otherwise whatever the query holds. */
  function ChooseCity(req: Request): (c: Option<string>)
    ensures Truthy(c) <==> Truthy(req.pathCity) || Truthy(req.query.city)
    ensures Truthy(req.pathCity) ==> c == req.pathCity
    ensures !Truthy(req.pathCity) ==> c == req.query.city
  {
    if Truthy(req.pathCity) then req.pathCity else req.query.city
  }

  /** The error thrown when neither the path nor the query names a city. */
  function MissingCity(): (e: AppError)
    ensures FormatError(e) == ErrorResponse(400, FAIL, "City is required (via route param or query)")
  {
    NewCustomError(MissingCityMessage, 400, FAIL)
  }

  /** The destructuring defaults of lines 20-24: a default replaces only an
      absent parameter, so a parameter given empty stays empty. */
  function Unit(q: Query): (u: string)
    ensures q.unit.Some? ==> u == q.unit.value
    ensures q.unit.None? ==> u == "us"
  {
    q.unit.GetOr(DefaultUnit)
  }

  function Days(q: Query): (d: string)
    ensures q.days.Some? ==> d == q.days.value
    ensures q.days.None? ==> d == "7"
  {
    q.days.GetOr(DefaultDays)
  }

  /** Only the exact text `true` asks for a refresh; an absent parameter
      does not. */
  function Refresh(q: Query): (r: string)
    ensures q.refresh.Some? ==> r == q.refresh.value
    ensures q.refresh.None? ==> r == "false" && r != "true"
  {
    q.refresh.GetOr(DefaultRefresh)
  }

  /** The cache key of a request, or nothing when it names no city. */
  function KeyOf(req: Request): (k: Option<string>)
    ensures k.Some? <==> Truthy(ChooseCity(req))
  {
    var c := ChooseCity(req);
    if Truthy(c) then Some(Key(Normalize(c.value), Unit(req.query), Days(req.query))) else None
  }

  /** The message of an answer taken from the cache: it names the normalised
      city and says where the data came from. */
  function FromCache(city: string): (m: string)
    ensures |m| == |city| + 46
    ensures m[..33] == "Weather fetched successfully for " && m[33..33 + |city|] == city
    ensures m[33 + |city|..] == " (from cache)"
  {
    "Weather fetched successfully for " + city + " (from cache)"
  }

  /** The message of an answer the provider just sent. */
  function FromApi(city: string): (m: string)
    ensures |m| == |city| + 44
    ensures m[..33] == "Weather fetched successfully for " && m[33..33 + |city|] == city
    ensures m[33 + |city|..] == " (from API)"
  {
    "Weather fetched successfully for " + city + " (from API)"
  }

  /** The two messages never coincide, whatever the cities: the message alone
      tells a cached answer from a fresh one. */
  lemma MessagesTellSource(a: string, b: string)
    ensures FromCache(a) != FromApi(b)
  {
    var c, f := FromCache(a), FromApi(b);
    assert c[|c| - 2] == " (from cache)"[11] == 'e';
    assert f[|f| - 2] == " (from API)"[9] == 'I';
  }

  /** Everything one request does: the answer or error, the store commands
      issued, the provider queries made, and the store contents afterwards. */
  datatype Outcome = Outcome(result: Result<WeatherResponse, AppError>, commands: seq<Command>, fetches: seq<WeatherQuery>, data: map<string, string>)

  /** One request against store contents `data` and a provider answering with
      `respond`. */
  function Lookup(req: Request, data: map<string, string>, respond: WeatherQuery -> FetchOutcome): (o: Outcome)
    ensures o.data == Replay(data, o.commands)
    ensures |o.fetches| <= 1
  {
    var chosen := ChooseCity(req);
    if !Truthy(chosen) then Outcome(Failure(MissingCity()), [], [], data)
    else
      var city := Normalize(chosen.value);
      var unit, days := Unit(req.query), Days(req.query);
      var key := Key(city, unit, days);
      var probe := if Refresh(req.query) != "true" then [Command.Get(key)] else [];
      if Refresh(req.query) != "true" && key in data && data[key] != "" then
        Outcome(Success(WeatherResponse(FromCache(city), unit, days, true, data[key])), probe, [], data)
      else
        var q := WeatherQuery(city, unit, days);
        match respond(q)
        case FetchFailed(e) =>
          assert Replay(data, probe) == data by { ReplayReads(data, probe); }
          Outcome(Failure(e), probe, [q], data)
        case Fetched(p) =>
          assert Replay(data, probe + [Command.SetEx(key, CacheTtl, p)]) == data[key := p] by {
            ReplayReads(data, probe);
            ReplayAppend(data, probe, [Command.SetEx(key, CacheTtl, p)]);
          }
          Outcome(Success(WeatherResponse(FromApi(city), unit, days, false, p)), probe + [Command.SetEx(key, CacheTtl, p)], [q], data[key := p])
  }

  /** The handler. */
  method GetWeatherByCity(req: Request, store: Store, api: WeatherApi) returns (r: Result<WeatherResponse, AppError>)
    modifies store, api`calls
    ensures var o := Lookup(req, old(store.data), api.respond);
      && r == o.result
      && store.data == o.data
      && store.log == old(store.log) + o.commands
      && api.calls == old(api.calls) + o.fetches
  {
    var chosen := ChooseCity(req);
    if !Truthy(chosen) {
      return Failure(MissingCity());
    }
    var city := Normalize(chosen.value);
    var unit, days, refresh := Unit(req.query), Days(req.query), Refresh(req.query);
    var key := Key(city, unit, days);
    if refresh != "true" {
      var cached := store.Get(key);
      if cached.Some? && cached.value != "" {
        return Success(WeatherResponse(FromCache(city), unit, days, true, cached.value));
      }
    }
    var response := api.Fetch(WeatherQuery(city, unit, days));
    match response {
      case FetchFailed(e) =>
        return Failure(e);
      case Fetched(payload) =>
        store.SetEx(key, CacheTtl, payload);
        r := Success(WeatherResponse(FromApi(city), unit, days, false, payload));
    }
  }

  // ---------------------------------------------------------------------------
  // What one request does.

  /** Without a city the request fails with 400 and touches neither the store
      nor the provider. */
  lemma MissingCityRejected(req: Request, data: map<string, string>, respond: WeatherQuery -> FetchOutcome)
    requires !Truthy(req.pathCity) && !Truthy(req.query.city)
    ensures var o := Lookup(req, data, respond);
      && o.result.Failure?
      && FormatError(o.result.error) == ErrorResponse(400, FAIL, "City is required (via route param or query)")
      && o.commands == [] && o.fetches == [] && o.data == data
  {
  }

  /** With `refresh=true` the store is never read: exactly one provider call,
      then one write of the payload under the key for 3600 seconds on
      success, and no write on failure. */
  lemma RefreshSkipsCache(req: Request, data: map<string, string>, respond: WeatherQuery -> FetchOutcome)
    requires Truthy(ChooseCity(req)) && req.query.refresh == Some("true")
    ensures var o := Lookup(req, data, respond);
      var city := Normalize(ChooseCity(req).value);
      var q := WeatherQuery(city, Unit(req.query), Days(req.query));
      var key := KeyOf(req).value;
      && o.fetches == [q]
      && (forall c <- o.commands :: !c.Get?)
      && match respond(q)
         case Fetched(p) =>
           && o.commands == [Command.SetEx(key, 3600, p)]
           && o.data == data[key := p]
           && o.result == Success(WeatherResponse(FromApi(city), Unit(req.query), Days(req.query), false, p))
         case FetchFailed(e) =>
           o.commands == [] && o.data == data && o.result == Failure(e)
  {
  }

  /** A truthy cached value is answered from the cache: one read, no provider
      call, the store unchanged. */
  lemma CacheHit(req: Request, data: map<string, string>, respond: WeatherQuery -> FetchOutcome)
    requires KeyOf(req).Some? && Refresh(req.query) != "true"
    requires KeyOf(req).value in data && data[KeyOf(req).value] != ""
    ensures var o := Lookup(req, data, respond);
      var key := KeyOf(req).value;
      && o.result.Success? && o.result.value.cached && o.result.value.data == data[key]
      && o.commands == [Command.Get(key)] && o.fetches == [] && o.data == data
  {
  }

  /** On a miss the provider is asked once: its payload is cached under the
      key and returned with `cached` false, or its error is passed on and the
      store is left as it was. */
  lemma CacheMiss(req: Request, data: map<string, string>, respond: WeatherQuery -> FetchOutcome)
    requires KeyOf(req).Some? && Refresh(req.query) != "true"
    requires KeyOf(req).value !in data || data[KeyOf(req).value] == ""
    ensures var o := Lookup(req, data, respond);
      var city := Normalize(ChooseCity(req).value);
      var q := WeatherQuery(city, Unit(req.query), Days(req.query));
      var key := KeyOf(req).value;
      && o.fetches == [q]
      && match respond(q)
         case Fetched(p) =>
           && o.commands == [Command.Get(key), Command.SetEx(key, 3600, p)]
           && o.data == data[key := p]
           && o.result.Success? && !o.result.value.cached && o.result.value.data == p
         case FetchFailed(e) =>
           o.commands == [Command.Get(key)] && o.data == data && o.result == Failure(e)
  {
  }

  /** A request changes the store at most at its own key, and only to the
      payload it answers with. */
  lemma OnlyItsKeyChanges(req: Request, data: map<string, string>, respond: WeatherQuery -> FetchOutcome)
    ensures var o := Lookup(req, data, respond);
      || o.data == data
      || (KeyOf(req).Some? && o.result.Success? && o.data == data[KeyOf(req).value := o.result.value.data])
  {
  }

  /** A successful answer is cached, so the next request for the same key
      that does not ask for a refresh is answered from the cache with the same
      payload, whatever the provider would say. */
  lemma SecondLookupHits(req: Request, req2: Request, data: map<string, string>, respond: WeatherQuery -> FetchOutcome, respond2: WeatherQuery -> FetchOutcome)
    requires Lookup(req, data, respond).result.Success?
    requires KeyOf(req2) == KeyOf(req) && Refresh(req2.query) != "true"
    ensures var o := Lookup(req, data, respond);
      var o2 := Lookup(req2, o.data, respond2);
      && o2.result.Success? && o2.result.value.cached
      && o2.result.value.data == o.result.value.data
      && o2.fetches == [] && o2.data == o.data
  {
    var o := Lookup(req, data, respond);
    assert KeyOf(req).Some?;
    var key := KeyOf(req).value;
    assert key in o.data && o.data[key] == o.result.value.data != "";
    CacheHit(req2, o.data, respond2);
  }

  /** A provider failure carrying a `CustomError` is reported with that
      error's own code, tag and message. */
  lemma ProviderErrorReported(req: Request, data: map<string, string>, respond: WeatherQuery -> FetchOutcome, message: string, code: int, tag: StatusText)
    requires KeyOf(req).Some? && (Refresh(req.query) == "true" || KeyOf(req).value !in data || data[KeyOf(req).value] == "")
    requires respond(WeatherQuery(Normalize(ChooseCity(req).value), Unit(req.query), Days(req.query))) == FetchFailed(NewCustomError(message, code, tag))
    requires code != 0 && message != "" && IsTruthy(tag)
    ensures var o := Lookup(req, data, respond);
      o.result.Failure? && FormatError(o.result.error) == ErrorResponse(code, tag, message)
  {
    CustomErrorFormatsAsGiven(message, code, tag);
  }

  // ---------------------------------------------------------------------------
  // Which requests share a cache entry.

  /** Without unit and days the key is the normalised city followed by
      `:unit=us:days=7`. */
  lemma DefaultKey(req: Request)
    requires Truthy(ChooseCity(req)) && req.query.unit.None? && req.query.days.None?
    ensures KeyOf(req) == Some(Normalize(ChooseCity(req).value) + ":unit=us:days=7")
  {
    var city := Normalize(ChooseCity(req).value);
    assert Unit(req.query) == "us" && Days(req.query) == "7";
    assert ":unit=" + "us" + ":days=" + "7" == ":unit=us:days=7";
    assert Key(city, "us", "7") == city + (":unit=" + "us" + ":days=" + "7");
  }

  /** Two cities share a cache entry (for the same unit and days) exactly
      when, once lower-cased, they have the same words: letter case and the
      amount of surrounding and separating whitespace do not matter. */
  lemma SameKeyIffSameWords(a: string, b: string, unit: string, days: string)
    ensures Key(Normalize(a), unit, days) == Key(Normalize(b), unit, days) <==> Words(Lower(a)) == Words(Lower(b))
  {
    KeySameCity(Normalize(a), Normalize(b), unit, days);
    SameNormalFormIffSameWords(a, b);
  }

  /** The key of a lookup reads back as its normalised city, unit and days
      when neither the unit nor the days holds a colon. */
  lemma KeyOfReadsBack(req: Request)
    requires Truthy(ChooseCity(req)) && ':' !in Unit(req.query) && ':' !in Days(req.query)
    ensures ParseKey(KeyOf(req).value) == Some((Normalize(ChooseCity(req).value), Unit(req.query), Days(req.query)))
  {
    ParseKeyOfKey(Normalize(ChooseCity(req).value), Unit(req.query), Days(req.query));
  }

  /** A city made only of whitespace passes the presence check, normalises to
      the empty string, and on a miss the provider is asked about an empty
      city. */
  lemma BlankCityAccepted(req: Request, data: map<string, string>, respond: WeatherQuery -> FetchOutcome)
    requires Truthy(ChooseCity(req)) && AllSpace(ChooseCity(req).value)
    ensures Normalize(ChooseCity(req).value) == ""
    ensures KeyOf(req) == Some(Key("", Unit(req.query), Days(req.query)))
    ensures Refresh(req.query) == "true" || Key("", Unit(req.query), Days(req.query)) !in data
      ==> Lookup(req, data, respond).fetches == [WeatherQuery("", Unit(req.query), Days(req.query))]
  {
    var city := ChooseCity(req).value;
    var l := Lower(city);
    LowerMapsEachChar(city);
    assert forall i :: 0 <= i < |l| ==> IsSpace(l[i]);
    WordsAfterSpaces(l, |l|);
    assert l[|l|..] == [];
    NormalizeIsJoinedWords(city);
  }
}
