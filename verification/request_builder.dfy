/** The request half of `handleFetch`: the pre-flight checks, the choice of
    endpoint and the query parameters, up to the point where the parameter
    list would be percent-encoded into a URL. */
module RequestBuilder {
  import opened Wrappers
  import opened JsText
  import opened SearchParams

  /** The tab the fetch was started from (`type` in `handleFetch`). */
  datatype Mode = Current | Historical | Marine

  /** The form fields as the user left them. */
  datatype Form = Form(location: string, historicalDate: string, marineDate: string, units: string)

  datatype ApiRequest = ApiRequest(endpoint: string, params: Params)

  /** Why no request was built. */
  datatype Refusal = MissingKey | BlankLocation | MissingHistoricalDate | MissingMarineDate

  const CurrentEndpoint := "/current"
  const HistoricalEndpoint := "/historical"

  function RefusalMessage(f: Refusal): string {
    match f
    case MissingKey => "Missing API key. Please add VITE_WEATHERSTACK_API_KEY to a .env.local file."
    case BlankLocation => "Please enter a location."
    case MissingHistoricalDate => "Please choose a historical date."
    case MissingMarineDate => "Please choose a marine date."
  }

  /** `!API_KEY` is false: the key is defined and not the empty string. */
  predicate HasKey(key: Option<string>) {
    key.Some? && key.value != ""
  }

  /** The date the mode sends as `historical_date`; `Current` sends none. */
  function DateFor(form: Form, mode: Mode): string {
    match mode
    case Historical => form.historicalDate
    case Marine => form.marineDate
    case Current => ""
  }

  /** The three parameters every request starts with, in this order. */
  function BaseParams(key: string, form: Form): Params {
    [("access_key", key), ("query", Trim(form.location)), ("units", form.units)]
  }

  /** The parameters the mode adds after the base ones, written out. */
  function ModeParams(form: Form, mode: Mode): Params {
    match mode
    case Current => []
    case Historical => [("historical_date", form.historicalDate), ("hourly", "1")]
    case Marine => [("historical_date", form.marineDate), ("hourly", "1"), ("tide", "1")]
  }

  /** `handleFetch` up to the network call. The checks run in a fixed order
      and the first one that fails decides the refusal: the key, then the
      trimmed location, then the date of the chosen mode. */
  function Build(key: Option<string>, form: Form, mode: Mode): (r: Result<ApiRequest, Refusal>)
    ensures !HasKey(key) ==> r == Failure(MissingKey)
    ensures HasKey(key) && Trim(form.location) == "" ==> r == Failure(BlankLocation)
    ensures (HasKey(key) && Trim(form.location) != "" && mode == Historical && form.historicalDate == "")
              ==> r == Failure(MissingHistoricalDate)
    ensures (HasKey(key) && Trim(form.location) != "" && mode == Marine && form.marineDate == "")
              ==> r == Failure(MissingMarineDate)
    ensures r.Success? ==> (r.value.endpoint == HistoricalEndpoint <==> mode != Current)
    ensures r.Success? ==> (r.value.endpoint == CurrentEndpoint <==> mode == Current)
  {
    if !HasKey(key) then Failure(MissingKey)
    else if Trim(form.location) == "" then Failure(BlankLocation)
    else
      var base := BaseParams(key.value, form);
      match mode
      case Historical =>
        if form.historicalDate == "" then Failure(MissingHistoricalDate)
        else
          Success(ApiRequest(HistoricalEndpoint,
            Set(Set(base, "historical_date", form.historicalDate), "hourly", "1")))
      case Marine =>
        if form.marineDate == "" then Failure(MissingMarineDate)
        else
          Success(ApiRequest(HistoricalEndpoint,
            Set(Set(Set(base, "historical_date", form.marineDate), "hourly", "1"), "tide", "1")))
      case Current =>
        Success(ApiRequest(CurrentEndpoint, base))
  }

  /** The parameters of a built request are the base three followed by the
      mode's own, in insertion order: none of the `set` calls meets a name
      already present. */
  lemma ParamsByMode(key: Option<string>, form: Form, mode: Mode)
    requires Build(key, form, mode).Success?
    ensures Build(key, form, mode).value.params == BaseParams(key.value, form) + ModeParams(form, mode)
  {
    match mode
    case Current =>
    case Historical => HistoricalParams(key, form);
    case Marine => MarineParams(key, form);
  }

  lemma HistoricalParams(key: Option<string>, form: Form)
    requires HasKey(key) && !AllWhitespace(form.location) && form.historicalDate != ""
    ensures Build(key, form, Historical).value.params == BaseParams(key.value, form) + ModeParams(form, Historical)
  {
    var base := BaseParams(key.value, form);
    assert Build(key, form, Historical).value.params ==
      Set(Set(base, "historical_date", form.historicalDate), "hourly", "1");
    FreshSets(base, form.historicalDate);
  }

  lemma MarineParams(key: Option<string>, form: Form)
    requires HasKey(key) && !AllWhitespace(form.location) && form.marineDate != ""
    ensures Build(key, form, Marine).value.params == BaseParams(key.value, form) + ModeParams(form, Marine)
  {
    var base := BaseParams(key.value, form);
    assert Build(key, form, Marine).value.params ==
      Set(Set(Set(base, "historical_date", form.marineDate), "hourly", "1"), "tide", "1");
    FreshSets(base, form.marineDate);
  }

  /** None of the `set` calls after the base parameters meets a name that is
      already there, so each one appends. */
  lemma FreshSets(base: Params, date: string)
    requires |base| == 3 && base[0].0 == "access_key" && base[1].0 == "query" && base[2].0 == "units"
    ensures Set(base, "historical_date", date) == base + [("historical_date", date)]
    ensures Set(base + [("historical_date", date)], "hourly", "1") == base + [("historical_date", date), ("hourly", "1")]
    ensures Set(base + [("historical_date", date), ("hourly", "1")], "tide", "1")
              == base + [("historical_date", date), ("hourly", "1"), ("tide", "1")]
  {
    AbsentName(base, "historical_date");
    var p1 := base + [("historical_date", date)];
    AbsentName(p1, "hourly");
    var p2 := p1 + [("hourly", "1")];
    AbsentName(p2, "tide");
    assert p1 + [("hourly", "1")] == base + [("historical_date", date), ("hourly", "1")];
    assert p2 + [("tide", "1")] == base + [("historical_date", date), ("hourly", "1"), ("tide", "1")];
  }

  /** A request is built exactly when the key is there, the location is not
      blank and the chosen mode has its date. */
  lemma BuildSucceedsIff(key: Option<string>, form: Form, mode: Mode)
    ensures Build(key, form, mode).Success? <==>
              HasKey(key) && !AllWhitespace(form.location) && (mode == Current || DateFor(form, mode) != "")
  {
  }

  /** No mode reads the other mode's date, and the current mode reads none. */
  lemma OtherDateIgnored(key: Option<string>, form: Form, mode: Mode, historicalDate: string, marineDate: string)
    ensures mode != Historical ==> Build(key, form, mode) == Build(key, form.(historicalDate := historicalDate), mode)
    ensures mode != Marine ==> Build(key, form, mode) == Build(key, form.(marineDate := marineDate), mode)
  {
  }

  /** The inputs can be read back from a built request: the key, the trimmed
      location, the units as given and the chosen date; each name occurs once. */
  lemma RecoverInputs(key: Option<string>, form: Form, mode: Mode)
    requires Build(key, form, mode).Success?
    ensures var ps := Build(key, form, mode).value.params;
      && DistinctNames(ps)
      && Get(ps, "access_key") == key
      && Get(ps, "query") == Some(Trim(form.location))
      && Get(ps, "units") == Some(form.units)
      && (mode == Current <==> Get(ps, "historical_date").None?)
      && (mode != Current ==> Get(ps, "historical_date") == Some(DateFor(form, mode)))
      && (mode == Marine <==> Get(ps, "tide") == Some("1"))
  {
    ParamsByMode(key, form, mode);
    ListedParams(key.value, form, mode);
  }

  lemma ListedParams(k: string, form: Form, mode: Mode)
    ensures var ps := BaseParams(k, form) + ModeParams(form, mode);
      && DistinctNames(ps)
      && Get(ps, "access_key") == Some(k)
      && Get(ps, "query") == Some(Trim(form.location))
      && Get(ps, "units") == Some(form.units)
      && (mode == Current <==> Get(ps, "historical_date").None?)
      && (mode != Current ==> Get(ps, "historical_date") == Some(DateFor(form, mode)))
      && (mode == Marine <==> Get(ps, "tide") == Some("1"))
  {
    match mode
    case Current => ListedCurrent(k, form);
    case Historical => ListedHistorical(k, form);
    case Marine => ListedMarine(k, form);
  }

  lemma ListedCurrent(k: string, form: Form)
    ensures var ps := BaseParams(k, form) + ModeParams(form, Current);
      && DistinctNames(ps)
      && Get(ps, "access_key") == Some(k) && Get(ps, "query") == Some(Trim(form.location))
      && Get(ps, "units") == Some(form.units)
      && Get(ps, "historical_date").None? && Get(ps, "tide").None?
  {
    CurrentList(BaseParams(k, form) + ModeParams(form, Current), k, Trim(form.location), form.units);
  }

  lemma ListedHistorical(k: string, form: Form)
    ensures var ps := BaseParams(k, form) + ModeParams(form, Historical);
      && DistinctNames(ps)
      && Get(ps, "access_key") == Some(k) && Get(ps, "query") == Some(Trim(form.location))
      && Get(ps, "units") == Some(form.units)
      && Get(ps, "historical_date") == Some(form.historicalDate) && Get(ps, "tide").None?
  {
    HistoricalShape(k, form);
    HistoricalList(BaseParams(k, form) + ModeParams(form, Historical),
                   k, Trim(form.location), form.units, form.historicalDate);
  }

  lemma ListedMarine(k: string, form: Form)
    ensures var ps := BaseParams(k, form) + ModeParams(form, Marine);
      && DistinctNames(ps)
      && Get(ps, "access_key") == Some(k) && Get(ps, "query") == Some(Trim(form.location))
      && Get(ps, "units") == Some(form.units)
      && Get(ps, "historical_date") == Some(form.marineDate) && Get(ps, "tide") == Some("1")
  {
    MarineShape(k, form);
    MarineList(BaseParams(k, form) + ModeParams(form, Marine),
               k, Trim(form.location), form.units, form.marineDate);
  }

  lemma HistoricalShape(k: string, form: Form)
    ensures BaseParams(k, form) + ModeParams(form, Historical)
      == [("access_key", k), ("query", Trim(form.location)), ("units", form.units),
          ("historical_date", form.historicalDate), ("hourly", "1")]
  {
  }

  lemma MarineShape(k: string, form: Form)
    ensures BaseParams(k, form) + ModeParams(form, Marine)
      == [("access_key", k), ("query", Trim(form.location)), ("units", form.units),
          ("historical_date", form.marineDate), ("hourly", "1"), ("tide", "1")]
  {
  }

  lemma CurrentList(ps: Params, k: string, q: string, u: string)
    requires ps == [("access_key", k), ("query", q), ("units", u)]
    ensures
      && DistinctNames(ps)
      && Get(ps, "access_key") == Some(k) && Get(ps, "query") == Some(q) && Get(ps, "units") == Some(u)
      && Get(ps, "historical_date").None? && Get(ps, "tide").None?
  {
    assert DistinctNames(ps) by { DistinctByIndex(ps); }
    assert Get(ps, ps[0].0) == Some(ps[0].1) by { GetDistinct(ps, 0); }
    assert Get(ps, ps[1].0) == Some(ps[1].1) by { GetDistinct(ps, 1); }
    assert Get(ps, ps[2].0) == Some(ps[2].1) by { GetDistinct(ps, 2); }
    assert !HasName(ps, "historical_date") by { AbsentName(ps, "historical_date"); }
    assert !HasName(ps, "tide") by { AbsentName(ps, "tide"); }
  }

  lemma HistoricalList(ps: Params, k: string, q: string, u: string, d: string)
    requires ps == [("access_key", k), ("query", q), ("units", u), ("historical_date", d), ("hourly", "1")]
    ensures
      && DistinctNames(ps)
      && Get(ps, "access_key") == Some(k) && Get(ps, "query") == Some(q) && Get(ps, "units") == Some(u)
      && Get(ps, "historical_date") == Some(d) && Get(ps, "tide").None?
  {
    assert DistinctNames(ps) by { DistinctByIndex(ps); }
    assert Get(ps, ps[0].0) == Some(ps[0].1) by { GetDistinct(ps, 0); }
    assert Get(ps, ps[1].0) == Some(ps[1].1) by { GetDistinct(ps, 1); }
    assert Get(ps, ps[2].0) == Some(ps[2].1) by { GetDistinct(ps, 2); }
    assert Get(ps, ps[3].0) == Some(ps[3].1) by { GetDistinct(ps, 3); }
    assert !HasName(ps, "tide") by { AbsentName(ps, "tide"); }
  }

  lemma MarineList(ps: Params, k: string, q: string, u: string, d: string)
    requires ps == [("access_key", k), ("query", q), ("units", u), ("historical_date", d), ("hourly", "1"), ("tide", "1")]
    ensures
      && DistinctNames(ps)
      && Get(ps, "access_key") == Some(k) && Get(ps, "query") == Some(q) && Get(ps, "units") == Some(u)
      && Get(ps, "historical_date") == Some(d) && Get(ps, "tide") == Some("1")
  {
    assert DistinctNames(ps) by { DistinctByIndex(ps); }
    assert Get(ps, ps[0].0) == Some(ps[0].1) by { GetDistinct(ps, 0); }
    assert Get(ps, ps[1].0) == Some(ps[1].1) by { GetDistinct(ps, 1); }
    assert Get(ps, ps[2].0) == Some(ps[2].1) by { GetDistinct(ps, 2); }
    assert Get(ps, ps[3].0) == Some(ps[3].1) by { GetDistinct(ps, 3); }
    assert Get(ps, ps[5].0) == Some(ps[5].1) by { GetDistinct(ps, 5); }
  }
}
