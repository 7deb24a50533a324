/** `handleFetch` as a whole: from the page's error/result pair before the
    click, the inputs and the network's reply, to the pair after it. The
    network is an input: `Reply` is what `fetch` and `response.json()`
    produced for the request that was built. */
module FetchFlow {
  import opened Wrappers
  import opened JsText
  import opened JsValue
  import opened RequestBuilder
  import opened Payload
  import opened Selection

  /** The `error` and `weatherResult` state of the page. */
  datatype UiState = UiState(error: Option<string>, result: Option<StoredResult>)

  /** What the network step produced: a parsed body, or the message of the
      error `fetch` or `response.json()` threw. */
  datatype Reply = Body(payload: Json) | Thrown(message: string)

  /** The state after the click, and the request sent, if any. */
  datatype Outcome = Outcome(state: UiState, sent: Option<ApiRequest>)

  const FallbackMessage := "Something went wrong."

  /** `err.message || 'Something went wrong.'`. */
  function Shown(message: string): (m: string)
    ensures m != ""
    ensures message != "" ==> m == message
    ensures message == "" ==> m == FallbackMessage
  {
    if message == "" then FallbackMessage else message
  }

  /** A refusal that returns before the previous result is cleared. */
  predicate EarlyRefusal(f: Refusal) {
    f == MissingKey || f == BlankLocation
  }

  /** Lines after the request is sent: the reply becomes exactly one of an
      error message and a stored result, and a stored result is the payload
      as received. */
  function Receive(mode: Mode, reply: Reply): (s: UiState)
    ensures s.error.Some? <==> s.result.None?
    ensures s.error.Some? ==> s.error.value != ""
    ensures s.result.Some? <==> reply.Body? && CheckPayload(mode, reply.payload).Success?
    ensures s.result.Some? ==> s.result.value == StoredResult(mode, reply.payload)
    ensures reply.Thrown? ==> s.error == Some(Shown(reply.message))
    ensures (reply.Body? && CheckPayload(mode, reply.payload).Failure?)
              ==> s.error == Some(Shown(CheckPayload(mode, reply.payload).error))
  {
    match reply
    case Thrown(m) => UiState(Some(Shown(m)), None)
    case Body(data) =>
      match CheckPayload(mode, data)
      case Failure(m) => UiState(Some(Shown(m)), None)
      case Success(stored) => UiState(None, Some(stored))
  }

  /** One click on "Fetch Weather".
      - The key and location refusals set the error and leave the previous
        result in place; no request is made.
      - A missing date is thrown after the result has been cleared.
      - Otherwise the request is sent and the reply is received. */
  function HandleFetch(prev: UiState, key: Option<string>, form: Form, mode: Mode, reply: Reply): (o: Outcome)
    ensures o.sent.Some? <==> Build(key, form, mode).Success?
    ensures o.sent.Some? ==> o.sent.value == Build(key, form, mode).value
    ensures (Build(key, form, mode).Failure? && EarlyRefusal(Build(key, form, mode).error))
              ==> o.state == UiState(Some(RefusalMessage(Build(key, form, mode).error)), prev.result)
    ensures (Build(key, form, mode).Failure? && !EarlyRefusal(Build(key, form, mode).error))
              ==> o.state == UiState(Some(RefusalMessage(Build(key, form, mode).error)), None)
    ensures o.sent.Some? ==> o.state == Receive(mode, reply)
    ensures o.state.error.Some? ==> o.state.error.value != ""
  {
    match Build(key, form, mode)
    case Failure(f) =>
      if EarlyRefusal(f) then Outcome(UiState(Some(RefusalMessage(f)), prev.result), None)
      else Outcome(UiState(Some(Shown(RefusalMessage(f))), None), None)
    case Success(req) =>
      Outcome(Receive(mode, reply), Some(req))
  }

  /** A missing key is reported even when the location is blank too, and
      nothing is sent. */
  lemma MissingKeyWins(prev: UiState, form: Form, mode: Mode, reply: Reply)
    ensures HandleFetch(prev, None, form, mode, reply)
            == Outcome(UiState(Some(RefusalMessage(MissingKey)), prev.result), None)
    ensures HandleFetch(prev, Some(""), form, mode, reply)
            == Outcome(UiState(Some(RefusalMessage(MissingKey)), prev.result), None)
  {
  }

  /** Once a request was built, the click ends with exactly one of an error
      and a result, and the result is the reply's payload as received; a
      stale result can survive only an early refusal. */
  lemma ErrorOrResult(prev: UiState, key: Option<string>, form: Form, mode: Mode, reply: Reply)
    ensures var s := HandleFetch(prev, key, form, mode, reply).state;
      && (s.error.Some? && s.result.Some? ==> s.result == prev.result && (!HasKey(key) || AllWhitespace(form.location)))
      && (s.result.Some? && s.result != prev.result ==> reply.Body? && s.result.value == StoredResult(mode, reply.payload))
  {
  }

  /** The key and location refusals keep a stale result on the page next to
      the new error message. */
  lemma StaleResultSurvivesRefusal(stored: StoredResult, key: Option<string>, mode: Mode, reply: Reply)
    requires HasKey(key)
    ensures var form := Form("  \t", "2019-09-07", "2019-09-07", "m");
      HandleFetch(UiState(None, Some(stored)), key, form, mode, reply).state
        == UiState(Some("Please enter a location."), Some(stored))
  {
    var form := Form("  \t", "2019-09-07", "2019-09-07", "m");
    assert AllWhitespace(form.location);
  }

  /** An error whose `info` is an empty array converts to the empty string,
      so the page shows the generic message. */
  lemma EmptyInfoShowsGenericMessage(mode: Mode)
    ensures Receive(mode, Body(Obj([("error", Obj([("info", Arr([]))]))])))
            == UiState(Some(FallbackMessage), None)
  {
    var error := Obj([("info", Arr([]))]);
    assert Member(error, "info") == Some(Arr([]));
    assert ToJsString(Arr([])) == "";
  }

  /** The marine example: a one-date historical block without tide fields is
      stored, its entry is selected, and the page shows the fallback note. */
  lemma MarineWithoutTides()
    ensures var entry := Obj([("date", Str("2019-09-07")), ("avgtemp", Num(18)),
                              ("hourly", Arr([Obj([("time", Num(900))])]))]);
      var data := Obj([("location", Obj([("name", Str("New York"))])),
                       ("historical", Obj([("2019-09-07", entry)]))]);
      var s := Receive(Marine, Body(data));
      && s == UiState(None, Some(StoredResult(Marine, data)))
      && FirstHistoricalEntry(s.result.value) == Some(entry)
      && TideView(s.result.value) == Fallback
  {
    var entry := Obj([("date", Str("2019-09-07")), ("avgtemp", Num(18)),
                      ("hourly", Arr([Obj([("time", Num(900))])]))]);
    var data := Obj([("location", Obj([("name", Str("New York"))])),
                     ("historical", Obj([("2019-09-07", entry)]))]);
    assert "location" != "error" && "location" != "historical" && "historical" != "error";
    assert Member(data, "error").None?;
    assert Lookup(data.fields[1..], "historical") == Some(Obj([("2019-09-07", entry)]));
    assert Member(data, "historical") == Some(Obj([("2019-09-07", entry)]));
    assert "date" != "tides" && "avgtemp" != "tides" && "hourly" != "tides";
    assert "date" != "tide" && "avgtemp" != "tide" && "hourly" != "tide";
    assert Member(entry, "tides").None?;
    assert Member(entry, "tide").None?;
  }
}
