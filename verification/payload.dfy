/** The response half of `handleFetch`: the parsed body either carries a
    truthy `error` and becomes an error message, or is stored unchanged
    together with the mode it was fetched for. */
module Payload {
  import opened Wrappers
  import opened JsValue
  import opened RequestBuilder

  /** The value `setWeatherResult({ type, data })` stores. */
  datatype StoredResult = StoredResult(mode: Mode, data: Json)

  const ApiFailedMessage := "API request failed."

  /** The message V8 gives the `TypeError` raised by reading `data.error`
      when the body is the JSON literal `null`. */
  const NullPayloadMessage := "Cannot read properties of null (reading 'error')"

  /** `new Error(data.error.info || 'API request failed.').message` for a
      truthy `error`: the info converted to a string when it is truthy,
      the fixed text otherwise. */
  function ApiErrorMessage(error: Json): (m: string)
    ensures !Present(Member(error, "info")) ==> m == ApiFailedMessage
    ensures (exists s :: Member(error, "info") == Some(Str(s)) && s != "") ==> Some(Str(m)) == Member(error, "info")
    ensures Present(Member(error, "info")) ==> m == ToJsString(Member(error, "info").value)
  {
    var info := Member(error, "info");
    if Present(info) then ToJsString(info.value) else ApiFailedMessage
  }

  /** The check on the parsed body. A `null` body fails on the property
      read itself; a truthy `error` fails with its message; anything else,
      whatever its shape, is stored unchanged. */
  function CheckPayload(mode: Mode, data: Json): (r: Result<StoredResult, string>)
    ensures r.Success? <==> !data.Null? && !Present(Member(data, "error"))
    ensures r.Success? ==> r.value == StoredResult(mode, data)
    ensures data.Null? ==> r == Failure(NullPayloadMessage)
    ensures r.Failure? && !data.Null? ==> r.error == ApiErrorMessage(Member(data, "error").value)
  {
    if data.Null? then Failure(NullPayloadMessage)
    else
      var error := Member(data, "error");
      if Present(error) then Failure(ApiErrorMessage(error.value))
      else Success(StoredResult(mode, data))
  }

  /** The outcome of the check does not depend on the mode, and a failure is
      the same failure for every mode. */
  lemma CheckIgnoresMode(m1: Mode, m2: Mode, data: Json)
    ensures CheckPayload(m1, data).Failure? <==> CheckPayload(m2, data).Failure?
    ensures CheckPayload(m1, data).Failure? ==> CheckPayload(m1, data) == CheckPayload(m2, data)
  {
  }

  /** A service error with a non-empty `info` text is reported with exactly
      that text, in every mode. */
  lemma InfoIsReported(mode: Mode, data: Json, error: Json, info: string)
    requires Member(data, "error") == Some(error)
    requires Member(error, "info") == Some(Str(info)) && info != ""
    ensures CheckPayload(mode, data) == Failure(info)
  {
  }

  /** The service's usual error payload for a bad key. */
  lemma InvalidKeyPayload(mode: Mode)
    ensures CheckPayload(mode, Obj([("success", Bool(false)),
                                    ("error", Obj([("code", Num(101)), ("info", Str("invalid_access_key"))]))]))
            == Failure("invalid_access_key")
  {
    var error := Obj([("code", Num(101)), ("info", Str("invalid_access_key"))]);
    var data := Obj([("success", Bool(false)), ("error", error)]);
    assert "success" != "error" && "code" != "info";
    assert Lookup(data.fields[1..], "error") == Some(error);
    assert Member(data, "error") == Some(error);
    assert Lookup(error.fields[1..], "info") == Some(Str("invalid_access_key"));
    assert Member(error, "info") == Some(Str("invalid_access_key"));
  }

  /** The check is on truthiness, not presence: `error: false`, `0` or `""`
      lets the payload through unchanged. */
  lemma FalsyErrorIsStored(mode: Mode, flag: Json, rest: seq<(string, Json)>)
    requires !Truthy(flag)
    ensures CheckPayload(mode, Obj([("error", flag)] + rest)) == Success(StoredResult(mode, Obj([("error", flag)] + rest)))
  {
  }
}
