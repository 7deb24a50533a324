# Weather Glass: the fetch flow in Dafny

Weather Glass is a single-page React client for the weatherstack API. The
page has three tabs: current, historical and marine. A click on "Fetch
Weather" runs `handleFetch`, which does the following:

- checks the API key and the location;
- builds the query (endpoint `/current` or `/historical`, and
  `URLSearchParams` with `access_key`, `query`, `units` and, per tab,
  `historical_date`, `hourly` and `tide`);
- fetches the JSON body;
- turns a truthy `error` in the body into an error message, and otherwise
  stores `{ type, data }`.

The page then derives what it draws from the stored result:

- the entry under the first key of the `historical` block;
- the marine tide data (`tides`, else `tide`);
- the first six hourly chips and the first four tide cards;
- for each chip, a time label such as `900` → `09:00`.

This project models that logic as pure functions and proves its properties.

| file | module | what it holds |
|---|---|---|
| `wrappers.dfy` | `Wrappers` | `Option` and `Result` |
| `js_text.dfy` | `JsText` | `trim`, `padStart`, `String(n)` for integers, digit strings and their values |
| `js_value.dfy` | `JsValue` | the parsed JSON value, truthiness, `?.` property reads, `String(v)`, first value in key order |
| `search_params.dfy` | `SearchParams` | `URLSearchParams` `get` and `set` as the URL Standard defines them |
| `request_builder.dfy` | `RequestBuilder` | the pre-flight checks, the endpoint and the parameter list |
| `payload.dfy` | `Payload` | the check on the parsed body and the error message it yields |
| `selection.dfy` | `Selection` | `historicalBlock`, `firstHistoricalEntry`, `marineTides`, the hourly and tide truncations |
| `time_code.dfy` | `TimeCode` | the hourly chip's time label |
| `fetch_flow.dfy` | `FetchFlow` | one click from start to end, with the network reply as an input |

The state the click changes is the pair of `error` and `weatherResult`
(`FetchFlow.UiState`). The API key, the form fields, the tab and the reply
of `fetch`/`response.json()` are all parameters.

### Behaviour worth knowing

- A payload without `location`, `current` or `historical` is stored. The
  missing parts are simply not drawn (`Selection.EmptyHistoricalIsNotAnError`).
- An error without a truthy `info` shows 'API request failed.'
  (`Payload.ApiErrorMessage`).
- The key is checked before the location (`FetchFlow.MissingKeyWins`).
- All checks test truthiness, not presence:
  - `error: false` or `error: 0` lets the payload through (`Payload.FalsyErrorIsStored`);
  - an empty `tides` array wins over `tide` and shows no cards (`Selection.EmptyTidesArrayShowsNoCards`).
- The key and location refusals return before `setWeatherResult(null)`, so
  the previous result stays on the page next to the new error. A missing
  date is thrown after the result has been cleared (`FetchFlow.HandleFetch`,
  `FetchFlow.StaleResultSurvivesRefusal`).
- An `info` that converts to the empty string (for example `[]`) gives
  'Something went wrong.' (`FetchFlow.EmptyInfoShowsGenericMessage`).
- A body that is the JSON literal `null` makes `data.error` throw a
  `TypeError`, whose message becomes the error (`Payload.CheckPayload`).

## Model

| member | source | states |
|---|---|---|
| `RequestBuilder.Build` | src/App.jsx:18-61 | the refusals come in source order (key, then trimmed location, then the chosen tab's date); a built request goes to `/historical` exactly for the historical and marine tabs and to `/current` exactly for the current tab |
| `RequestBuilder.BuildSucceedsIff` | src/App.jsx:19-61 | a request is built if and only if the key is non-empty, the location is not all whitespace and the current tab is chosen or the tab's date is non-empty |
| `RequestBuilder.OtherDateIgnored` | src/App.jsx:44-61 | the historical tab never reads the marine date, the marine tab never reads the historical date, and the current tab reads neither |
| `RequestBuilder.ParamsByMode` | src/App.jsx:36-58 | the parameters are `access_key`, `query`, `units` followed by the tab's own pairs in insertion order, because none of the `set` calls meets a name already present |
| `RequestBuilder.FreshSets` | src/App.jsx:49-58 | after the three base pairs, each `set` of `historical_date`, `hourly` and `tide` appends its pair |
| `RequestBuilder.RecoverInputs` | src/App.jsx:36-58 | every name occurs once; `get` recovers the key, the trimmed location and the units; `historical_date` is present exactly outside the current tab and holds that tab's date; `tide=1` is present exactly for the marine tab |
| `SearchParams.Set` | src/App.jsx:49-58 | after `set`, `get` returns the new value, the name occurs once, at the position of its first earlier occurrence, the pairs with other names are unchanged and in order, and an absent name is appended |
| `SearchParams.SetKeepsDistinct` | src/App.jsx:49-58 | `set` on a list with distinct names leaves the names distinct |
| `SearchParams.Without` | src/App.jsx:49-58 | dropping a name removes every pair with it and keeps every other name, and changes nothing when the name is absent |
| `SearchParams.Get` | src/App.jsx:49-58 | `get` is absent exactly when no pair has the name |
| `SearchParams.GetIsFirst` | src/App.jsx:49-58 | a present `get` is the value of the first pair with that name |
| `JsText.Trim` | src/App.jsx:26-38 | the trimmed text is no longer than the input, neither starts nor ends with whitespace, and is empty exactly when the input is all whitespace |
| `JsText.TrimOfPadded` | src/App.jsx:26-38 | surrounding a whitespace-free-ended text with any whitespace leaves exactly that text after trimming |
| `JsText.TrimIdempotent` | src/App.jsx:26-38 | trimming twice gives the same as trimming once |
| `JsText.SkipWhitespace` | src/App.jsx:26-38 | the scan from the left stops at the first character that is not whitespace, or at the end, having passed only whitespace |
| `JsText.BackWhitespace` | src/App.jsx:26-38 | the scan from the right stops just after the last character that is not whitespace, or at 0, having passed only whitespace |
| `JsText.SkipStopsAt` | src/App.jsx:26-38 | the left scan's stopping point is the unique position preceded by whitespace only and holding a non-whitespace character or the end |
| `JsText.BackStopsAt` | src/App.jsx:26-38 | the right scan's stopping point is the unique position followed by whitespace only and preceded by a non-whitespace character or the start |
| `JsText.TrimStartIsSkip` | src/App.jsx:26-38 | removing leading whitespace one character at a time leaves the text from the first non-whitespace character on |
| `JsText.TrimEndIsBack` | src/App.jsx:26-38 | removing trailing whitespace one character at a time leaves the text up to the last non-whitespace character |
| `JsText.TrimIsBackOfSkipped` | src/App.jsx:26-38 | scanning back over what the left scan leaves ends exactly where the trimmed text ends |
| `JsText.TrimIsBothEnds` | src/App.jsx:26-38 | `trim` equals removing the trailing whitespace after removing the leading whitespace, one character at a time |
| `JsText.PadStart` | src/App.jsx:297 | the padded text has length max(width, length), ends with the input, and is filled with the fill character in front |
| `JsText.NatDecimal` | src/App.jsx:297 | `String(n)` of a natural number is a non-empty digit string with no leading zero, one digit exactly when n < 10 |
| `JsText.IntDecimal` | src/App.jsx:297 | a non-negative integer prints as digits only, a negative one as a minus sign followed by digits |
| `JsText.NatDecimalRoundTrip` | src/App.jsx:297 | reading back the decimal digits of n gives n |
| `JsText.LeadingZerosValue` | src/App.jsx:297 | zeros in front of a digit string do not change its value |
| `JsText.DigitsValueSplit` | src/App.jsx:297 | the value of `head + tail` is the head's value times 10^|tail| plus the tail's value |
| `JsValue.FalsyValues` | src/App.jsx:19-90 | the falsy values are exactly `null`, `false`, `0` and the empty string; every array and object is truthy |
| `JsValue.ToJsString` | src/App.jsx:68 | `String(v)` is empty exactly for the empty string, an empty array, and a one-element array whose element is `null` or converts to empty; a one-element array whose element is not `null` converts as its element |
| `JsValue.Join` | src/App.jsx:68 | `join` of no parts is empty, of one part is that part, and otherwise starts with the first part followed by the separator |
| `JsValue.Lookup` | src/App.jsx:79-91 | reading a property is undefined exactly when no field has that name, and otherwise is the value of some field of that name |
| `JsValue.Member` | src/App.jsx:79-91 | `v?.key` has a value only when `v` is an object, and then it is that object's property |
| `JsValue.FirstKeyValue` | src/App.jsx:84-86 | the value under the first key is the first field of a non-empty object and the first element of a non-empty array; `null`, booleans and numbers have none |
| `JsValue.NumberString` | src/App.jsx:297 | `String(n)` for n ≥ 0 is a digit string whose value is n; for n < 0 it starts with a minus sign |
| `Payload.ApiErrorMessage` | src/App.jsx:67-68 | a falsy or missing `info` gives 'API request failed.', a non-empty string `info` gives exactly that text, and any other truthy `info` (a number, `true`, an array, an object) gives `String(info)` |
| `Payload.CheckPayload` | src/App.jsx:65-71 | the body is stored, unchanged and tagged with the tab, exactly when it is not `null` and its `error` is falsy; a `null` body fails with the `TypeError` message; any other failure carries the error's message |
| `Payload.CheckIgnoresMode` | src/App.jsx:67-71 | whether the check fails, and with which message, does not depend on the tab |
| `Payload.InfoIsReported` | src/App.jsx:67-68 | a truthy `error` with a non-empty `info` text is reported with that text |
| `Payload.InvalidKeyPayload` | src/App.jsx:67-68 | the service's bad-key payload is reported as `invalid_access_key` |
| `Payload.FalsyErrorIsStored` | src/App.jsx:67-71 | a payload whose `error` is falsy is stored unchanged |
| `Selection.Take` | src/App.jsx:294 | `slice(0, n)` keeps min(n, length) elements, and they are the input's first ones in order |
| `Selection.HistoricalBlock` | src/App.jsx:81-82 | the block exists exactly when the tab is not current and `historical` is truthy, and then it is that value |
| `Selection.FirstHistoricalEntry` | src/App.jsx:84-86 | there is no entry for a current result or a falsy `historical`; an entry comes only from the historical block |
| `Selection.MarineTides` | src/App.jsx:88-91 | tide data comes only from a truthy entry of a marine result, and for such an entry it is `tides` if that is truthy, else `tide` |
| `Selection.TideView` | src/App.jsx:313-334 | the fallback note shows exactly when the tide data is falsy or absent; cards show exactly for an array, at most four of them, the first ones in order; any other value is shown whole |
| `Selection.HourlyChips` | src/App.jsx:292-294 | chips are drawn exactly for a historical result whose truthy entry has an array `hourly`, and they are its first min(6, n) elements in order |
| `Selection.EntryIsFirst` | src/App.jsx:84-86 | the entry is the value under the first key of `historical`, whatever that key is and whatever follows it |
| `Selection.EmptyHistoricalIsNotAnError` | src/App.jsx:67-86 | a payload with an empty or absent `historical` is accepted and gives no entry |
| `Selection.TidesBeforeTide` | src/App.jsx:88-91 | a truthy `tides` is used, and otherwise `tide` is used |
| `Selection.NoTideDataShowsFallback` | src/App.jsx:313-334 | a marine entry with neither `tides` nor `tide` shows the fallback note |
| `Selection.EmptyTidesArrayShowsNoCards` | src/App.jsx:313-316 | an empty `tides` array is truthy and shows zero cards instead of the fallback note |
| `TimeCode.FormatTime` | src/App.jsx:297 | when the padded text ends in two digits, the label is one character longer, has a colon before the last two, and deleting that colon gives back the padded text; otherwise the label is the padded text |
| `TimeCode.HourLabel` | src/App.jsx:297 | the chip label of any `time` value, present or absent, is `String(time)` padded to four with zeros, with a colon put before the last two characters exactly when both are digits |
| `TimeCode.CodeLabelShape` | src/App.jsx:297 | for a code n ≥ 0 the label is max(4, digits) + 1 long, has the colon three from the end, and deleting the colon gives the zero-padded decimal text |
| `TimeCode.CodeLabelIsClock` | src/App.jsx:297 | a code below 10000 gives a label `HH:MM` whose `HH` reads as n / 100 and whose `MM` reads as n % 100 |
| `TimeCode.PaddedDigits` | src/App.jsx:297 | zero-padding a digit string to four keeps it a digit string with the same value |
| `TimeCode.FourDigitsSplit` | src/App.jsx:297 | the first two of four digits read as the hundreds of their value and the last two as the remainder |
| `TimeCode.ClockLabel` | src/App.jsx:297 | a code whose padded decimal text is four digits gets that text with a colon in the middle |
| `TimeCode.NineHundred` | src/App.jsx:297 | the code 900 is labelled `09:00` |
| `TimeCode.Midnight` | src/App.jsx:297 | the code 0 is labelled `00:00` |
| `TimeCode.TwentyThreeThirty` | src/App.jsx:297 | the code 2330 is labelled `23:30` |
| `TimeCode.NegativeCodeIsNotSplit` | src/App.jsx:297 | the code -5 is padded to `00-5` and gets no colon |
| `TimeCode.MissingTimeLabel` | src/App.jsx:297 | a chip without `time` is labelled `undefined` |
| `FetchFlow.Shown` | src/App.jsx:72-73 | the shown message is never empty: it is the error's own message when that is non-empty, and 'Something went wrong.' when it is empty |
| `FetchFlow.Receive` | src/App.jsx:63-73 | the reply ends in exactly one of a non-empty error and a stored result; a result is stored exactly when a body passes the check, and it is that body; a thrown error shows its message, and a body that fails the check shows the check's message (the `info` text, 'API request failed.' or the null-body TypeError text), each through `Shown` |
| `FetchFlow.HandleFetch` | src/App.jsx:18-77 | a request is sent exactly when one can be built; key and location refusals show their message and keep the previous result; a date refusal shows its message and clears the result; after a send the state is what the reply gives; any error shown is non-empty |
| `FetchFlow.MissingKeyWins` | src/App.jsx:19-29 | with no key or an empty key, the key message is shown whatever the location, the previous result stays, and nothing is sent |
| `FetchFlow.ErrorOrResult` | src/App.jsx:31-73 | an error and a result are shown together only after a key or location refusal, with the stale result; a new result is always the reply's body |
| `FetchFlow.StaleResultSurvivesRefusal` | src/App.jsx:26-29 | a blank location shows 'Please enter a location.' next to the previous result |
| `FetchFlow.EmptyInfoShowsGenericMessage` | src/App.jsx:67-73 | an `error` whose `info` is an empty array shows 'Something went wrong.' |
| `FetchFlow.MarineWithoutTides` | src/App.jsx:79-91 | a marine body with one historical date and no tide fields is stored, its entry is selected, and the fallback note shows |

## Left out

- React state, hooks, JSX markup, CSS and tab switching are not modelled.
  Only the `error`/`weatherResult` pair is state here.
- The `loading` flag is not modelled, nor the `finally` that clears it.
- `fetch` and `response.json()` are not modelled. The parsed body, or the
  message of what they threw, is the `Reply` parameter. Non-JSON bodies and
  network failures appear only as `Thrown` messages.
- `import.meta.env.VITE_WEATHERSTACK_API_KEY` is not read. The key is the
  `Option<string>` parameter of `Build`.
- Percent-encoding and `URLSearchParams.toString()` are not modelled, nor
  the URL string built from them (line 63). The model stops at the ordered
  list of name/value pairs.
- Numbers in the payload are unbounded integers, not doubles. Fractions,
  `NaN`, `Infinity`, the loss of precision above 2^53 and the exponent
  notation `String` uses from 10^21 on are not modelled.
- JsValue.NumberString: states the digit text for every n ≥ 0. JavaScript
  prints n ≥ 10^21 in exponent notation (`String(1e21)` is "1e+21"), so
  the statement matches JavaScript's `String` only below 10^21.
- JsText.NatDecimal: the plain decimal text of any natural number; for
  numbers of 10^21 and more JavaScript's `String` differs, as above.
- TimeCode.CodeLabelShape: the label shape holds for codes below 10^21
  only. For `time: 1e21` the page shows "1e+:21", while the model gives
  the digits of 10^21 with a colon before the last two.
- TimeCode.HourLabel: for numbers of 10^21 and more the text being padded
  is the model's decimal text, not JavaScript's exponent form.
- JsText.PadStart: lengths count Unicode scalar values, while JavaScript's
  `padStart` counts UTF-16 code units. A `time` text holding a character
  outside the Basic Multilingual Plane (such as U+1F600) gets one zero
  more in the model than on the page.
- JsValue.ToJsString: an object converts to "[object Object]". An object
  whose own `toString` field is not callable (for example
  `info: {"toString": 1}`) makes `String` throw a `TypeError` inside the
  `try`, which is not modelled; nor is an object's own callable
  `toString`, which JSON cannot carry.
- A body is given as its parsed value, whose object fields have distinct
  names. `JSON.parse` turns a name repeated in the body text into one
  field, at the first occurrence's position, holding the last value (so
  `{"error": false, "error": {"info": "x"}}` arrives as a truthy
  `error`). Building that value from the text is not modelled, and a
  `Json` object written with a repeated name stands for no real body;
  `JsValue.Lookup` reads its first field of the name.
- Object fields are given in property-enumeration order. JavaScript's rule
  that integer-like keys come first in `Object.keys` is not modelled. Date
  keys such as `2019-09-07` are not integer-like.
- JsValue.FirstKeyValue: for a string, its first character stands for the
  first UTF-16 code unit.
- JsText.IsJsWhitespace lists the Unicode "Zs" characters as written out.
  It does not follow a particular Unicode version.
- The text of the `TypeError` for a `null` body is the V8 wording. Other
  engines word it differently.
- `JSON.stringify` of tide records (lines 320 and 326) is not modelled.
  `TideView` yields the records shown.
- The current-conditions panel (lines 209-262) is not modelled, nor the
  historical summary fields, the chips' temperature and description, unit
  labels, or the marine wind sample (lines 348-349). They are plain
  property reads with no logic of their own.
- TimeCode.HourLabel does not model a chip whose element is `null`,
  where reading `h.time` would throw during rendering. Chips of other
  non-object elements read `time` as undefined.
