/** The parsed JSON payload as the application sees it after
    `response.json()`, with JavaScript's truthiness, property access and
    `String(v)` conversion. */
module JsValue {
  import opened Wrappers
  import opened JsText

  /** A parsed JSON value. Numbers are integers. An object's fields are its
      own properties in property-enumeration order (the order `Object.keys`
      reports), with distinct names: a name repeated in the body text is one
      field, at its first position, holding the last value. An absent property (`undefined`) is
      `None` wherever an `Option<Json>` is used. */
  datatype Json =
    | Null
    | Bool(b: bool)
    | Num(n: int)
    | Str(s: string)
    | Arr(items: seq<Json>)
    | Obj(fields: seq<(string, Json)>)

  /** JavaScript truthiness: `null`, `false`, `0` and `""` are falsy, every
      array and object (even an empty one) is truthy. */
  predicate Truthy(v: Json) {
    match v
    case Null => false
    case Bool(b) => b
    case Num(n) => n != 0
    case Str(s) => s != ""
    case Arr(_) => true
    case Obj(_) => true
  }

  /** Exactly four values are falsy; in particular an empty array or object
      is truthy. */
  lemma FalsyValues(v: Json)
    ensures !Truthy(v) <==> v == Null || v == Bool(false) || v == Num(0) || v == Str("")
  {
  }

  /** Truthiness of a value that may be `undefined`. */
  predicate Present(v: Option<Json>) {
    v.Some? && Truthy(v.value)
  }

  /** The property names the application reads from the payload. None of
      them is `length`, an array index, or a member of `Object.prototype`,
      so they resolve to own properties of an object and to nothing else. */
  const ReadKeys: set<string> :=
    {"error", "info", "historical", "hourly", "tides", "tide", "time"}

  /** The value stored under `key` in a field list (the first occurrence). */
  function Lookup(fields: seq<(string, Json)>, key: string): (r: Option<Json>)
    ensures r.None? <==> forall i :: 0 <= i < |fields| ==> fields[i].0 != key
    ensures r.Some? ==> exists i :: 0 <= i < |fields| && fields[i] == (key, r.value)
  {
    if fields == [] then None
    else if fields[0].0 == key then Some(fields[0].1)
    else Lookup(fields[1..], key)
  }

  /** `v?.key` for one of the names in `ReadKeys`: only an object has such a
      property. (Without `?.`, reading a property of `null` throws; the one
      place the application does that is handled where it happens.) */
  function Member(v: Json, key: string): (r: Option<Json>)
    requires key in ReadKeys
    ensures r.Some? ==> v.Obj?
    ensures v.Obj? ==> r == Lookup(v.fields, key)
  {
    match v
    case Obj(fields) => Lookup(fields, key)
    case _ => None
  }

  /** `String(v)`, which is also the message of `new Error(v)`. An array is
      joined with commas, with `null` elements written as empty strings. The
      text is empty only for the empty string and for an array with no
      element or a single element that converts to nothing. */
  function ToJsString(v: Json): (r: string)
    ensures r == "" <==> (
              || v == Str("")
              || (v.Arr? && v.items == [])
              || (v.Arr? && |v.items| == 1 && (v.items[0].Null? || ToJsString(v.items[0]) == "")))
    ensures v.Arr? && |v.items| == 1 && !v.items[0].Null? ==> r == ToJsString(v.items[0])
    decreases v
  {
    match v
    case Null => "null"
    case Bool(b) => if b then "true" else "false"
    case Num(n) => IntDecimal(n)
    case Str(s) => s
    case Obj(_) => "[object Object]"
    case Arr(items) =>
      Join(seq(|items|, i requires 0 <= i < |items| =>
                 if items[i].Null? then "" else ToJsString(items[i])), ',')
  }

  /** `parts.join(sep)`. */
  function Join(parts: seq<string>, sep: char): (r: string)
    ensures parts == [] ==> r == ""
    ensures |parts| == 1 ==> r == parts[0]
    ensures parts != [] ==> |r| >= |parts[0]| && r[..|parts[0]|] == parts[0]
    ensures |parts| > 1 ==> |r| > |parts[0]| && r[|parts[0]|] == sep
  {
    if parts == [] then ""
    else if |parts| == 1 then parts[0]
    else parts[0] + [sep] + Join(parts[1..], sep)
  }

  /** The first value in `Object.keys` order, `v[Object.keys(v)[0]]`, for a
      truthy `v`: the first field of an object, the first element of an
      array, the first character of a string; numbers and `true` have no keys. */
  function FirstKeyValue(v: Json): (r: Option<Json>)
    ensures v.Obj? ==> (r.Some? <==> v.fields != [])
    ensures v.Obj? && v.fields != [] ==> r == Lookup(v.fields, v.fields[0].0)
    ensures v.Arr? ==> (r.Some? <==> v.items != [])
    ensures v.Arr? && v.items != [] ==> r == Some(v.items[0])
    ensures v.Null? || v.Bool? || v.Num? ==> r.None?
  {
    match v
    case Obj(fields) => if fields == [] then None else Some(fields[0].1)
    case Arr(items) => if items == [] then None else Some(items[0])
    case Str(s) => if s == "" then None else Some(Str([s[0]]))
    case _ => None
  }

  /** `String(v)` for a number is its decimal text, a minus sign and all. */
  lemma NumberString(n: int)
    ensures n >= 0 ==> AllDigits(ToJsString(Num(n))) && DigitsValue(ToJsString(Num(n))) == n
    ensures n < 0 ==> ToJsString(Num(n))[0] == '-'
  {
    if n >= 0 {
      NatDecimalRoundTrip(n);
    }
  }
}
