/** What the page derives from the stored result before rendering it: the
    entry of the date-keyed `historical` block, the marine tide data, and the
    truncated hourly and tide lists. None of these raises an error: a missing
    piece only means that part of the page is not drawn. */
module Selection {
  import opened Wrappers
  import opened JsValue
  import opened RequestBuilder
  import opened Payload

  /** The first `n` elements of `s`, in order (`s.slice(0, n)`). */
  function Take<T>(s: seq<T>, n: nat): (r: seq<T>)
    ensures |r| == if |s| < n then |s| else n
    ensures r == s[..|r|]
  {
    if |s| < n then s else s[..n]
  }

  /** `historicalBlock`: the `historical` value, when the result was not
      fetched in current mode and that value is truthy. */
  function HistoricalBlock(r: StoredResult): (b: Option<Json>)
    ensures b.Some? <==> r.mode != Current && Present(Member(r.data, "historical"))
    ensures b.Some? ==> Member(r.data, "historical") == b && Truthy(b.value)
  {
    var h := Member(r.data, "historical");
    if r.mode != Current && Present(h) then h else None
  }

  /** `firstHistoricalEntry`: the value under the first key of the
      `historical` block. The date key itself is never inspected. */
  function FirstHistoricalEntry(r: StoredResult): (e: Option<Json>)
    ensures r.mode == Current ==> e.None?
    ensures !Present(Member(r.data, "historical")) ==> e.None?
    ensures e.Some? ==> HistoricalBlock(r).Some?
  {
    match HistoricalBlock(r)
    case None => None
    case Some(h) => FirstKeyValue(h)
  }

  /** `marineTides`: for a marine result with a truthy entry, the entry's
      `tides` when truthy, else its `tide` (which may be absent or falsy). */
  function MarineTides(r: StoredResult): (t: Option<Json>)
    ensures r.mode != Marine || !Present(FirstHistoricalEntry(r)) ==> t.None?
    ensures r.mode == Marine && Present(FirstHistoricalEntry(r)) ==>
              var e := FirstHistoricalEntry(r).value;
              && (Present(Member(e, "tides")) ==> t == Member(e, "tides"))
              && (!Present(Member(e, "tides")) ==> t == Member(e, "tide"))
    ensures t.Some? ==> var e := FirstHistoricalEntry(r).value;
              t == Member(e, "tides") || (!Present(Member(e, "tides")) && t == Member(e, "tide"))
  {
    var e := FirstHistoricalEntry(r);
    if r.mode == Marine && Present(e) then
      var tides := Member(e.value, "tides");
      if Present(tides) then tides else Member(e.value, "tide")
    else None
  }

  /** How the marine section shows tide data. */
  datatype TideDisplay =
    | Fallback              // the "not returned for this location or plan" note
    | Cards(shown: seq<Json>)  // one card per tide record
    | Single(record: Json)    // the whole value in one block

  /** The tide part of the marine section, drawn only for a marine result:
      the fallback note when the tide data is falsy or absent, at most four
      cards for an array, one block for anything else. */
  function TideView(r: StoredResult): (v: TideDisplay)
    requires r.mode == Marine
    ensures v.Fallback? <==> !Present(MarineTides(r))
    ensures v.Cards? <==> Present(MarineTides(r)) && MarineTides(r).value.Arr?
    ensures v.Cards? ==> var items := MarineTides(r).value.items;
              |v.shown| == (if |items| < 4 then |items| else 4) && v.shown == items[..|v.shown|]
    ensures v.Single? ==> Some(v.record) == MarineTides(r)
  {
    var t := MarineTides(r);
    if !Present(t) then Fallback
    else if t.value.Arr? then Cards(Take(t.value.items, 4))
    else Single(t.value)
  }

  /** The hourly chips of the historical section: drawn only for a
      historical result with a truthy entry whose `hourly` is an array, and
      then its first six elements in order. */
  function HourlyChips(r: StoredResult): (chips: Option<seq<Json>>)
    ensures chips.Some? <==> r.mode == Historical && Present(FirstHistoricalEntry(r))
                             && exists items :: Member(FirstHistoricalEntry(r).value, "hourly") == Some(Arr(items))
    ensures chips.Some? ==> var items := Member(FirstHistoricalEntry(r).value, "hourly").value.items;
              |chips.value| == (if |items| < 6 then |items| else 6) && chips.value == items[..|chips.value|]
  {
    var e := FirstHistoricalEntry(r);
    if r.mode == Historical && Present(e) then
      match Member(e.value, "hourly")
      case Some(Arr(items)) => Some(Take(items, 6))
      case _ => None
    else None
  }

  /** The entry is the value at the first key of the mapping, whatever that
      key is and whatever follows it. */
  lemma EntryIsFirst(mode: Mode, data: Json, date: string, entry: Json, later: seq<(string, Json)>)
    requires mode != Current
    requires Member(data, "historical") == Some(Obj([(date, entry)] + later))
    ensures FirstHistoricalEntry(StoredResult(mode, data)) == Some(entry)
  {
  }

  /** An empty or absent `historical` mapping gives no entry, and the
      payload check has still accepted the result. */
  lemma EmptyHistoricalIsNotAnError(mode: Mode, data: Json)
    requires !data.Null? && !Present(Member(data, "error"))
    requires Member(data, "historical") == Some(Obj([])) || Member(data, "historical").None?
    ensures CheckPayload(mode, data).Success?
    ensures FirstHistoricalEntry(CheckPayload(mode, data).value).None?
  {
  }

  /** `tides` wins over `tide` when it is truthy; otherwise `tide` is used. */
  lemma TidesBeforeTide(r: StoredResult, e: Json)
    requires r.mode == Marine && FirstHistoricalEntry(r) == Some(e) && Truthy(e)
    ensures Present(Member(e, "tides")) ==> MarineTides(r) == Member(e, "tides")
    ensures !Present(Member(e, "tides")) ==> MarineTides(r) == Member(e, "tide")
  {
  }

  /** A marine entry with neither `tides` nor `tide` shows the fallback
      note; it is not an error. */
  lemma NoTideDataShowsFallback(r: StoredResult, e: Json)
    requires r.mode == Marine && FirstHistoricalEntry(r) == Some(e)
    requires Member(e, "tides").None? && Member(e, "tide").None?
    ensures TideView(r) == Fallback
  {
  }

  /** An empty `tides` array is truthy: it shows no cards rather than the
      fallback note, and `tide` is not consulted. */
  lemma EmptyTidesArrayShowsNoCards(r: StoredResult, e: Json)
    requires r.mode == Marine && FirstHistoricalEntry(r) == Some(e) && Truthy(e)
    requires Member(e, "tides") == Some(Arr([]))
    ensures TideView(r) == Cards([])
  {
  }
}
