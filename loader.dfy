/** Talking to the backend (utili_project_v0/static/js/api.js): the error
    rule of `safeFetchJson`, `loadInitialData` with the device hierarchy,
    and the latest-wins guard of `loadDeviceData`, modelled as a sequential
    machine over "request issued" and "response settled" events. The
    network itself is an input: each settled request arrives as what
    `safeFetchJson` produced for it. */
module Loader {
  import opened Common
  import opened AppState
  import opened Hierarchy
  import opened CrossFilter

  // ---------------------------------------------------------------------
  // `safeFetchJson`

  /** A parsed response body. `NotObject` is a parsed value that is not an
      object (a number, string or boolean); in `Object` a field is None when
      it is absent or falsy, and the list fields are None unless they are
      arrays. */
  datatype Body =
    | NotObject
    | Object(error: Option<string>, sapMap: Option<map<string, int>>, pacsDataDetails: Option<seq<Txn>>,
             allUniqueDates: Option<seq<string>>, todayStr: Option<string>)

  /** What `safeFetchJson` produced: the parsed data (None for an empty or
      unparseable body), or the message of the error it threw. */
  datatype Fetched = Data(data: Option<Body>) | Thrown(message: string)

  /** `${n}` for a natural number. */
  function DecimalString(n: nat): (s: string)
    ensures s != [] && forall i :: 0 <= i < |s| ==> IsDigit(s[i])
  {
    if n < 10 then [DigitChar(n)] else DecimalString(n / 10) + [DigitChar(n % 10)]
  }

  /** Reading a string of digits back as a number. */
  function ParseDecimal(s: string): nat
    requires forall i :: 0 <= i < |s| ==> IsDigit(s[i])
  {
    if s == [] then 0 else ParseDecimal(s[..|s| - 1]) * 10 + DigitValue(s[|s| - 1])
  }

  lemma {:induction false} DecimalRoundTrip(n: nat)
    ensures ParseDecimal(DecimalString(n)) == n
  {
    if n >= 10 {
      DecimalRoundTrip(n / 10);
      var s := DecimalString(n);
      assert s[..|s| - 1] == DecimalString(n / 10);
    }
  }

  /** The message for a failed response without an error field. */
  function HttpMessage(status: nat, statusText: string): (m: string)
    ensures |m| == 5 + |DecimalString(status)| + 3 + |statusText|
    ensures m[..5] == "HTTP " && m[|m| - |statusText| - 3..] == " : " + statusText
  {
    "HTTP " + DecimalString(status) + " : " + statusText
  }

  /** The status code can be read back from the message. */
  lemma HttpMessageStatus(status: nat, statusText: string)
    ensures var m := HttpMessage(status, statusText);
      var digits := DecimalString(status);
      && m[..5] == "HTTP "
      && m[5..5 + |digits|] == digits
      && ParseDecimal(m[5..5 + |digits|]) == status
  {
    DecimalRoundTrip(status);
    var digits := DecimalString(status);
    assert HttpMessage(status, statusText)[5..5 + |digits|] == digits;
  }

  /** The body carries a truthy `error` field. */
  predicate CarriesError(data: Option<Body>) {
    data.Some? && data.value.Object? && Active(data.value.error)
  }

  /** The end of `safeFetchJson`: an ok response yields its data; a failed
      one throws the body's own error when it has one, otherwise
      `HTTP <status> : <statusText>`. */
  function SafeFetchJson(ok: bool, status: nat, statusText: string, data: Option<Body>): (r: Fetched)
    ensures ok <==> r.Data?
    ensures ok ==> r.data == data
    ensures !ok && CarriesError(data) ==> r.message == data.value.error.value && r.message != ""
    ensures !ok && !CarriesError(data) ==> r.message == HttpMessage(status, statusText)
  {
    if !ok then
      if CarriesError(data) then Thrown(data.value.error.value)
      else Thrown(HttpMessage(status, statusText))
    else Data(data)
  }

  // ---------------------------------------------------------------------
  // `loadInitialData`

  /** A successful `loadInitialData`: the catalogue (`{}` when absent), the
      hierarchy built from its entries, the view cleared, and the device
      named in the URL selected; `load` is the device to load next. */
  method LoadInitialData(st: State, catalogue: Option<map<string, Device>>, entries: seq<(string, Device)>,
                         urlAe: Option<string>)
    returns (load: Option<string>)
    requires st.Valid() && EntriesOf(entries, catalogue.GetOr(map[]))
    modifies st`bmeMap, st`deviceHierarchy, st`currentBmeName, st`currentBrandModel, st`currentAeTitle,
             st`currentMonthFilter, st`currentServiceFilter, st`serviceDetailsPage
    ensures st.Valid()
    ensures st.bmeMap == catalogue.GetOr(map[])
    ensures st.deviceHierarchy == HierarchyOf(entries)
    ensures st.currentMonthFilter == None && st.currentServiceFilter == None
    ensures load == if Active(urlAe) && urlAe.value in st.bmeMap then urlAe else None
    ensures forall ae, b, m :: ae in TitlesList(st.deviceHierarchy, b, m) ==> ae in st.bmeMap
    ensures !Active(urlAe) || urlAe.value !in st.bmeMap ==>
      unchanged(st`currentBmeName, st`currentBrandModel, st`currentAeTitle, st`serviceDetailsPage)
    ensures Active(urlAe) && urlAe.value in st.bmeMap ==>
      var device := st.bmeMap[urlAe.value];
      && st.currentBmeName == Some(BmeKey(device))
      && st.currentBrandModel == Some(BrandModelKey(device))
      && st.currentAeTitle == urlAe
      && st.serviceDetailsPage == 0
      && urlAe.value in TitlesList(st.deviceHierarchy, BmeKey(device), BrandModelKey(device))
  {
    StoreCatalogue(st, catalogue.GetOr(map[]), entries);
    if Active(urlAe) && urlAe.value in st.bmeMap {
      CataloguedIsFiled(entries, st.bmeMap, urlAe.value);
    }
    var status := ClearView(st);
    var brandModels, titles;
    load, brandModels, titles := ApplyInitialSelectionFromUrl(st, urlAe);
  }

  /** `state.bmeMap` and `state.deviceHierarchy`: the catalogue and the
      hierarchy built from its entries, which lists catalogue devices only. */
  method StoreCatalogue(st: State, bmeMap: map<string, Device>, entries: seq<(string, Device)>)
    requires st.Valid() && EntriesOf(entries, bmeMap)
    modifies st`bmeMap, st`deviceHierarchy
    ensures st.Valid()
    ensures st.bmeMap == bmeMap && st.deviceHierarchy == HierarchyOf(entries)
    ensures forall ae, b, m :: ae in TitlesList(st.deviceHierarchy, b, m) ==> ae in st.bmeMap
  {
    FiledAreCatalogued(entries, bmeMap);
    st.bmeMap := bmeMap;
    st.deviceHierarchy := HierarchyOf(entries);
  }

  /** Every title the hierarchy lists is a catalogue device. */
  lemma FiledAreCatalogued(entries: seq<(string, Device)>, bmeMap: map<string, Device>)
    requires EntriesOf(entries, bmeMap)
    ensures forall ae, b, m :: ae in TitlesList(HierarchyOf(entries), b, m) ==> ae in bmeMap
  {
    forall ae, b, m | ae in TitlesList(HierarchyOf(entries), b, m)
      ensures ae in bmeMap
    {
      ExactlyOneList(entries, bmeMap, ae, b, m);
    }
  }

  /** Every catalogue device is listed under its own two keys. */
  lemma CataloguedIsFiled(entries: seq<(string, Device)>, bmeMap: map<string, Device>, ae: string)
    requires EntriesOf(entries, bmeMap) && ae in bmeMap
    ensures ae in TitlesList(HierarchyOf(entries), BmeKey(bmeMap[ae]), BrandModelKey(bmeMap[ae]))
  {
    ExactlyOneList(entries, bmeMap, ae, BmeKey(bmeMap[ae]), BrandModelKey(bmeMap[ae]));
  }

  // ---------------------------------------------------------------------
  // The latest-wins guard of `loadDeviceData`

  datatype Event = Issue(aeTitle: string) | Settle(requestId: nat)

  /** How many requests a trace has issued (an empty title issues none). */
  function Issued(events: seq<Event>): nat {
    if events == [] then 0
    else
      var last := events[|events| - 1];
      Issued(events[..|events| - 1]) + (if last.Issue? && last.aeTitle != "" then 1 else 0)
  }

  /** Event `k` issues a request. */
  predicate IssuesAt(events: seq<Event>, k: nat) {
    k < |events| && events[k].Issue? && events[k].aeTitle != ""
  }

  /** The id of the request issued at `k`: one more than the counter. */
  function IdAt(events: seq<Event>, k: nat): nat
    requires IssuesAt(events, k)
  {
    Issued(events[..k]) + 1
  }

  /** The response settled at `k` belongs to the latest request. */
  predicate AcceptedAt(events: seq<Event>, k: nat) {
    k < |events| && events[k].Settle? && events[k].requestId == Issued(events[..k])
  }

  lemma {:induction false} IssuedStep(events: seq<Event>, k: nat)
    requires k < |events|
    ensures Issued(events[..k + 1]) == Issued(events[..k]) + (if IssuesAt(events, k) then 1 else 0)
  {
    assert events[..k + 1][..k] == events[..k];
  }

  lemma {:induction false} IssuedMonotone(events: seq<Event>, a: nat, b: nat)
    requires a <= b <= |events|
    ensures Issued(events[..a]) <= Issued(events[..b])
  {
    if a < b {
      IssuedMonotone(events, a, b - 1);
      IssuedStep(events, b - 1);
    }
  }

  /** Request ids are strictly increasing in issue order. */
  lemma IdsIncrease(events: seq<Event>, j: nat, k: nat)
    requires IssuesAt(events, j) && IssuesAt(events, k) && j < k
    ensures IdAt(events, j) < IdAt(events, k)
  {
    IssuedStep(events, j);
    IssuedMonotone(events, j + 1, k);
  }

  /** A response is accepted only when no request was issued after its own:
      the answer to a superseded request is always discarded. */
  lemma LatestWins(events: seq<Event>, j: nat, k: nat, m: nat)
    requires IssuesAt(events, j) && AcceptedAt(events, k) && events[k].requestId == IdAt(events, j)
    requires j < m < k
    ensures !IssuesAt(events, m)
  {
    IssuedStep(events, j);
    IssuedMonotone(events, j + 1, m);
    IssuedStep(events, m);
    IssuedMonotone(events, m + 1, k);
  }

  /** The title of the last request a trace has issued. */
  function LastIssued(events: seq<Event>): Option<string> {
    if events == [] then None
    else if IssuesAt(events, |events| - 1) then Some(events[|events| - 1].aeTitle)
    else LastIssued(events[..|events| - 1])
  }

  /** The request whose id is the counter's is the last one issued, so an
      accepted response belongs to the latest selection. */
  lemma {:induction false} AcceptedIsLatest(events: seq<Event>, j: nat)
    requires IssuesAt(events, j) && IdAt(events, j) == Issued(events)
    ensures LastIssued(events) == Some(events[j].aeTitle)
  {
    var n := |events|;
    if j < n - 1 {
      var front := events[..n - 1];
      assert events[..n] == events;
      IssuedStep(events, n - 1);
      IssuedStep(events, j);
      IssuedMonotone(events, j + 1, n - 1);
      assert !IssuesAt(events, n - 1);
      assert front[..j] == events[..j];
      assert front[..n - 1] == front;
      AcceptedIsLatest(front, j);
    }
  }

  /** What a settled response leads to. */
  datatype Outcome = Ignored | ShowError(message: string) | Loaded

  /** The decision of `loadDeviceData` once `safeFetchJson` has settled: a
      stale response is ignored whatever it holds; otherwise a thrown error,
      a body that is not an object and a body with an error field all go to
      the error display, and anything else is loaded. */
  function Decide(latest: bool, fetched: Fetched): (o: Outcome)
    ensures !latest ==> o == Ignored
    ensures latest && fetched.Thrown? ==> o == ShowError(fetched.message)
    ensures latest && fetched.Data? ==>
      (o == Loaded <==> fetched.data.Some? && fetched.data.value.Object? && !Active(fetched.data.value.error))
    ensures latest && fetched.Data? && CarriesError(fetched.data) ==> o == ShowError(fetched.data.value.error.value)
  {
    if !latest then Ignored
    else match fetched
      case Thrown(msg) => ShowError(msg)
      case Data(data) =>
        if data.None? || data.value.NotObject? then ShowError(BadFormatMessage)
        else if Active(data.value.error) then ShowError(data.value.error.value)
        else Loaded
  }

  /** "The data format from API /api/device-data is invalid", in Thai. */
  const BadFormatMessage: string := "รูปแบบข้อมูลจาก API /api/device-data ไม่ถูกต้อง"

  /** The `loadDeviceData` side of the guard: the module-level counter and,
      as a ghost, the trace of events it has seen. */
  class DeviceLoader {
    var activeDeviceRequestId: nat
    ghost var events: seq<Event>

    ghost predicate Valid()
      reads this
    {
      activeDeviceRequestId == Issued(events)
    }

    constructor ()
      ensures Valid() && activeDeviceRequestId == 0 && events == []
    {
      activeDeviceRequestId := 0;
      events := [];
    }

    /** The start of `loadDeviceData(aeTitle)`: an empty title issues no
      request; otherwise the request gets the next id. */
    method Start(aeTitle: string) returns (requestId: Option<nat>)
      requires Valid()
      modifies this
      ensures Valid()
      ensures events == old(events) + [Issue(aeTitle)]
      ensures aeTitle == "" ==> requestId.None? && activeDeviceRequestId == old(activeDeviceRequestId)
      ensures aeTitle != "" ==>
        requestId == Some(old(activeDeviceRequestId) + 1) && activeDeviceRequestId == requestId.value
    {
      IssuedStep(events + [Issue(aeTitle)], |events|);
      assert (events + [Issue(aeTitle)])[..|events|] == events;
      assert (events + [Issue(aeTitle)])[..|events| + 1] == events + [Issue(aeTitle)];
      events := events + [Issue(aeTitle)];
      if aeTitle == "" {
        return None;
      }
      activeDeviceRequestId := activeDeviceRequestId + 1;
      requestId := Some(activeDeviceRequestId);
    }

    /** The rest of `loadDeviceData` once its fetch has settled: the
      decision of `Decide`, and on `Loaded` the device's data with its
      defaults stored and the loaded title made current. Nothing else of
      the state changes, and a stale or failed response changes nothing. */
    method Finish(st: State, requestId: nat, aeTitle: string, fetched: Fetched) returns (outcome: Outcome)
      requires Valid()
      requires exists j: nat :: IssuesAt(events, j) && IdAt(events, j) == requestId && events[j].aeTitle == aeTitle
      modifies this`events, st`sapMap, st`pacsDataDetails, st`allUniqueDates, st`todayStr, st`currentAeTitle
      ensures Valid()
      ensures events == old(events) + [Settle(requestId)]
      ensures AcceptedAt(events, |events| - 1) <==> requestId == activeDeviceRequestId
      ensures outcome == Decide(requestId == activeDeviceRequestId, fetched)
      ensures outcome != Loaded ==>
        unchanged(st`sapMap, st`pacsDataDetails, st`allUniqueDates, st`todayStr, st`currentAeTitle)
      ensures outcome == Loaded ==>
        var body := fetched.data.value;
        && st.sapMap == body.sapMap.GetOr(map[])
        && st.pacsDataDetails == body.pacsDataDetails.GetOr([])
        && st.allUniqueDates == body.allUniqueDates.GetOr([])
        && st.todayStr == (if Active(body.todayStr) then body.todayStr else None)
        && st.currentAeTitle == Some(aeTitle)
        && st.currentAeTitle == LastIssued(old(events))
    {
      IssuedStep(events + [Settle(requestId)], |events|);
      assert (events + [Settle(requestId)])[..|events|] == events;
      assert (events + [Settle(requestId)])[..|events| + 1] == events + [Settle(requestId)];
      ghost var before := events;
      events := events + [Settle(requestId)];
      outcome := Decide(requestId == activeDeviceRequestId, fetched);
      if outcome != Loaded {
        return;
      }
      ghost var j: nat :| IssuesAt(before, j) && IdAt(before, j) == requestId && before[j].aeTitle == aeTitle;
      AcceptedIsLatest(before, j);
      var body := fetched.data.value;
      st.sapMap := body.sapMap.GetOr(map[]);
      st.pacsDataDetails := body.pacsDataDetails.GetOr([]);
      st.allUniqueDates := body.allUniqueDates.GetOr([]);
      st.todayStr := if Active(body.todayStr) then body.todayStr else None;
      st.currentAeTitle := Some(aeTitle);
    }
  }
}
