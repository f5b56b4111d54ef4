/** The cross-filter state machine: the handlers of static/js/ui.js,
    static/js/charts.js and static/js/charts-data.js (and their twins in
    utili_project_v0/static/js/dashboard.js) as transitions of the global
    state. A handler that ends by redrawing everything (`drawChartAndTable`)
    is modelled up to that call; the two that redraw only the service
    breakdown call its model. */
module CrossFilter {
  import opened Common
  import opened AppState
  import opened Hierarchy
  import opened ServiceDetails

  /** `current === v ? null : v`: a click on the active value clears the
      filter, a click on any other value selects it. */
  function Toggle(current: Option<string>, v: string): (r: Option<string>)
    ensures r == None <==> current == Some(v)
    ensures r != None ==> r == Some(v)
  {
    if current == Some(v) then None else Some(v)
  }

  // ---------------------------------------------------------------------
  // The filter status line (`updateFilterStatus`)

  /** What the status line shows: a chip per active filter, the hint when
      there is none, and the clear button when there is one. */
  datatype FilterStatus = FilterStatus(monthChip: Option<string>, serviceChip: Option<string>,
                                       hint: bool, clearButton: bool)

  function Chip(f: Option<string>): (c: Option<string>)
    ensures c.Some? <==> Active(f)
    ensures c.Some? ==> c == f
  {
    if Active(f) then f else None
  }

  function StatusOf(month: Option<string>, service: Option<string>): (s: FilterStatus)
    ensures s.monthChip.Some? <==> Active(month)
    ensures s.serviceChip.Some? <==> Active(service)
    ensures s.clearButton <==> Active(month) || Active(service)
    ensures s.hint <==> !s.clearButton
  {
    var monthChip := Chip(month);
    var serviceChip := Chip(service);
    FilterStatus(monthChip, serviceChip, monthChip.None? && serviceChip.None?, Active(month) || Active(service))
  }

  // ---------------------------------------------------------------------
  // Clicks on the charts

  /** A click on a month of the monthly or cumulative chart; `ym` is the
      `YYYY-MM` of the clicked date. */
  method ClickMonth(st: State, ym: string)
    requires st.Valid() && ym != ""
    modifies st`currentMonthFilter, st`serviceDetailsPage
    ensures st.Valid()
    ensures st.currentMonthFilter == Toggle(old(st.currentMonthFilter), ym)
    ensures st.serviceDetailsPage == 0
  {
    st.currentMonthFilter := Toggle(st.currentMonthFilter, ym);
    st.serviceDetailsPage := 0;
  }

  /** A click on bar `row` of the count or revenue chart: toggles the
      service at global index `page * 5 + row`, does nothing when there is
      no such entry, and keeps the page. */
  method ClickService(st: State, row: nat)
    requires st.Valid()
    modifies st`currentServiceFilter
    ensures st.Valid()
    ensures var idx := st.serviceDetailsPage * PageSize + row;
      if idx < |st.sortedServiceSummary| then
        st.currentServiceFilter == Toggle(old(st.currentServiceFilter), st.sortedServiceSummary[idx].serviceCode)
      else
        st.currentServiceFilter == old(st.currentServiceFilter)
    ensures row < |PageRows(st.sortedServiceSummary, st.serviceDetailsPage)| ==>
      st.currentServiceFilter ==
        Toggle(old(st.currentServiceFilter), PageRows(st.sortedServiceSummary, st.serviceDetailsPage)[row].serviceCode)
  {
    var globalIndex := st.serviceDetailsPage * PageSize + row;
    if globalIndex >= |st.sortedServiceSummary| {
      return;
    }
    var code := st.sortedServiceSummary[globalIndex].serviceCode;
    st.currentServiceFilter := Toggle(st.currentServiceFilter, code);
  }

  // ---------------------------------------------------------------------
  // Paging and the year drop-down

  /** The part of `changeServicePage` before the redraw: the page it moves
      to, or None when that page does not exist. */
  function PageMove(page: nat, items: nat, direction: int): (r: Option<nat>)
    ensures r.Some? <==> 0 <= page + direction && (page + direction) * PageSize < items
    ensures r.Some? ==> r.value == page + direction
  {
    var newPage := page + direction;
    PageExists(items, if newPage < 0 then 0 else newPage);
    if newPage < 0 || newPage >= TotalPages(items) then None else Some(newPage)
  }

  /** `changeServicePage` of static/js/charts.js: a move off either end does
      nothing; otherwise the page is set and the breakdown redrawn, which
      keeps that page whenever the summary it recomputes is the one shown. */
  method ChangeServicePage(st: State, direction: int) returns (panel: Option<Panel>)
    requires st.Valid()
    modifies st`serviceDetailsPage, st`sortedServiceSummary
    ensures st.Valid()
    ensures var move := PageMove(old(st.serviceDetailsPage), |old(st.sortedServiceSummary)|, direction);
      && (move.None? ==>
            panel.None? && st.serviceDetailsPage == old(st.serviceDetailsPage)
            && st.sortedServiceSummary == old(st.sortedServiceSummary))
      && (move.Some? ==>
            && panel.Some?
            && Redrawn(Selection(st.pacsDataDetails, st.currentAeTitle, st.currentMonthFilter, st.currentYearFilter),
                       old(st.sortedServiceSummary), move.value, st.currentServiceFilter,
                       st.sortedServiceSummary, st.serviceDetailsPage, panel.value)
            && (st.sortedServiceSummary == old(st.sortedServiceSummary) ==> st.serviceDetailsPage == move.value))
  {
    var move := PageMove(st.serviceDetailsPage, |st.sortedServiceSummary|, direction);
    if move.None? {
      return None;
    }
    st.serviceDetailsPage := move.value;
    var _, p := DrawServiceDetailsChart(st, st.currentAeTitle, st.currentMonthFilter, st.currentServiceFilter);
    panel := Some(p);
  }

  /** `changeServicePage` of utili_project_v0/static/js/dashboard.js, which
      redraws with that file's selection (no year filter). */
  method LegacyChangeServicePage(st: State, direction: int) returns (panel: Option<Panel>)
    requires st.Valid()
    modifies st`serviceDetailsPage, st`sortedServiceSummary
    ensures st.Valid()
    ensures var move := PageMove(old(st.serviceDetailsPage), |old(st.sortedServiceSummary)|, direction);
      && (move.None? ==>
            panel.None? && st.serviceDetailsPage == old(st.serviceDetailsPage)
            && st.sortedServiceSummary == old(st.sortedServiceSummary))
      && (move.Some? ==>
            && panel.Some?
            && Redrawn(LegacySelection(st.pacsDataDetails, st.currentAeTitle, st.currentMonthFilter),
                       old(st.sortedServiceSummary), move.value, st.currentServiceFilter,
                       st.sortedServiceSummary, st.serviceDetailsPage, panel.value)
            && (st.sortedServiceSummary == old(st.sortedServiceSummary) ==> st.serviceDetailsPage == move.value))
  {
    var move := PageMove(st.serviceDetailsPage, |st.sortedServiceSummary|, direction);
    if move.None? {
      return None;
    }
    st.serviceDetailsPage := move.value;
    var p := LegacyDrawServiceDetailsChart(st, st.currentAeTitle, st.currentMonthFilter, st.currentServiceFilter);
    panel := Some(p);
  }

  /** The year drop-down's `onchange`: the chosen year (none for the empty
      option), page 0, and the breakdown redrawn with it. */
  method ChangeYearFilter(st: State, value: string) returns (years: seq<string>, panel: Panel)
    requires st.Valid()
    modifies st`currentYearFilter, st`serviceDetailsPage, st`sortedServiceSummary
    ensures st.Valid()
    ensures st.currentYearFilter == OrNull(value)
    ensures IsYearList(years, st.pacsDataDetails, st.currentAeTitle)
    ensures Redrawn(Selection(st.pacsDataDetails, st.currentAeTitle, st.currentMonthFilter, OrNull(value)),
                    old(st.sortedServiceSummary), 0, st.currentServiceFilter,
                    st.sortedServiceSummary, st.serviceDetailsPage, panel)
  {
    st.currentYearFilter := OrNull(value);
    st.serviceDetailsPage := 0;
    years, panel := DrawServiceDetailsChart(st, st.currentAeTitle, st.currentMonthFilter, st.currentServiceFilter);
  }

  // ---------------------------------------------------------------------
  // Clearing

  /** `clearAllFilters`: no month, no service, first page. */
  method ClearAllFilters(st: State)
    requires st.Valid()
    modifies st`currentMonthFilter, st`currentServiceFilter, st`serviceDetailsPage
    ensures st.Valid()
    ensures st.currentMonthFilter == None && st.currentServiceFilter == None
    ensures st.serviceDetailsPage == 0
  {
    st.currentMonthFilter := None;
    st.currentServiceFilter := None;
    st.serviceDetailsPage := 0;
  }

  /** `clearView`: drops both filters, keeps the page and the selection, and
      shows the status line of an unfiltered view. */
  method ClearView(st: State) returns (status: FilterStatus)
    requires st.Valid()
    modifies st`currentMonthFilter, st`currentServiceFilter
    ensures st.Valid()
    ensures st.currentMonthFilter == None && st.currentServiceFilter == None
    ensures status == StatusOf(None, None) && status.hint && !status.clearButton
  {
    st.currentMonthFilter := None;
    st.currentServiceFilter := None;
    status := StatusOf(st.currentMonthFilter, st.currentServiceFilter);
  }

  // ---------------------------------------------------------------------
  // The device drop-downs

  /** The brand/model options for a BME: the keys under it in ascending
      order, or None (the drop-down disabled) when no BME is chosen or it is
      not in the hierarchy. */
  function BrandModelOptions(h: seq<BmeGroup>, bme: Option<string>): (r: Option<seq<string>>)
    ensures r.Some? <==> Active(bme) && ModelsAt(h, bme.value).Some?
    ensures r.Some? ==> SortedAsc(r.value)
    ensures r.Some? ==> forall m :: m in r.value <==> TitlesAt(h, bme.value, m).Some?
  {
    if Active(bme) && ModelsAt(h, bme.value).Some? then
      var names := ModelNames(ModelsAt(h, bme.value).value);
      var sorted := SortAsc(names);
      assert forall m :: m in sorted <==> m in multiset(names);
      Some(sorted)
    else None
  }

  /** The AE title options for a BME and brand/model, in filing order, or
      None (the drop-down disabled) when there is no non-empty list. */
  function TitleOptions(h: seq<BmeGroup>, bme: Option<string>, bm: Option<string>): (r: Option<seq<string>>)
    ensures r.Some? <==> TitlesList(h, JsKey(bme), JsKey(bm)) != []
    ensures r.Some? ==> r.value == TitlesList(h, JsKey(bme), JsKey(bm))
  {
    var list := TitlesAt(h, JsKey(bme), JsKey(bm));
    if list.Some? && |list.value| > 0 then list else None
  }

  /** With the hierarchy built from the catalogue, the titles offered for
      a pair of keys are exactly the devices filed under them. */
  lemma OfferedTitles(entries: seq<(string, Device)>, bmeMap: map<string, Device>,
                      bme: Option<string>, bm: Option<string>, ae: string)
    requires EntriesOf(entries, bmeMap)
    ensures var offered := TitleOptions(HierarchyOf(entries), bme, bm);
      (offered.Some? && ae in offered.value) <==>
        ae in bmeMap && JsKey(bme) == BmeKey(bmeMap[ae]) && JsKey(bm) == BrandModelKey(bmeMap[ae])
  {
    ExactlyOneList(entries, bmeMap, ae, JsKey(bme), JsKey(bm));
  }

  /** `handleBmeChange` */
  method HandleBmeChange(st: State, value: string) returns (brandModels: Option<seq<string>>, status: FilterStatus)
    requires st.Valid()
    modifies st`currentBmeName, st`currentBrandModel, st`currentAeTitle, st`currentMonthFilter, st`currentServiceFilter
    ensures st.Valid()
    ensures st.currentBmeName == OrNull(value)
    ensures st.currentBrandModel == None && st.currentAeTitle == None
    ensures st.currentMonthFilter == None && st.currentServiceFilter == None
    ensures brandModels == BrandModelOptions(st.deviceHierarchy, OrNull(value))
    ensures status == StatusOf(None, None)
  {
    st.currentBmeName := OrNull(value);
    st.currentBrandModel := None;
    st.currentAeTitle := None;
    brandModels := BrandModelOptions(st.deviceHierarchy, st.currentBmeName);
    status := ClearView(st);
  }

  /** `handleBrandModelChange` */
  method HandleBrandModelChange(st: State, value: string) returns (titles: Option<seq<string>>, status: FilterStatus)
    requires st.Valid()
    modifies st`currentBrandModel, st`currentAeTitle, st`currentMonthFilter, st`currentServiceFilter
    ensures st.Valid()
    ensures st.currentBrandModel == OrNull(value) && st.currentAeTitle == None
    ensures st.currentMonthFilter == None && st.currentServiceFilter == None
    ensures titles == TitleOptions(st.deviceHierarchy, st.currentBmeName, OrNull(value))
    ensures status == StatusOf(None, None)
  {
    st.currentBrandModel := OrNull(value);
    st.currentAeTitle := None;
    titles := TitleOptions(st.deviceHierarchy, st.currentBmeName, st.currentBrandModel);
    status := ClearView(st);
  }

  /** `handleAeTitleChange`: selects the device (none for the empty option),
      drops both filters and returns to page 0. An empty choice clears the
      view; otherwise the device is opened (by navigating to `?ae=<title>`
      in static/js/ui.js, by loading it directly in the older dashboard),
      which is what `open` names. */
  method HandleAeTitleChange(st: State, value: string) returns (open: Option<string>, status: Option<FilterStatus>)
    requires st.Valid()
    modifies st`currentAeTitle, st`currentMonthFilter, st`currentServiceFilter, st`serviceDetailsPage
    ensures st.Valid()
    ensures st.currentAeTitle == OrNull(value)
    ensures st.currentMonthFilter == None && st.currentServiceFilter == None
    ensures st.serviceDetailsPage == 0
    ensures value == "" ==> open.None? && status == Some(StatusOf(None, None))
    ensures value != "" ==> open == Some(value) && status.None?
  {
    st.currentAeTitle := OrNull(value);
    st.currentMonthFilter := None;
    st.currentServiceFilter := None;
    st.serviceDetailsPage := 0;
    if !Active(st.currentAeTitle) {
      var s := ClearView(st);
      return None, Some(s);
    }
    open, status := st.currentAeTitle, None;
  }

  /** `applyInitialSelectionFromUrl`: the `ae` query parameter, when it names
      a device of the catalogue, selects that device through the three
      drop-downs and returns it for loading; otherwise nothing changes. */
  method ApplyInitialSelectionFromUrl(st: State, ae: Option<string>)
    returns (load: Option<string>, brandModels: Option<seq<string>>, titles: Option<seq<string>>)
    requires st.Valid()
    modifies st`currentBmeName, st`currentBrandModel, st`currentAeTitle, st`currentMonthFilter,
             st`currentServiceFilter, st`serviceDetailsPage
    ensures st.Valid()
    ensures !Active(ae) || ae.value !in st.bmeMap ==>
      && load.None? && brandModels.None? && titles.None?
      && unchanged(st`currentBmeName, st`currentBrandModel, st`currentAeTitle)
      && unchanged(st`currentMonthFilter, st`currentServiceFilter, st`serviceDetailsPage)
    ensures Active(ae) && ae.value in st.bmeMap ==>
      var device := st.bmeMap[ae.value];
      && load == ae
      && st.currentBmeName == Some(BmeKey(device))
      && st.currentBrandModel == Some(BrandModelKey(device))
      && st.currentAeTitle == ae
      && st.currentMonthFilter == None && st.currentServiceFilter == None
      && st.serviceDetailsPage == 0
      && brandModels == BrandModelOptions(st.deviceHierarchy, st.currentBmeName)
      && titles == TitleOptions(st.deviceHierarchy, st.currentBmeName, st.currentBrandModel)
  {
    if !Active(ae) || ae.value !in st.bmeMap {
      return None, None, None;
    }
    var device := st.bmeMap[ae.value];
    var bmeName := BmeKey(device);
    var brandModel := BrandModelKey(device);
    SelectDevice(st, bmeName, brandModel, ae.value);
    // the options `handleBmeChange` and `handleBrandModelChange` fill in; the
    // state those two handlers set is the state just set
    brandModels := BrandModelOptions(st.deviceHierarchy, st.currentBmeName);
    titles := TitleOptions(st.deviceHierarchy, st.currentBmeName, st.currentBrandModel);
    load := ae;
  }

  /** The state sync at the end of `applyInitialSelectionFromUrl`: the
      device and its two keys, no filter, first page. */
  method SelectDevice(st: State, bmeName: string, brandModel: string, ae: string)
    requires st.Valid()
    modifies st`currentBmeName, st`currentBrandModel, st`currentAeTitle, st`currentMonthFilter,
             st`currentServiceFilter, st`serviceDetailsPage
    ensures st.Valid()
    ensures st.currentBmeName == Some(bmeName) && st.currentBrandModel == Some(brandModel)
    ensures st.currentAeTitle == Some(ae)
    ensures st.currentMonthFilter == None && st.currentServiceFilter == None
    ensures st.serviceDetailsPage == 0
  {
    st.currentBmeName := Some(bmeName);
    st.currentBrandModel := Some(brandModel);
    st.currentAeTitle := Some(ae);
    st.currentMonthFilter := None;
    st.currentServiceFilter := None;
    st.serviceDetailsPage := 0;
  }

  /** A device named in the URL is always among the options the drop-downs
      then offer, when the hierarchy was built from the catalogue. */
  lemma UrlDeviceIsOffered(entries: seq<(string, Device)>, bmeMap: map<string, Device>, ae: string)
    requires EntriesOf(entries, bmeMap) && ae in bmeMap
    ensures var h := HierarchyOf(entries);
      var device := bmeMap[ae];
      var models := BrandModelOptions(h, Some(BmeKey(device)));
      var titles := TitleOptions(h, Some(BmeKey(device)), Some(BrandModelKey(device)));
      && models.Some? && BrandModelKey(device) in models.value
      && titles.Some? && ae in titles.value
  {
    var h := HierarchyOf(entries);
    var device := bmeMap[ae];
    ExactlyOneList(entries, bmeMap, ae, BmeKey(device), BrandModelKey(device));
    assert TitlesAt(h, BmeKey(device), BrandModelKey(device)).Some?;
    assert BmeKey(device) != "";
  }
}
