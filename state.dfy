/** The dashboard's single global `state` record (static/js/state.js), as a
    class whose fields the handlers assign in place. The older dashboard.js
    keeps a record with the same fields minus the year filter and the chart
    zoom window; both are modelled by this one class. */
module AppState {
  import opened Common

  /** `state.servicePageSize`: rows per page of the service breakdown. */
  const PageSize: nat := 5

  /** The page index keeps the first row of its page inside the summary
      (or is 0), which is what `drawServiceDetailsChart` re-establishes. */
  predicate PageInRange(page: nat, items: nat) {
    page == 0 || page * PageSize < items
  }

  class State {
    // data of the selected device
    var bmeMap: map<string, Device>
    var deviceHierarchy: seq<BmeGroup>
    var sapMap: map<string, int>
    var pacsDataDetails: seq<Txn>
    var allUniqueDates: seq<string>
    var todayStr: Option<string>

    // current selection and filters
    var currentBmeName: Option<string>
    var currentBrandModel: Option<string>
    var currentAeTitle: Option<string>
    var currentMonthFilter: Option<string>
    var currentServiceFilter: Option<string>
    var currentYearFilter: Option<string>

    // service summary and its pagination
    var sortedServiceSummary: seq<Summary>
    var serviceDetailsPage: nat

    // zoom window of the cumulative chart
    var chartDateAeTitle: Option<string>
    var chartDateWindow: Option<Window>
    var chartDateBounds: Option<Window>

    /** What every handler keeps: a set filter is a non-empty string, every
        summary row has its own non-empty service code, and the page is in range. */
    ghost predicate Valid()
      reads this
    {
      && (currentMonthFilter.Some? ==> currentMonthFilter.value != "")
      && (currentServiceFilter.Some? ==> currentServiceFilter.value != "")
      && (currentYearFilter.Some? ==> currentYearFilter.value != "")
      && (forall k :: 0 <= k < |sortedServiceSummary| ==> sortedServiceSummary[k].serviceCode != "")
      && DistinctCodes(sortedServiceSummary)
      && PageInRange(serviceDetailsPage, |sortedServiceSummary|)
    }

    /** The initial state of state.js: no data, no selection, no filter, page 0. */
    constructor ()
      ensures Valid()
      ensures bmeMap == map[] && deviceHierarchy == [] && sapMap == map[]
      ensures pacsDataDetails == [] && allUniqueDates == [] && todayStr == None
      ensures currentBmeName == None && currentBrandModel == None && currentAeTitle == None
      ensures currentMonthFilter == None && currentServiceFilter == None && currentYearFilter == None
      ensures sortedServiceSummary == [] && serviceDetailsPage == 0
      ensures chartDateAeTitle == None && chartDateWindow == None && chartDateBounds == None
    {
      bmeMap, deviceHierarchy, sapMap := map[], [], map[];
      pacsDataDetails, allUniqueDates, todayStr := [], [], None;
      currentBmeName, currentBrandModel, currentAeTitle := None, None, None;
      currentMonthFilter, currentServiceFilter, currentYearFilter := None, None, None;
      sortedServiceSummary, serviceDetailsPage := [], 0;
      chartDateAeTitle, chartDateWindow, chartDateBounds := None, None, None;
    }
  }
}
