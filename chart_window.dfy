/** The zoom window of the cumulative chart (`initChartDateBounds`,
    static/js/charts-data.js): the extent of the date column, and the
    window that is computed once per device and then kept. Dates are
    timestamps; the install-date range comes from `getInitialDateRange`
    and is an input here. */
module ChartWindow {
  import opened Common
  import opened AppState

  /** The earliest and latest of a non-empty list of timestamps. */
  function Earliest(ds: seq<int>): (m: int)
    requires ds != []
    ensures m in ds
    ensures forall d :: d in ds ==> m <= d
  {
    if |ds| == 1 then ds[0]
    else
      var rest := Earliest(ds[..|ds| - 1]);
      assert forall d :: d in ds ==> d in ds[..|ds| - 1] || d == ds[|ds| - 1];
      if ds[|ds| - 1] < rest then ds[|ds| - 1] else rest
  }

  function Latest(ds: seq<int>): (m: int)
    requires ds != []
    ensures m in ds
    ensures forall d :: d in ds ==> d <= m
  {
    if |ds| == 1 then ds[0]
    else
      var rest := Latest(ds[..|ds| - 1]);
      assert forall d :: d in ds ==> d in ds[..|ds| - 1] || d == ds[|ds| - 1];
      if ds[|ds| - 1] > rest then ds[|ds| - 1] else rest
  }

  /** The scan for `min` and `max` over the date column. */
  method DateExtent(dates: seq<int>) returns (bounds: Option<Window>)
    ensures dates == [] ==> bounds.None?
    ensures dates != [] ==> bounds == Some(Window(Earliest(dates), Latest(dates)))
  {
    var lo: Option<int> := None;
    var hi: Option<int> := None;
    for i := 0 to |dates|
      invariant i == 0 ==> lo.None? && hi.None?
      invariant i > 0 ==> lo == Some(Earliest(dates[..i])) && hi == Some(Latest(dates[..i]))
    {
      var d := dates[i];
      assert dates[..i + 1][..i] == dates[..i];
      if lo.None? || d < lo.value {
        lo := Some(d);
      }
      if hi.None? || d > hi.value {
        hi := Some(d);
      }
    }
    if lo.None? || hi.None? {
      return None;
    }
    assert dates[..|dates|] == dates;
    bounds := Some(Window(lo.value, hi.value));
  }

  /** The first window of a device: the install range clamped to the data
      bounds, or the whole bounds when the device has no install date. */
  function InitialWindow(range: Option<Window>, bounds: Window): (w: Window)
    ensures range.None? ==> w == bounds
    ensures range.Some? ==>
      && w.start >= range.value.start && w.start >= bounds.start
      && (w.start == range.value.start || w.start == bounds.start)
      && w.end <= range.value.end && w.end <= bounds.end
      && (w.end == range.value.end || w.end == bounds.end)
  {
    match range
    case None => bounds
    case Some(r) =>
      var start := if r.start < bounds.start then bounds.start else r.start;
      var end := if r.end > bounds.end then bounds.end else r.end;
      Window(start, end)
  }

  /** When the install range meets the data, the first window is a
      non-empty part of the data bounds. */
  lemma WindowInsideBounds(range: Window, bounds: Window)
    requires bounds.start <= bounds.end && range.start <= range.end
    requires range.start <= bounds.end && bounds.start <= range.end
    ensures var w := InitialWindow(Some(range), bounds);
      bounds.start <= w.start <= w.end <= bounds.end
  {
  }

  /** `initChartDateBounds`: nothing happens on an empty date column;
      otherwise a change of device forgets the old window, the bounds are
      the extent of the column, and a window is computed only when there
      is none, so an existing window of the same device is never redone. */
  method InitChartDateBounds(st: State, dates: seq<int>, range: Option<Window>)
    modifies st`chartDateAeTitle, st`chartDateWindow, st`chartDateBounds
    ensures dates == [] ==> unchanged(st`chartDateAeTitle, st`chartDateWindow, st`chartDateBounds)
    ensures dates != [] ==>
      var bounds := Window(Earliest(dates), Latest(dates));
      && st.chartDateAeTitle == st.currentAeTitle
      && st.chartDateBounds == Some(bounds)
      && st.chartDateWindow ==
           if old(st.chartDateAeTitle) == st.currentAeTitle && old(st.chartDateWindow).Some?
           then old(st.chartDateWindow)
           else Some(InitialWindow(range, bounds))
  {
    if |dates| == 0 {
      return;
    }
    if st.chartDateAeTitle != st.currentAeTitle {
      st.chartDateAeTitle := st.currentAeTitle;
      st.chartDateWindow := None;
      st.chartDateBounds := None;
    }
    var extent := DateExtent(dates);
    if extent.None? {
      return;
    }
    st.chartDateBounds := extent;
    if st.chartDateWindow.None? {
      st.chartDateWindow := Some(InitialWindow(range, extent.value));
    }
  }
}
