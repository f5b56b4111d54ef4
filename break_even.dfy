/** The break-even marker of the cumulative chart (`drawCumulativeChart`,
    static/js/charts.js): the first row whose cumulative revenue reaches the
    device's capital cost, and the annotation column that marks it. */
module BreakEven {
  import opened Common
  import opened Aggregate

  /** Row `i` has paid the device back: the capex of row 0 is set and the
      cumulative revenue of row `i` reaches it. */
  predicate Reached(rows: seq<Row>, i: nat)
    requires i < |rows|
  {
    rows[0].capEx.Some? && rows[i].cumRevenue >= rows[0].capEx.value
  }

  /** The search loop: `prev` trails `cur` by one row and the first row
      with `prev < capex <= cur` is taken, row 0 counting when it already
      reaches the capex. The result is the least row that reaches the
      capex, and None exactly when no row does (or there is no capex). */
  method BreakEvenRow(rows: seq<Row>) returns (be: Option<nat>)
    ensures be.Some? ==> be.value < |rows| && Reached(rows, be.value)
    ensures be.Some? ==> forall j :: 0 <= j < be.value ==> !Reached(rows, j)
    ensures be.None? ==> forall j :: 0 <= j < |rows| ==> !Reached(rows, j)
  {
    be := None;
    if |rows| == 0 {
      return;
    }
    var capex := rows[0].capEx;
    if capex.None? {
      return;
    }
    var prev := rows[0].cumRevenue;
    if prev >= capex.value {
      be := Some(0);
    }
    var i := 1;
    while i < |rows| && be.None?
      invariant 1 <= i <= |rows|
      invariant be.Some? ==> be == Some(0) && Reached(rows, 0)
      invariant be.None? ==> prev == rows[i - 1].cumRevenue && prev < capex.value
      invariant be.None? ==> forall j :: 0 <= j < i ==> !Reached(rows, j)
    {
      var cur := rows[i].cumRevenue;
      if prev < capex.value && cur >= capex.value {
        be := Some(i);
        break;
      }
      prev := cur;
      i := i + 1;
    }
  }

  /** The annotation text, "⬆ break-even" in Thai. */
  const BreakEvenLabel: string := "⬆ จุดคุ้มทุน"

  /** The annotation column over `n` rows: the label on the break-even row,
      null elsewhere. */
  function AnnotationColumn(n: nat, be: Option<nat>): (col: seq<Option<string>>)
    ensures |col| == n
    ensures forall row :: 0 <= row < n ==> (col[row].Some? <==> be == Some(row))
    ensures forall row :: 0 <= row < n && col[row].Some? ==> col[row].value == BreakEvenLabel
  {
    seq(n, row requires 0 <= row < n => if be.Some? && row == be.value then Some(BreakEvenLabel) else None)
  }

  /** The number of annotated rows. */
  function Marked(col: seq<Option<string>>): nat {
    if col == [] then 0 else Marked(col[..|col| - 1]) + (if col[|col| - 1].Some? then 1 else 0)
  }

  /** Exactly one row is annotated when the break-even row is on the chart,
      none otherwise. */
  lemma {:induction false} OneMarker(n: nat, be: Option<nat>)
    ensures Marked(AnnotationColumn(n, be)) == if be.Some? && be.value < n then 1 else 0
  {
    if n > 0 {
      OneMarker(n - 1, be);
      assert AnnotationColumn(n, be)[..n - 1] == AnnotationColumn(n - 1, be);
    }
  }
}
