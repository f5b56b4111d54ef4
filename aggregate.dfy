/** The month-by-month table behind the cumulative revenue/expense chart of
    one device: `aggregateDataForChart` in its current form
    (static/js/charts-data.js) and in its older form
    (utili_project_v0/static/js/dashboard.js). Each output row is one date of
    the shared axis; the table's Google-Charts style strings are reduced to
    the two facts they encode, the future marker and the line colour. */
module Aggregate {
  import opened Common

  /** Colour of the cumulative-revenue line at a point. */
  datatype Colour = Red | Purple | Blue

  datatype Row = Row(
    date: string,             // column 0
    monthlyRevenue: int,      // column 1
    cumRevenue: int,          // column 3
    monthlyExpense: int,      // column 5
    cumExpense: int,          // column 7
    capEx: Option<int>,       // column 9
    dep: int,                 // column 11
    future: bool,             // the dashed-line / faded-bar styles
    colour: Option<Colour>)   // colour of column 3 (current variant only)

  /** `todayStr && dateStr > todayStr` */
  predicate IsFuture(date: string, today: Option<string>) {
    Active(today) && LexLess(today.value, date)
  }

  /** Today's own row is not in the future, and every date after a future
      date is in the future too, so on an ascending axis the future rows are
      a tail. */
  lemma FutureIsUpwardClosed(date: string, later: string, today: Option<string>)
    ensures Active(today) ==> !IsFuture(today.value, today)
    ensures IsFuture(date, today) && LexLeq(date, later) ==> IsFuture(later, today)
  {
    if Active(today) {
      LexLessIrreflexive(today.value);
    }
    if IsFuture(date, today) && LexLeq(date, later) && date != later {
      LexLessTotal(date, later);
      LexLessTransitive(today.value, date, later);
    }
  }

  /** `dateStr.substring(0, 7)` */
  function YearMonthOf(date: string): (ym: string)
    ensures |ym| <= 7 && ym <= date
  {
    Prefix(date, 7)
  }

  /** The transactions the chart counts: those of the device, restricted to
      one service code when a service filter is active. */
  predicate MatchesService(t: Txn, aeTitle: string, serviceFilter: Option<string>) {
    t.aeTitle == aeTitle && (!Active(serviceFilter) || t.serviceCode == serviceFilter.value)
  }

  function ServiceTxns(pacs: seq<Txn>, aeTitle: string, serviceFilter: Option<string>): seq<Txn> {
    Filter(pacs, t => MatchesService(t, aeTitle, serviceFilter))
  }

  // ---------------------------------------------------------------------
  // Revenue buckets

  /** Current variant: the revenue of month `ym`, the sum of `revenuePL || 0`
      over the transactions of that month; transactions without a month are
      skipped, so the empty month has no revenue. */
  function BucketTotal(txs: seq<Txn>, ym: string): (total: int)
    ensures ym == "" ==> total == 0
    ensures (forall t :: t in txs ==> t.yearMonth != ym) ==> total == 0
  {
    if txs == [] then 0
    else
      var t := txs[|txs| - 1];
      assert forall u :: u in txs[..|txs| - 1] ==> u in txs;
      BucketTotal(txs[..|txs| - 1], ym)
        + (if t.yearMonth != "" && t.yearMonth == ym then t.revenuePL.GetOr(0) else 0)
  }

  /** Older variant: `map.set(ym, (map.get(ym) || 0) + item.revenuePL)` with no
      guard. None stands for NaN: adding a missing `revenuePL` (undefined)
      yields NaN, and `NaN || 0` restarts the sum at the next transaction. A
      month never seen reads as 0. */
  function LegacyBucketTotal(txs: seq<Txn>, ym: string): Option<int> {
    if txs == [] then Some(0)
    else
      var t := txs[|txs| - 1];
      var acc := LegacyBucketTotal(txs[..|txs| - 1], ym);
      if t.yearMonth != ym then acc
      else if t.revenuePL.Some? then Some(acc.GetOr(0) + t.revenuePL.value)
      else None
  }

  /** The `monthlyRevenueMap` loop of the current variant. */
  method MonthlyRevenueMap(txs: seq<Txn>) returns (m: map<string, int>)
    ensures forall ym :: ym in m <==> ym != "" && exists t :: t in txs && t.yearMonth == ym
    ensures forall ym :: (if ym in m then m[ym] else 0) == BucketTotal(txs, ym)
  {
    m := map[];
    for i := 0 to |txs|
      invariant forall ym :: ym in m <==> ym != "" && exists t :: t in txs[..i] && t.yearMonth == ym
      invariant forall ym :: (if ym in m then m[ym] else 0) == BucketTotal(txs[..i], ym)
    {
      assert txs[..i + 1][..i] == txs[..i];
      assert forall t :: t in txs[..i + 1] <==> t in txs[..i] || t == txs[i];
      var ym := txs[i].yearMonth;
      if ym == "" {
        continue;
      }
      m := m[ym := (if ym in m then m[ym] else 0) + txs[i].revenuePL.GetOr(0)];
    }
    assert txs[..|txs|] == txs;
  }

  /** The older variant's bucket after one more transaction. */
  lemma LegacyBucketLast(txs: seq<Txn>, i: nat, ym: string)
    requires i < |txs|
    ensures LegacyBucketTotal(txs[..i + 1], ym) ==
      if txs[i].yearMonth != ym then LegacyBucketTotal(txs[..i], ym)
      else if txs[i].revenuePL.Some? then Some(LegacyBucketTotal(txs[..i], ym).GetOr(0) + txs[i].revenuePL.value)
      else None
  {
    assert txs[..i + 1][..i] == txs[..i];
  }

  /** The `monthlyRevenueMap` loop of the older variant. */
  method LegacyMonthlyRevenueMap(txs: seq<Txn>) returns (m: map<string, Option<int>>)
    ensures forall ym :: ym in m <==> exists t :: t in txs && t.yearMonth == ym
    ensures forall ym :: (if ym in m then m[ym] else Some(0)) == LegacyBucketTotal(txs, ym)
  {
    m := map[];
    for i := 0 to |txs|
      invariant forall ym :: ym in m <==> exists t :: t in txs[..i] && t.yearMonth == ym
      invariant forall ym :: (if ym in m then m[ym] else Some(0)) == LegacyBucketTotal(txs[..i], ym)
    {
      assert txs[..i + 1][..i] == txs[..i];
      assert forall t :: t in txs[..i + 1] <==> t in txs[..i] || t == txs[i];
      var ym := txs[i].yearMonth;
      var acc := (if ym in m then m[ym] else Some(0)).GetOr(0);
      m := m[ym := if txs[i].revenuePL.Some? then Some(acc + txs[i].revenuePL.value) else None];
      forall y
        ensures (if y in m then m[y] else Some(0)) == LegacyBucketTotal(txs[..i + 1], y)
      {
        LegacyBucketLast(txs, i, y);
      }
    }
    assert txs[..|txs|] == txs;
  }

  // ---------------------------------------------------------------------
  // Expense lookup

  /** `s.replace('-', '')`: removes the first dash only. */
  function RemoveFirstDash(s: string): (r: string)
    ensures '-' in s ==> |r| == |s| - 1
    ensures FirstDash(s) < |s| ==> r == s[..FirstDash(s)] + s[FirstDash(s) + 1..]
    ensures '-' !in s ==> r == s
  {
    var k := FirstDash(s);
    if k < |s| then s[..k] + s[k + 1..] else s
  }

  /** The position of the first dash, `|s|` when there is none. */
  function FirstDash(s: string): (k: nat)
    ensures k <= |s| && (k < |s| <==> '-' in s)
    ensures k < |s| ==> s[k] == '-'
    ensures forall i :: 0 <= i < k ==> s[i] != '-'
  {
    if s == [] then 0
    else if s[0] == '-' then 0
    else
      var k := FirstDash(s[1..]);
      assert forall i :: 1 <= i < k + 1 ==> s[i] == s[1..][i - 1];
      1 + k
  }

  /** `${orderNum}-${yearMonth}`, the key the backend writes. */
  function DashedKey(orderNum: string, ym: string): string {
    orderNum + "-" + ym
  }

  /** `${orderNum}-${yearMonth.replace('-', '')}`, the fallback key. */
  function CompactKey(orderNum: string, ym: string): string {
    orderNum + "-" + RemoveFirstDash(ym)
  }

  /** For a month written `YYYY-MM` the fallback key drops the month's dash,
      `4500012345-202511` for `4500012345-2025-11`, and so differs from the
      dashed key. */
  lemma CompactKeyOfMonth(orderNum: string, ym: string)
    requires |ym| == 7 && ym[4] == '-' && forall i :: 0 <= i < 4 ==> ym[i] != '-'
    ensures CompactKey(orderNum, ym) == orderNum + "-" + ym[..4] + ym[5..]
    ensures CompactKey(orderNum, ym) != DashedKey(orderNum, ym)
  {
    assert FirstDash(ym) == 4;
    assert |CompactKey(orderNum, ym)| != |DashedKey(orderNum, ym)|;
  }

  /** The SAP expense of a past month in the current variant: the dashed key
      if the map has it, else the compact key, else 0. */
  function SapExpense(sapMap: map<string, int>, orderNum: string, ym: string): (e: int)
    ensures DashedKey(orderNum, ym) in sapMap ==> e == sapMap[DashedKey(orderNum, ym)]
    ensures e != 0 ==>
      || (DashedKey(orderNum, ym) in sapMap && e == sapMap[DashedKey(orderNum, ym)])
      || (CompactKey(orderNum, ym) in sapMap && e == sapMap[CompactKey(orderNum, ym)])
  {
    var dashed := DashedKey(orderNum, ym);
    var compact := CompactKey(orderNum, ym);
    if dashed in sapMap then sapMap[dashed]
    else if compact in sapMap then sapMap[compact]
    else 0
  }

  /** The SAP expense of the older variant: the dashed key only, and nothing
      at all while a service filter is active. */
  function LegacySapExpense(sapMap: map<string, int>, orderNum: string, ym: string, serviceFilter: Option<string>): (e: int)
    ensures Active(serviceFilter) || DashedKey(orderNum, ym) !in sapMap ==> e == 0
    ensures !Active(serviceFilter) && DashedKey(orderNum, ym) in sapMap ==> e == sapMap[DashedKey(orderNum, ym)]
  {
    var dashed := DashedKey(orderNum, ym);
    if Active(serviceFilter) || dashed !in sapMap then 0 else sapMap[dashed]
  }

  // ---------------------------------------------------------------------
  // Depreciation and colour

  /** Column 11 of row i: the monthly depreciation for the first `depMonths`
      rows (0 under a service filter), then 0. */
  function DepAt(i: nat, device: Device, serviceFilter: Option<string>): int {
    if i < device.depMonths then (if Active(serviceFilter) then 0 else device.monthlyDep) else 0
  }

  /** Red below zero; purple while a (non-zero) CapEx is not yet recovered;
      blue otherwise. */
  function RevenueColour(cum: int, capEx: Option<int>): (c: Colour)
    ensures c == Red <==> cum < 0
    ensures c == Purple <==> 0 <= cum && capEx.Some? && capEx.value != 0 && cum < capEx.value
  {
    if cum < 0 then Red
    else if capEx.Some? && capEx.value != 0 && cum < capEx.value then Purple
    else Blue
  }

  // ---------------------------------------------------------------------
  // Running totals

  function SumRevenue(rows: seq<Row>): int {
    if rows == [] then 0 else SumRevenue(rows[..|rows| - 1]) + rows[|rows| - 1].monthlyRevenue
  }

  function SumExpense(rows: seq<Row>): int {
    if rows == [] then 0 else SumExpense(rows[..|rows| - 1]) + rows[|rows| - 1].monthlyExpense
  }

  function SumDep(rows: seq<Row>): int {
    if rows == [] then 0 else SumDep(rows[..|rows| - 1]) + rows[|rows| - 1].dep
  }

  /** The sums of a table grown by one row. */
  lemma SumsAppend(rows: seq<Row>, r: Row)
    ensures SumRevenue(rows + [r]) == SumRevenue(rows) + r.monthlyRevenue
    ensures SumExpense(rows + [r]) == SumExpense(rows) + r.monthlyExpense
  {
    assert (rows + [r])[..|rows|] == rows;
  }

  /** Each row's cumulative columns are the sums of the monthly columns of
      that row and every row before it. */
  predicate RunningTotals(rows: seq<Row>) {
    forall i :: 0 <= i < |rows| ==>
      rows[i].cumRevenue == SumRevenue(rows[..i + 1]) && rows[i].cumExpense == SumExpense(rows[..i + 1])
  }

  /** Appending a row whose cumulative columns extend the running sums keeps
      `RunningTotals`. */
  lemma {:induction false} RunningTotalsAppend(rows: seq<Row>, r: Row)
    requires RunningTotals(rows)
    requires r.cumRevenue == SumRevenue(rows) + r.monthlyRevenue
    requires r.cumExpense == SumExpense(rows) + r.monthlyExpense
    ensures RunningTotals(rows + [r])
  {
    var rs := rows + [r];
    forall i | 0 <= i < |rs|
      ensures rs[i].cumRevenue == SumRevenue(rs[..i + 1]) && rs[i].cumExpense == SumExpense(rs[..i + 1])
    {
      if i < |rows| {
        assert rs[..i + 1] == rows[..i + 1];
      } else {
        assert rs[..i + 1] == rs;
        SumsAppend(rows, r);
      }
    }
  }

  // ---------------------------------------------------------------------
  // The two aggregators

  /** Row i of the current variant's table, apart from its running totals:
      the date of axis position i, zero revenue and expense in the future,
      otherwise the month's revenue bucket and SAP expense, the device's
      CapEx, the depreciation of position i and the colour of the running
      revenue. */
  predicate ChartRow(r: Row, i: nat, date: string, device: Device, revenueTxns: seq<Txn>,
                     sapMap: map<string, int>, todayStr: Option<string>, serviceFilter: Option<string>)
  {
    && r.date == date
    && r.future == IsFuture(date, todayStr)
    && r.monthlyRevenue == (if r.future then 0 else BucketTotal(revenueTxns, YearMonthOf(date)))
    && r.monthlyExpense == (if r.future then 0 else SapExpense(sapMap, device.orderNum, YearMonthOf(date)))
    && r.capEx == device.capEx
    && r.dep == DepAt(i, device, serviceFilter)
    && r.colour == Some(RevenueColour(r.cumRevenue, device.capEx))
  }

  /** Row i of the older variant's table, apart from its running totals. */
  predicate LegacyChartRow(r: Row, i: nat, date: string, device: Device, revenueTxns: seq<Txn>,
                           sapMap: map<string, int>, todayStr: Option<string>, serviceFilter: Option<string>)
  {
    && r.date == date
    && r.future == IsFuture(date, todayStr)
    && r.monthlyRevenue == (if r.future then 0 else LegacyBucketTotal(revenueTxns, YearMonthOf(date)).GetOr(0))
    && r.monthlyExpense == (if r.future then 0 else LegacySapExpense(sapMap, device.orderNum, YearMonthOf(date), serviceFilter))
    && r.capEx == device.capEx
    && r.dep == DepAt(i, device, serviceFilter)
    && r.colour == None
  }

  /** Appending row i that meets `ChartRow` keeps every earlier row's facts. */
  lemma ChartRowsAppend(rows: seq<Row>, row: Row, dates: seq<string>, device: Device, revenueTxns: seq<Txn>,
                        sapMap: map<string, int>, todayStr: Option<string>, serviceFilter: Option<string>)
    requires |rows| < |dates|
    requires forall k :: 0 <= k < |rows| ==>
      ChartRow(rows[k], k, dates[k], device, revenueTxns, sapMap, todayStr, serviceFilter)
    requires ChartRow(row, |rows|, dates[|rows|], device, revenueTxns, sapMap, todayStr, serviceFilter)
    ensures forall k :: 0 <= k < |rows| + 1 ==>
      ChartRow((rows + [row])[k], k, dates[k], device, revenueTxns, sapMap, todayStr, serviceFilter)
  {
  }

  lemma LegacyChartRowsAppend(rows: seq<Row>, row: Row, dates: seq<string>, device: Device, revenueTxns: seq<Txn>,
                              sapMap: map<string, int>, todayStr: Option<string>, serviceFilter: Option<string>)
    requires |rows| < |dates|
    requires forall k :: 0 <= k < |rows| ==>
      LegacyChartRow(rows[k], k, dates[k], device, revenueTxns, sapMap, todayStr, serviceFilter)
    requires LegacyChartRow(row, |rows|, dates[|rows|], device, revenueTxns, sapMap, todayStr, serviceFilter)
    ensures forall k :: 0 <= k < |rows| + 1 ==>
      LegacyChartRow((rows + [row])[k], k, dates[k], device, revenueTxns, sapMap, todayStr, serviceFilter)
  {
  }

  /** `depCounter` after i rows: it counts up to `depMonths` and stops. */
  function DepCount(i: nat, depMonths: int): int {
    if i <= depMonths then i else if depMonths < 0 then 0 else depMonths
  }

  /** The SAP lookup of the current variant: the dashed key, then the
      compact key. */
  method ExpenseLookup(sapMap: map<string, int>, orderNum: string, yearMonth: string) returns (expense: int)
    ensures DashedKey(orderNum, yearMonth) in sapMap ==> expense == sapMap[DashedKey(orderNum, yearMonth)]
    ensures DashedKey(orderNum, yearMonth) !in sapMap && CompactKey(orderNum, yearMonth) in sapMap ==>
      expense == sapMap[CompactKey(orderNum, yearMonth)]
    ensures DashedKey(orderNum, yearMonth) !in sapMap && CompactKey(orderNum, yearMonth) !in sapMap ==> expense == 0
    ensures expense == SapExpense(sapMap, orderNum, yearMonth)
  {
    var sapKeyDash := DashedKey(orderNum, yearMonth);
    var sapKeyCompact := CompactKey(orderNum, yearMonth);
    expense := 0;
    if sapKeyDash in sapMap {
      expense := sapMap[sapKeyDash];
    } else if sapKeyCompact in sapMap {
      expense := sapMap[sapKeyCompact];
    }
  }

  /** The depreciation step of both variants: while the counter is below
      `depMonths` the row gets the monthly depreciation (0 under a service
      filter) and the counter moves on. */
  method DepStep(i: nat, device: Device, serviceFilter: Option<string>, depCounter: int)
    returns (fixedDep: int, depCounterAfter: int)
    requires depCounter == DepCount(i, device.depMonths)
    ensures fixedDep == DepAt(i, device, serviceFilter)
    ensures depCounterAfter == DepCount(i + 1, device.depMonths)
  {
    fixedDep := 0;
    depCounterAfter := depCounter;
    if depCounter < device.depMonths {
      fixedDep := if !Active(serviceFilter) then device.monthlyDep else 0;
      depCounterAfter := depCounter + 1;
    }
  }

  /** One pass of the current variant's `forEach` over the dates: row i
      from the running totals and the depreciation counter left by the
      rows before it. */
  method ChartRowAt(
    i: nat, dateStr: string, device: Device, revenueMap: map<string, int>, filtered: seq<Txn>,
    sapMap: map<string, int>, todayStr: Option<string>, serviceFilter: Option<string>,
    cumRevenue: int, cumExpense: int, depCounter: int)
    returns (row: Row, depCounterAfter: int)
    requires forall ym :: (if ym in revenueMap then revenueMap[ym] else 0) == BucketTotal(filtered, ym)
    requires depCounter == DepCount(i, device.depMonths)
    ensures ChartRow(row, i, dateStr, device, filtered, sapMap, todayStr, serviceFilter)
    ensures row.cumRevenue == cumRevenue + row.monthlyRevenue
    ensures row.cumExpense == cumExpense + row.monthlyExpense
    ensures depCounterAfter == DepCount(i + 1, device.depMonths)
  {
    var yearMonth := YearMonthOf(dateStr);
    var isFuture := IsFuture(dateStr, todayStr);

    var monthlyRevenue := if isFuture then 0 else if yearMonth in revenueMap then revenueMap[yearMonth] else 0;
    var cumRevenueAfter := cumRevenue + monthlyRevenue;

    var monthlyExpense := 0;
    if !isFuture {
      monthlyExpense := ExpenseLookup(sapMap, device.orderNum, yearMonth);
    }
    var cumExpenseAfter := cumExpense + monthlyExpense;

    var fixedDep;
    fixedDep, depCounterAfter := DepStep(i, device, serviceFilter, depCounter);

    var colour := if cumRevenueAfter < 0 then Red
      else if device.capEx.Some? && device.capEx.value != 0 && cumRevenueAfter < device.capEx.value then Purple
      else Blue;

    row := Row(dateStr, monthlyRevenue, cumRevenueAfter, monthlyExpense, cumExpenseAfter,
               device.capEx, fixedDep, isFuture, Some(colour));
  }

  /** `aggregateDataForChart` of static/js/charts-data.js. */
  method AggregateDataForChart(
    bmeMap: map<string, Device>, pacs: seq<Txn>, sapMap: map<string, int>,
    allUniqueDates: seq<string>, todayStr: Option<string>,
    aeTitle: string, serviceFilter: Option<string>)
    returns (rows: seq<Row>)
    ensures aeTitle !in bmeMap ==> rows == []
    ensures aeTitle in bmeMap ==> |rows| == |allUniqueDates|
    ensures RunningTotals(rows)
    ensures forall i :: 0 <= i < |rows| ==>
      aeTitle in bmeMap &&
      ChartRow(rows[i], i, allUniqueDates[i], bmeMap[aeTitle], ServiceTxns(pacs, aeTitle, serviceFilter),
               sapMap, todayStr, serviceFilter)
  {
    if aeTitle !in bmeMap || |allUniqueDates| == 0 {
      return [];
    }
    var device := bmeMap[aeTitle];
    var filtered := ServiceTxns(pacs, aeTitle, serviceFilter);
    var revenueMap := MonthlyRevenueMap(filtered);
    var cumRevenue, cumExpense, depCounter := 0, 0, 0;
    rows := [];
    for i := 0 to |allUniqueDates|
      invariant |rows| == i
      invariant depCounter == DepCount(i, device.depMonths)
      invariant cumRevenue == SumRevenue(rows) && cumExpense == SumExpense(rows)
      invariant RunningTotals(rows)
      invariant forall k :: 0 <= k < i ==>
        ChartRow(rows[k], k, allUniqueDates[k], device, filtered, sapMap, todayStr, serviceFilter)
    {
      var row;
      row, depCounter := ChartRowAt(i, allUniqueDates[i], device, revenueMap, filtered,
                                    sapMap, todayStr, serviceFilter, cumRevenue, cumExpense, depCounter);
      ChartRowsAppend(rows, row, allUniqueDates, device, filtered, sapMap, todayStr, serviceFilter);
      RunningTotalsAppend(rows, row);
      SumsAppend(rows, row);
      cumRevenue, cumExpense := row.cumRevenue, row.cumExpense;
      rows := rows + [row];
    }
  }

  /** One pass of the older variant's `forEach`. */
  method LegacyChartRowAt(
    i: nat, dateStr: string, device: Device, revenueMap: map<string, Option<int>>, filtered: seq<Txn>,
    sapMap: map<string, int>, todayStr: Option<string>, serviceFilter: Option<string>,
    cumRevenue: int, cumExpense: int, depCounter: int)
    returns (row: Row, depCounterAfter: int)
    requires forall ym :: (if ym in revenueMap then revenueMap[ym] else Some(0)) == LegacyBucketTotal(filtered, ym)
    requires depCounter == DepCount(i, device.depMonths)
    ensures LegacyChartRow(row, i, dateStr, device, filtered, sapMap, todayStr, serviceFilter)
    ensures row.cumRevenue == cumRevenue + row.monthlyRevenue
    ensures row.cumExpense == cumExpense + row.monthlyExpense
    ensures depCounterAfter == DepCount(i + 1, device.depMonths)
  {
    var yearMonth := YearMonthOf(dateStr);
    var isFuture := IsFuture(dateStr, todayStr);

    var monthlyRevenue := if isFuture then 0 else (if yearMonth in revenueMap then revenueMap[yearMonth] else Some(0)).GetOr(0);
    var cumRevenueAfter := cumRevenue + monthlyRevenue;

    var sapKey := DashedKey(device.orderNum, yearMonth);
    var monthlyExpense := if isFuture || Active(serviceFilter) then 0
      else if sapKey in sapMap then sapMap[sapKey] else 0;
    var cumExpenseAfter := cumExpense + monthlyExpense;

    var fixedDep;
    fixedDep, depCounterAfter := DepStep(i, device, serviceFilter, depCounter);

    row := Row(dateStr, monthlyRevenue, cumRevenueAfter, monthlyExpense, cumExpenseAfter,
               device.capEx, fixedDep, isFuture, None);
  }

  /** `aggregateDataForChart` of utili_project_v0/static/js/dashboard.js. */
  method LegacyAggregateDataForChart(
    bmeMap: map<string, Device>, pacs: seq<Txn>, sapMap: map<string, int>,
    allUniqueDates: seq<string>, todayStr: Option<string>,
    aeTitle: string, serviceFilter: Option<string>)
    returns (rows: seq<Row>)
    ensures aeTitle !in bmeMap ==> rows == []
    ensures aeTitle in bmeMap ==> |rows| == |allUniqueDates|
    ensures RunningTotals(rows)
    ensures forall i :: 0 <= i < |rows| ==>
      aeTitle in bmeMap &&
      LegacyChartRow(rows[i], i, allUniqueDates[i], bmeMap[aeTitle], ServiceTxns(pacs, aeTitle, serviceFilter),
                     sapMap, todayStr, serviceFilter)
  {
    if aeTitle !in bmeMap {
      return [];
    }
    var device := bmeMap[aeTitle];
    var filtered := ServiceTxns(pacs, aeTitle, serviceFilter);
    var revenueMap := LegacyMonthlyRevenueMap(filtered);
    var cumRevenue, cumExpense, depCounter := 0, 0, 0;
    rows := [];
    for i := 0 to |allUniqueDates|
      invariant |rows| == i
      invariant depCounter == DepCount(i, device.depMonths)
      invariant cumRevenue == SumRevenue(rows) && cumExpense == SumExpense(rows)
      invariant RunningTotals(rows)
      invariant forall k :: 0 <= k < i ==>
        LegacyChartRow(rows[k], k, allUniqueDates[k], device, filtered, sapMap, todayStr, serviceFilter)
    {
      var row;
      row, depCounter := LegacyChartRowAt(i, allUniqueDates[i], device, revenueMap, filtered,
                                          sapMap, todayStr, serviceFilter, cumRevenue, cumExpense, depCounter);
      LegacyChartRowsAppend(rows, row, allUniqueDates, device, filtered, sapMap, todayStr, serviceFilter);
      RunningTotalsAppend(rows, row);
      SumsAppend(rows, row);
      cumRevenue, cumExpense := row.cumRevenue, row.cumExpense;
      rows := rows + [row];
    }
  }

  // ---------------------------------------------------------------------
  // Properties of the tables

  /** Under a row-by-row `DepAt`, the depreciation column adds up to
      `monthlyDep` for each of the first `depMonths` rows, and to nothing
      under a service filter. */
  lemma {:induction false} DepTotal(rows: seq<Row>, device: Device, serviceFilter: Option<string>)
    requires forall i :: 0 <= i < |rows| ==> rows[i].dep == DepAt(i, device, serviceFilter)
    ensures SumDep(rows) ==
      (if Active(serviceFilter) then 0 else device.monthlyDep * DepCount(|rows|, device.depMonths))
  {
    if rows != [] {
      var n := |rows| - 1;
      DepTotal(rows[..n], device, serviceFilter);
      if !Active(serviceFilter) {
        var m := device.monthlyDep;
        if n < device.depMonths {
          assert DepCount(n + 1, device.depMonths) == DepCount(n, device.depMonths) + 1;
          assert m * (DepCount(n, device.depMonths) + 1) == m * DepCount(n, device.depMonths) + m;
        } else {
          assert DepCount(n + 1, device.depMonths) == DepCount(n, device.depMonths);
        }
      }
    }
  }

  /** A row with no monthly revenue or expense (every future row) leaves
      both running totals where the previous row left them. */
  lemma FutureRowKeepsTotals(rows: seq<Row>, i: nat)
    requires RunningTotals(rows)
    requires 0 < i < |rows|
    requires rows[i].monthlyRevenue == 0 && rows[i].monthlyExpense == 0
    ensures rows[i].cumRevenue == rows[i - 1].cumRevenue
    ensures rows[i].cumExpense == rows[i - 1].cumExpense
  {
    assert rows[..i + 1][..i] == rows[..i];
  }

  /** The dashed key takes precedence: while it is present the compact key's
      value is never read; the compact key is read only when the dashed one
      is absent. */
  lemma ExpenseKeyPrecedence(sapMap: map<string, int>, orderNum: string, ym: string, v: int)
    requires '-' in ym
    ensures DashedKey(orderNum, ym) in sapMap ==>
      SapExpense(sapMap[CompactKey(orderNum, ym) := v], orderNum, ym) == SapExpense(sapMap, orderNum, ym)
        == sapMap[DashedKey(orderNum, ym)]
    ensures DashedKey(orderNum, ym) !in sapMap && CompactKey(orderNum, ym) in sapMap ==>
      SapExpense(sapMap, orderNum, ym) == sapMap[CompactKey(orderNum, ym)]
  {
    assert |CompactKey(orderNum, ym)| < |DashedKey(orderNum, ym)|;
  }

  /** When every transaction carries its revenue, the older variant's bucket
      of a non-empty month is the current variant's sum. */
  lemma {:induction false} BucketsAgree(txs: seq<Txn>, ym: string)
    requires ym != ""
    requires forall t :: t in txs ==> t.revenuePL.Some?
    ensures LegacyBucketTotal(txs, ym) == Some(BucketTotal(txs, ym))
  {
    if txs != [] {
      BucketsAgree(txs[..|txs| - 1], ym);
    }
  }

  /** Two tables with the same monthly columns have the same running sums. */
  lemma {:induction false} SumsAgree(a: seq<Row>, b: seq<Row>)
    requires |a| == |b|
    requires forall i :: 0 <= i < |a| ==>
      a[i].monthlyRevenue == b[i].monthlyRevenue && a[i].monthlyExpense == b[i].monthlyExpense
    ensures SumRevenue(a) == SumRevenue(b) && SumExpense(a) == SumExpense(b)
  {
    if a != [] {
      SumsAgree(a[..|a| - 1], b[..|b| - 1]);
    }
  }

  /** Without a service filter, with every transaction of the device carrying
      its revenue and every past month's SAP expense stored under the dashed
      key, the two variants draw the same revenue, expense and depreciation. */
  lemma VariantsAgree(device: Device, pacs: seq<Txn>, sapMap: map<string, int>,
                      dates: seq<string>, todayStr: Option<string>, aeTitle: string,
                      rows: seq<Row>, legacy: seq<Row>)
    requires |rows| == |legacy| == |dates|
    requires RunningTotals(rows) && RunningTotals(legacy)
    requires forall i :: 0 <= i < |rows| ==>
      ChartRow(rows[i], i, dates[i], device, ServiceTxns(pacs, aeTitle, None), sapMap, todayStr, None)
    requires forall i :: 0 <= i < |legacy| ==>
      LegacyChartRow(legacy[i], i, dates[i], device, ServiceTxns(pacs, aeTitle, None), sapMap, todayStr, None)
    requires forall t :: t in pacs && t.aeTitle == aeTitle ==> t.revenuePL.Some?
    requires forall i :: 0 <= i < |dates| ==> YearMonthOf(dates[i]) != ""
    requires forall i :: 0 <= i < |dates| && !IsFuture(dates[i], todayStr) ==>
      DashedKey(device.orderNum, YearMonthOf(dates[i])) in sapMap
    ensures forall i :: 0 <= i < |rows| ==>
      && rows[i].monthlyRevenue == legacy[i].monthlyRevenue
      && rows[i].monthlyExpense == legacy[i].monthlyExpense
      && rows[i].cumRevenue == legacy[i].cumRevenue
      && rows[i].cumExpense == legacy[i].cumExpense
      && rows[i].dep == legacy[i].dep
  {
    var txs := ServiceTxns(pacs, aeTitle, None);
    forall i | 0 <= i < |rows|
      ensures rows[i].monthlyRevenue == legacy[i].monthlyRevenue
      ensures rows[i].monthlyExpense == legacy[i].monthlyExpense
    {
      BucketsAgree(txs, YearMonthOf(dates[i]));
    }
    forall i | 0 <= i < |rows|
      ensures rows[i].cumRevenue == legacy[i].cumRevenue && rows[i].cumExpense == legacy[i].cumExpense
    {
      SumsAgree(rows[..i + 1], legacy[..i + 1]);
    }
  }
}
