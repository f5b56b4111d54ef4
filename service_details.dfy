/** The service breakdown panel: `drawServiceDetailsChart` in its current
    form (static/js/charts.js, with the year filter of
    static/js/charts-data.js) and in its older form
    (utili_project_v0/static/js/dashboard.js). The transactions of the
    selected device are narrowed by the month (and year) filter, grouped by
    service code, ordered by revenue, and shown five to a page. */
module ServiceDetails {
  import opened Common
  import opened AppState

  // ---------------------------------------------------------------------
  // Which transactions the panel counts

  /** `d.aeTitle === aeTitle`; a null device title matches nothing. */
  predicate ForDevice(t: Txn, aeTitle: Option<string>) {
    aeTitle == Some(t.aeTitle)
  }

  /** `!monthFilter || d.yearMonth === monthFilter` */
  predicate InMonth(t: Txn, monthFilter: Option<string>) {
    !Active(monthFilter) || t.yearMonth == monthFilter.value
  }

  /** `!yearFilter || (d.yearMonth && d.yearMonth.substring(0, 4) === yearFilter)` */
  predicate InYear(t: Txn, yearFilter: Option<string>) {
    !Active(yearFilter) || (t.yearMonth != "" && Prefix(t.yearMonth, 4) == yearFilter.value)
  }

  /** The older panel's selection: device and month. */
  function LegacySelection(pacs: seq<Txn>, aeTitle: Option<string>, monthFilter: Option<string>): (r: seq<Txn>)
    ensures |r| <= |pacs|
    ensures forall t :: t in r <==> t in pacs && ForDevice(t, aeTitle) && InMonth(t, monthFilter)
  {
    Filter(pacs, t => ForDevice(t, aeTitle) && InMonth(t, monthFilter))
  }

  /** The current panel's selection: device, month and year. */
  function Selection(pacs: seq<Txn>, aeTitle: Option<string>, monthFilter: Option<string>,
                     yearFilter: Option<string>): (r: seq<Txn>)
    ensures |r| <= |pacs|
    ensures forall t :: t in r <==>
      t in pacs && ForDevice(t, aeTitle) && InMonth(t, monthFilter) && InYear(t, yearFilter)
  {
    Filter(pacs, t => ForDevice(t, aeTitle) && InMonth(t, monthFilter) && InYear(t, yearFilter))
  }

  /** With no year chosen, the current panel selects exactly what the older
      one did, in the same order. */
  lemma NoYearFilterSelectsAsLegacy(pacs: seq<Txn>, aeTitle: Option<string>, monthFilter: Option<string>,
                                    yearFilter: Option<string>)
    requires !Active(yearFilter)
    ensures Selection(pacs, aeTitle, monthFilter, yearFilter) == LegacySelection(pacs, aeTitle, monthFilter)
  {
    FilterAgree(pacs,
      t => ForDevice(t, aeTitle) && InMonth(t, monthFilter) && InYear(t, yearFilter),
      t => ForDevice(t, aeTitle) && InMonth(t, monthFilter));
  }

  // ---------------------------------------------------------------------
  // Grouping by service code (the reference definition)

  /** `d.serviceCode || '-'` */
  function KeyOf(t: Txn): (k: string)
    ensures k != ""
  {
    OrDefault(t.serviceCode, "-")
  }

  /** `d.serviceName || '-'` */
  function NameField(t: Txn): string {
    OrDefault(t.serviceName, "-")
  }

  /** The distinct service keys in order of first appearance. */
  function Codes(txs: seq<Txn>): (ks: seq<string>)
    ensures Distinct(ks)
    ensures forall k :: k in ks <==> exists t :: t in txs && KeyOf(t) == k
  {
    if txs == [] then []
    else
      var prefix, t := txs[..|txs| - 1], txs[|txs| - 1];
      assert txs == prefix + [t];
      var ks := Codes(prefix);
      if KeyOf(t) in ks then ks else ks + [KeyOf(t)]
  }

  /** Total `orderQty` of the transactions with key k. */
  function CountOf(txs: seq<Txn>, k: string): (n: int)
    ensures (forall t :: t in txs ==> KeyOf(t) != k) ==> n == 0
  {
    if txs == [] then 0
    else
      var t := txs[|txs| - 1];
      CountOf(txs[..|txs| - 1], k) + (if KeyOf(t) == k then t.orderQty else 0)
  }

  /** Total `revenuePL || 0` of the transactions with key k. */
  function RevenueOf(txs: seq<Txn>, k: string): (r: int)
    ensures (forall t :: t in txs ==> KeyOf(t) != k) ==> r == 0
  {
    if txs == [] then 0
    else
      var t := txs[|txs| - 1];
      RevenueOf(txs[..|txs| - 1], k) + (if KeyOf(t) == k then t.revenuePL.GetOr(0) else 0)
  }

  /** The name recorded for key k: that of the first transaction with key k. */
  function NameOf(txs: seq<Txn>, k: string): string {
    if txs == [] then "-"
    else if KeyOf(txs[0]) == k then NameField(txs[0])
    else NameOf(txs[1..], k)
  }

  /** One summary entry per distinct key, in order of first appearance,
      holding the first name seen and the key's totals. */
  function Group(txs: seq<Txn>): (g: seq<Summary>)
    ensures |g| == |Codes(txs)|
    ensures forall i :: 0 <= i < |g| ==> g[i].serviceCode == Codes(txs)[i]
  {
    var ks := Codes(txs);
    seq(|ks|, i requires 0 <= i < |ks| => Summary(ks[i], NameOf(txs, ks[i]), CountOf(txs, ks[i]), RevenueOf(txs, ks[i])))
  }

  lemma GroupCodes(txs: seq<Txn>)
    ensures DistinctCodes(Group(txs))
    ensures forall i :: 0 <= i < |Group(txs)| ==> Group(txs)[i].serviceCode != ""
  {
    var ks := Codes(txs);
    forall i | 0 <= i < |ks|
      ensures ks[i] != ""
    {
      assert ks[i] in ks;
      var t :| t in txs && KeyOf(t) == ks[i];
    }
  }

  // ---------------------------------------------------------------------
  // The grouping loop

  /** `serviceSummary.has(key)` / `get(key)`: the position of the entry with
      this code, or |g| when there is none. */
  function IndexOfCode(g: seq<Summary>, code: string): (j: nat)
    ensures j <= |g|
    ensures j < |g| ==> g[j].serviceCode == code
    ensures forall i :: 0 <= i < j ==> g[i].serviceCode != code
  {
    if g == [] then 0
    else if g[0].serviceCode == code then 0
    else 1 + IndexOfCode(g[1..], code)
  }

  /** One pass of the grouping loop: open an entry for a new key, then add the
      transaction's quantity and revenue to its key's entry. */
  function AddToSummary(g: seq<Summary>, d: Txn): seq<Summary> {
    var key := KeyOf(d);
    var j := IndexOfCode(g, key);
    var g' := if j == |g| then g + [Summary(key, NameField(d), 0, 0)] else g;
    g'[j := Summary(g'[j].serviceCode, g'[j].serviceName,
                    g'[j].totalCount + d.orderQty, g'[j].totalRevenuePL + d.revenuePL.GetOr(0))]
  }

  lemma {:induction false} NameOfAppend(xs: seq<Txn>, t: Txn, k: string)
    ensures NameOf(xs + [t], k) ==
      if exists u :: u in xs && KeyOf(u) == k then NameOf(xs, k)
      else if KeyOf(t) == k then NameField(t) else "-"
  {
    if xs != [] {
      assert (xs + [t])[1..] == xs[1..] + [t];
      NameOfAppend(xs[1..], t, k);
      if KeyOf(xs[0]) != k {
        assert (exists u :: u in xs && KeyOf(u) == k) <==> (exists u :: u in xs[1..] && KeyOf(u) == k) by {
          assert forall u :: u in xs <==> u == xs[0] || u in xs[1..];
        }
      }
    } else {
      assert NameOf([t][1..], k) == "-";
    }
  }

  lemma CodesAppend(xs: seq<Txn>, t: Txn)
    ensures Codes(xs + [t]) == if KeyOf(t) in Codes(xs) then Codes(xs) else Codes(xs) + [KeyOf(t)]
    ensures CountOf(xs + [t], KeyOf(t)) == CountOf(xs, KeyOf(t)) + t.orderQty
    ensures RevenueOf(xs + [t], KeyOf(t)) == RevenueOf(xs, KeyOf(t)) + t.revenuePL.GetOr(0)
    ensures forall c :: c != KeyOf(t) ==> CountOf(xs + [t], c) == CountOf(xs, c) && RevenueOf(xs + [t], c) == RevenueOf(xs, c)
  {
    assert (xs + [t])[..|xs|] == xs;
  }

  /** What one pass of the loop does to entry i. */
  lemma AddToSummaryAt(g: seq<Summary>, d: Txn, i: nat)
    ensures var j := IndexOfCode(g, KeyOf(d));
      && |AddToSummary(g, d)| == (if j == |g| then |g| + 1 else |g|)
      && (i < |g| && i != j ==> AddToSummary(g, d)[i] == g[i])
      && (i == j < |g| ==>
            AddToSummary(g, d)[i] == Summary(g[i].serviceCode, g[i].serviceName,
                                             g[i].totalCount + d.orderQty, g[i].totalRevenuePL + d.revenuePL.GetOr(0)))
      && (i == j == |g| ==> AddToSummary(g, d)[i] == Summary(KeyOf(d), NameField(d), d.orderQty, d.revenuePL.GetOr(0)))
  {
  }

  /** Entry i of the grouping after one more transaction is entry i of one
      more pass of the loop. */
  lemma GroupEntryStep(xs: seq<Txn>, t: Txn, i: nat)
    requires i < |Codes(xs + [t])|
    ensures |AddToSummary(Group(xs), t)| == |Codes(xs + [t])|
    ensures Group(xs + [t])[i] == AddToSummary(Group(xs), t)[i]
  {
    CodesAppend(xs, t);
    var g := Group(xs);
    var j := IndexOfCode(g, KeyOf(t));
    AddToSummaryAt(g, t, i);
    assert j < |g| ==> Codes(xs)[j] == KeyOf(t);
    if i < |g| {
      GroupEntryKnown(xs, t, i);
      assert Codes(xs)[i] == KeyOf(t) <==> i == j;
    } else {
      GroupEntryNew(xs, t);
    }
  }

  /** An entry whose key was seen before: the name stays, and the totals
      grow only for the transaction's own key. */
  lemma GroupEntryKnown(xs: seq<Txn>, t: Txn, i: nat)
    requires i < |Codes(xs)|
    ensures var c := Codes(xs)[i];
      var g := Group(xs);
      Group(xs + [t])[i] ==
        if c == KeyOf(t) then
          Summary(c, g[i].serviceName, g[i].totalCount + t.orderQty, g[i].totalRevenuePL + t.revenuePL.GetOr(0))
        else g[i]
  {
    CodesAppend(xs, t);
    var c := Codes(xs)[i];
    assert c in Codes(xs);
    var u :| u in xs && KeyOf(u) == c;
    NameOfAppend(xs, t, c);
  }

  /** The entry a new key opens, last in the grouping. */
  lemma GroupEntryNew(xs: seq<Txn>, t: Txn)
    requires KeyOf(t) !in Codes(xs)
    ensures |Group(xs + [t])| == |Codes(xs)| + 1
    ensures Group(xs + [t])[|Codes(xs)|] == Summary(KeyOf(t), NameField(t), t.orderQty, t.revenuePL.GetOr(0))
  {
    CodesAppend(xs, t);
    var k := KeyOf(t);
    assert forall u :: u in xs ==> KeyOf(u) != k;
    NameOfAppend(xs, t, k);
    assert CountOf(xs, k) == 0 && RevenueOf(xs, k) == 0;
  }

  /** Feeding one more transaction to the grouping loop yields the grouping
      of the longer list. */
  lemma GroupStep(xs: seq<Txn>, t: Txn)
    ensures Group(xs + [t]) == AddToSummary(Group(xs), t)
  {
    var g2, r := Group(xs + [t]), AddToSummary(Group(xs), t);
    if |Codes(xs + [t])| > 0 {
      GroupEntryStep(xs, t, 0);
    } else {
      CodesAppend(xs, t);
    }
    forall i | 0 <= i < |g2|
      ensures g2[i] == r[i]
    {
      GroupEntryStep(xs, t, i);
    }
  }

  lemma GroupPrefixStep(xs: seq<Txn>, i: nat)
    requires i < |xs|
    ensures Group(xs[..i + 1]) == AddToSummary(Group(xs[..i]), xs[i])
  {
    assert xs[..i + 1] == xs[..i] + [xs[i]];
    GroupStep(xs[..i], xs[i]);
  }

  /** The loop of `drawServiceDetailsChart` that fills the `serviceSummary`
      Map, whose insertion order is kept as a sequence. */
  method SummariseByService(filtered: seq<Txn>) returns (summary: seq<Summary>)
    ensures summary == Group(filtered)
  {
    summary := [];
    for i := 0 to |filtered|
      invariant summary == Group(filtered[..i])
    {
      summary := AddToSummary(summary, filtered[i]);
      GroupPrefixStep(filtered, i);
    }
    assert filtered[..|filtered|] == filtered;
  }

  // ---------------------------------------------------------------------
  // Totals are conserved by grouping

  function TotalCount(g: seq<Summary>): int {
    if g == [] then 0 else TotalCount(g[..|g| - 1]) + g[|g| - 1].totalCount
  }

  function TotalRevenue(g: seq<Summary>): int {
    if g == [] then 0 else TotalRevenue(g[..|g| - 1]) + g[|g| - 1].totalRevenuePL
  }

  function QtySum(txs: seq<Txn>): int {
    if txs == [] then 0 else QtySum(txs[..|txs| - 1]) + txs[|txs| - 1].orderQty
  }

  function RevenueSum(txs: seq<Txn>): int {
    if txs == [] then 0 else RevenueSum(txs[..|txs| - 1]) + txs[|txs| - 1].revenuePL.GetOr(0)
  }

  lemma {:induction false} TotalsUpdate(g: seq<Summary>, j: nat, s: Summary)
    requires j < |g|
    ensures TotalCount(g[j := s]) == TotalCount(g) - g[j].totalCount + s.totalCount
    ensures TotalRevenue(g[j := s]) == TotalRevenue(g) - g[j].totalRevenuePL + s.totalRevenuePL
  {
    var n := |g| - 1;
    if j < n {
      TotalsUpdate(g[..n], j, s);
      assert g[j := s][..n] == g[..n][j := s];
    } else {
      assert g[j := s][..n] == g[..n];
    }
  }

  /** One pass of the loop adds the transaction's quantity and revenue to
      the totals. */
  lemma AddToSummaryTotals(g: seq<Summary>, d: Txn)
    ensures TotalCount(AddToSummary(g, d)) == TotalCount(g) + d.orderQty
    ensures TotalRevenue(AddToSummary(g, d)) == TotalRevenue(g) + d.revenuePL.GetOr(0)
  {
    var key := KeyOf(d);
    var j := IndexOfCode(g, key);
    var g' := if j == |g| then g + [Summary(key, NameField(d), 0, 0)] else g;
    if j == |g| {
      assert g'[..|g'| - 1] == g;
    }
    TotalsUpdate(g', j, Summary(g'[j].serviceCode, g'[j].serviceName,
                                g'[j].totalCount + d.orderQty, g'[j].totalRevenuePL + d.revenuePL.GetOr(0)));
  }

  /** Every transaction's quantity and revenue lands in exactly one entry:
      the entries add up to the totals of the selection. */
  lemma {:induction false} GroupConserves(txs: seq<Txn>)
    ensures TotalCount(Group(txs)) == QtySum(txs)
    ensures TotalRevenue(Group(txs)) == RevenueSum(txs)
  {
    if txs != [] {
      var xs, t := txs[..|txs| - 1], txs[|txs| - 1];
      assert txs == xs + [t];
      GroupConserves(xs);
      GroupStep(xs, t);
      AddToSummaryTotals(Group(xs), t);
    }
  }

  // ---------------------------------------------------------------------
  // Ordering by revenue: `sort((a, b) => b.totalRevenuePL - a.totalRevenuePL)`,
  // which is stable

  predicate ByRevenueDesc(s: seq<Summary>) {
    forall i, j :: 0 <= i < j < |s| ==> s[i].totalRevenuePL >= s[j].totalRevenuePL
  }

  /** The entries of revenue v, in their order in s. */
  function WithRevenue(s: seq<Summary>, v: int): seq<Summary> {
    if s == [] then []
    else (if s[0].totalRevenuePL == v then [s[0]] else []) + WithRevenue(s[1..], v)
  }

  /** Places x before the first entry whose revenue does not exceed x's. */
  function InsertByRevenue(x: Summary, s: seq<Summary>): (r: seq<Summary>)
    ensures |r| == |s| + 1
    ensures r[0] == x || (s != [] && r[0] == s[0])
  {
    if s == [] || s[0].totalRevenuePL <= x.totalRevenuePL then [x] + s
    else [s[0]] + InsertByRevenue(x, s[1..])
  }

  /** `state.sortedServiceSummary`: the grouping, highest revenue first. */
  function SortByRevenue(s: seq<Summary>): (r: seq<Summary>)
    ensures |r| == |s|
  {
    if s == [] then []
    else InsertByRevenue(s[0], SortByRevenue(s[1..]))
  }

  /** Inserting into a list ordered by revenue keeps it ordered. */
  lemma {:induction false} InsertSorted(x: Summary, s: seq<Summary>)
    requires ByRevenueDesc(s)
    ensures ByRevenueDesc(InsertByRevenue(x, s))
  {
    if s != [] && s[0].totalRevenuePL > x.totalRevenuePL {
      var rest := InsertByRevenue(x, s[1..]);
      InsertSorted(x, s[1..]);
      var r := [s[0]] + rest;
      forall i, j | 0 <= i < j < |r|
        ensures r[i].totalRevenuePL >= r[j].totalRevenuePL
      {
        assert r[j] == rest[j - 1];
        if i == 0 {
          assert rest[0].totalRevenuePL <= s[0].totalRevenuePL;
        } else {
          assert r[i] == rest[i - 1];
        }
      }
    } else {
      var r := [x] + s;
      forall i, j | 0 <= i < j < |r|
        ensures r[i].totalRevenuePL >= r[j].totalRevenuePL
      {
        assert r[j] == s[j - 1];
        if i > 0 {
          assert r[i] == s[i - 1];
        }
      }
    }
  }

  /** The sorted summary is ordered by revenue, highest first. */
  lemma {:induction false} SortSorted(s: seq<Summary>)
    ensures ByRevenueDesc(SortByRevenue(s))
  {
    if s != [] {
      SortSorted(s[1..]);
      InsertSorted(s[0], SortByRevenue(s[1..]));
    }
  }

  /** Inserting adds x and loses nothing. */
  lemma {:induction false} InsertPermutes(x: Summary, s: seq<Summary>)
    ensures multiset(InsertByRevenue(x, s)) == multiset(s) + multiset{x}
  {
    if s != [] && s[0].totalRevenuePL > x.totalRevenuePL {
      InsertPermutes(x, s[1..]);
      assert s == [s[0]] + s[1..];
    }
  }

  /** The sorted summary is a permutation of the grouping. */
  lemma {:induction false} SortPermutes(s: seq<Summary>)
    ensures multiset(SortByRevenue(s)) == multiset(s)
  {
    if s != [] {
      var rest := SortByRevenue(s[1..]);
      SortPermutes(s[1..]);
      InsertPermutes(s[0], rest);
      assert s == [s[0]] + s[1..];
    }
  }

  /** Inserting x puts it ahead of every entry of equal revenue. */
  lemma {:induction false} InsertStable(x: Summary, s: seq<Summary>, v: int)
    ensures WithRevenue(InsertByRevenue(x, s), v) == (if x.totalRevenuePL == v then [x] else []) + WithRevenue(s, v)
  {
    if s == [] || s[0].totalRevenuePL <= x.totalRevenuePL {
      assert ([x] + s)[1..] == s;
    } else {
      var rest := InsertByRevenue(x, s[1..]);
      InsertStable(x, s[1..], v);
      assert ([s[0]] + rest)[1..] == rest;
      if x.totalRevenuePL == v {
        assert s[0].totalRevenuePL != v;
      }
    }
  }

  /** The sort is stable: entries of equal revenue keep the order they had
      in the grouping (first appearance). */
  lemma {:induction false} SortIsStable(s: seq<Summary>, v: int)
    ensures WithRevenue(SortByRevenue(s), v) == WithRevenue(s, v)
  {
    if s != [] {
      SortIsStable(s[1..], v);
      InsertStable(s[0], SortByRevenue(s[1..]), v);
    }
  }

  lemma {:induction false} InsertKeepsDistinctCodes(x: Summary, s: seq<Summary>)
    requires DistinctCodes(s)
    requires forall e :: e in s ==> e.serviceCode != x.serviceCode
    ensures DistinctCodes(InsertByRevenue(x, s))
  {
    if s != [] && s[0].totalRevenuePL > x.totalRevenuePL {
      var rest := InsertByRevenue(x, s[1..]);
      InsertKeepsDistinctCodes(x, s[1..]);
      InsertPermutes(x, s[1..]);
      forall e | e in rest
        ensures e.serviceCode != s[0].serviceCode
      {
        assert e in multiset(rest);
        if e != x {
          assert e in s[1..];
          var k :| 1 <= k < |s| && s[k] == e;
        }
      }
      DistinctCodesCons(s[0], rest);
    } else {
      DistinctCodesCons(x, s);
    }
  }

  /** Putting an entry whose code is new in front keeps codes distinct. */
  lemma DistinctCodesCons(x: Summary, s: seq<Summary>)
    requires DistinctCodes(s)
    requires forall e :: e in s ==> e.serviceCode != x.serviceCode
    ensures DistinctCodes([x] + s)
  {
    var r := [x] + s;
    forall i, j | 0 <= i < j < |r|
      ensures r[i].serviceCode != r[j].serviceCode
    {
      assert r[j] == s[j - 1];
      if i > 0 {
        assert r[i] == s[i - 1];
      }
    }
  }

  /** Sorting never merges two entries: distinct codes stay distinct. */
  lemma {:induction false} SortKeepsDistinctCodes(s: seq<Summary>)
    requires DistinctCodes(s)
    ensures DistinctCodes(SortByRevenue(s))
  {
    if s != [] {
      SortKeepsDistinctCodes(s[1..]);
      var rest := SortByRevenue(s[1..]);
      SortPermutes(s[1..]);
      assert forall e :: e in rest ==> e in multiset(s[1..]);
      InsertKeepsDistinctCodes(s[0], rest);
    }
  }

  // ---------------------------------------------------------------------
  // Pagination

  /** `Math.ceil(totalItems / servicePageSize)` */
  function TotalPages(items: nat): (n: nat)
    ensures n * PageSize >= items
    ensures n == 0 || (n - 1) * PageSize < items
  {
    (items + PageSize - 1) / PageSize
  }

  /** A page exists exactly when its first row does. */
  lemma PageExists(items: nat, page: nat)
    ensures page < TotalPages(items) <==> page * PageSize < items
  {
    var n := TotalPages(items);
    if page < n {
      assert page * PageSize <= (n - 1) * PageSize;
    }
  }

  /** `if (page * pageSize >= totalItems) page = 0` */
  function ResetPage(page: nat, items: nat): (p: nat)
    ensures PageInRange(p, items)
    ensures page * PageSize < items ==> p == page
    ensures page * PageSize >= items ==> p == 0
  {
    if page * PageSize >= items then 0 else page
  }

  /** `sorted.slice(start, start + pageSize)` with `start = page * pageSize` */
  function PageRows(sorted: seq<Summary>, page: nat): (rows: seq<Summary>)
    ensures |rows| <= PageSize
    ensures forall k :: 0 <= k < |rows| ==>
      page * PageSize + k < |sorted| && rows[k] == sorted[page * PageSize + k]
    ensures page * PageSize < |sorted| ==>
      |rows| == if |sorted| - page * PageSize < PageSize then |sorted| - page * PageSize else PageSize
    ensures page * PageSize >= |sorted| ==> rows == []
  {
    var start := page * PageSize;
    if start >= |sorted| then []
    else if start + PageSize <= |sorted| then sorted[start..start + PageSize]
    else sorted[start..]
  }

  /** Every entry of the summary is on a page: entry idx is row idx % 5 of
      page idx / 5. */
  lemma EveryEntryOnItsPage(sorted: seq<Summary>, idx: nat)
    requires idx < |sorted|
    ensures idx % PageSize < |PageRows(sorted, idx / PageSize)|
    ensures PageRows(sorted, idx / PageSize)[idx % PageSize] == sorted[idx]
  {
    var page := idx / PageSize;
    assert page * PageSize + idx % PageSize == idx;
  }

  /** ... and on one page only: the global index `page * 5 + row` a click
      computes leads back to that page and row. */
  lemma ClickedEntryIsOnThisPage(sorted: seq<Summary>, page: nat, row: nat)
    requires row < |PageRows(sorted, page)|
    ensures (page * PageSize + row) / PageSize == page
    ensures (page * PageSize + row) % PageSize == row
  {
  }

  // ---------------------------------------------------------------------
  // What the panel shows

  /** One bar of the service chart: `isSelected = d.serviceCode === serviceFilter`,
      opacity 0.3 (dimmed) for the others while a service filter is set. */
  datatype Bar = Bar(title: string, count: int, revenue: int, selected: bool, dimmed: bool)

  datatype Pagination = Hidden | Shown(prevDisabled: bool, nextDisabled: bool, pageNumber: nat, totalPages: nat)

  /** Either the "no service data" placeholder (pagination hidden) or the
      bars of the current page with the pagination controls. */
  datatype Panel = Placeholder | Chart(bars: seq<Bar>, pagination: Pagination)

  function BarOf(d: Summary, serviceFilter: Option<string>): (b: Bar)
    ensures b.count == d.totalCount && b.revenue == d.totalRevenuePL && b.title != ""
    ensures b.selected <==> serviceFilter == Some(d.serviceCode)
    ensures b.dimmed <==> Active(serviceFilter) && !b.selected
    ensures !(b.selected && b.dimmed)
  {
    var selected := serviceFilter == Some(d.serviceCode);
    Bar(OrDefault(d.serviceCode, "-"), d.totalCount, d.totalRevenuePL, selected, Active(serviceFilter) && !selected)
  }

  function BarsOf(rows: seq<Summary>, serviceFilter: Option<string>): (bars: seq<Bar>)
    ensures |bars| == |rows|
  {
    seq(|rows|, k requires 0 <= k < |rows| => BarOf(rows[k], serviceFilter))
  }

  /** The highlight: with no service filter no bar is selected or dimmed;
      with one, every bar is either the selected one or dimmed, and since
      codes are distinct at most one bar is selected. */
  lemma Highlight(rows: seq<Summary>, serviceFilter: Option<string>)
    requires DistinctCodes(rows)
    requires forall k :: 0 <= k < |rows| ==> rows[k].serviceCode != ""
    ensures !Active(serviceFilter) ==>
      forall k :: 0 <= k < |rows| ==> !BarsOf(rows, serviceFilter)[k].selected && !BarsOf(rows, serviceFilter)[k].dimmed
    ensures Active(serviceFilter) ==>
      forall k :: 0 <= k < |rows| ==> BarsOf(rows, serviceFilter)[k].selected != BarsOf(rows, serviceFilter)[k].dimmed
    ensures forall i, j :: 0 <= i < j < |rows| ==>
      !(BarsOf(rows, serviceFilter)[i].selected && BarsOf(rows, serviceFilter)[j].selected)
  {
  }

  /** The pagination controls: shown only when there is more than one page;
      "previous" disabled on the first page, "next" disabled on the page
      holding the last entry. */
  function PaginationOf(page: nat, items: nat): (c: Pagination)
    ensures c.Shown? <==> items > PageSize
    ensures c.Shown? ==>
      && (c.prevDisabled <==> page == 0)
      && (c.nextDisabled <==> (page + 1) * PageSize >= items)
      && c.pageNumber == page + 1
      && c.totalPages == TotalPages(items)
  {
    var total := TotalPages(items);
    PageExists(items, 1);
    PageExists(items, page + 1);
    if total > 1 then Shown(page == 0, page >= total - 1, page + 1, total) else Hidden
  }

  /** The sorted grouping has distinct, non-empty codes. */
  lemma SortedSummaryCodes(txs: seq<Txn>)
    ensures DistinctCodes(SortByRevenue(Group(txs)))
    ensures forall k :: 0 <= k < |SortByRevenue(Group(txs))| ==> SortByRevenue(Group(txs))[k].serviceCode != ""
  {
    var g := Group(txs);
    GroupCodes(txs);
    SortKeepsDistinctCodes(g);
    var r := SortByRevenue(g);
    SortPermutes(g);
    forall k | 0 <= k < |r|
      ensures r[k].serviceCode != ""
    {
      assert r[k] in multiset(g);
    }
  }

  // ---------------------------------------------------------------------
  // Drawing

  /** What one draw of the service breakdown leaves behind, given the
      selected transactions and the summary and page it found: a placeholder
      with summary and page untouched when nothing is selected, otherwise the
      grouped summary sorted by revenue, the page reset if it fell off the
      end, and the bars and page controls of that page. */
  predicate Redrawn(filtered: seq<Txn>, summary0: seq<Summary>, page0: nat, serviceFilter: Option<string>,
                    summary: seq<Summary>, page: nat, panel: Panel)
  {
    if filtered == [] then
      panel == Placeholder && summary == summary0 && page == page0
    else
      && summary == SortByRevenue(Group(filtered))
      && page == ResetPage(page0, |summary|)
      && panel == Chart(BarsOf(PageRows(summary, page), serviceFilter), PaginationOf(page, |summary|))
  }

  /** The part of `drawServiceDetailsChart` shared by both forms, from the
      filtered transactions on. */
  method ShowSummary(st: State, filtered: seq<Txn>, serviceFilter: Option<string>) returns (panel: Panel)
    requires st.Valid()
    modifies st`sortedServiceSummary, st`serviceDetailsPage
    ensures st.Valid()
    ensures Redrawn(filtered, old(st.sortedServiceSummary), old(st.serviceDetailsPage), serviceFilter,
                    st.sortedServiceSummary, st.serviceDetailsPage, panel)
  {
    if |filtered| == 0 {
      return Placeholder;
    }
    var summary := SummariseByService(filtered);
    SortedSummaryCodes(filtered);
    st.sortedServiceSummary := SortByRevenue(summary);

    var totalItems := |st.sortedServiceSummary|;
    if st.serviceDetailsPage * PageSize >= totalItems {
      st.serviceDetailsPage := 0;
    }
    var pageRows := PageRows(st.sortedServiceSummary, st.serviceDetailsPage);
    panel := Chart(BarsOf(pageRows, serviceFilter), PaginationOf(st.serviceDetailsPage, totalItems));
  }

  /** `drawServiceDetailsChart` of utili_project_v0/static/js/dashboard.js. */
  method LegacyDrawServiceDetailsChart(st: State, aeTitle: Option<string>, monthFilter: Option<string>,
                                       serviceFilter: Option<string>)
    returns (panel: Panel)
    requires st.Valid()
    modifies st`sortedServiceSummary, st`serviceDetailsPage
    ensures st.Valid()
    ensures Redrawn(LegacySelection(st.pacsDataDetails, aeTitle, monthFilter),
                    old(st.sortedServiceSummary), old(st.serviceDetailsPage), serviceFilter,
                    st.sortedServiceSummary, st.serviceDetailsPage, panel)
  {
    var filtered := LegacySelection(st.pacsDataDetails, aeTitle, monthFilter);
    panel := ShowSummary(st, filtered, serviceFilter);
  }

  // ---------------------------------------------------------------------
  // The year drop-down (`updateYearFilterUI`)

  /** The years offered for a device: every `yearMonth.substring(0, 4)` of its
      transactions with a month, once each, latest first. */
  ghost predicate IsYearList(years: seq<string>, pacs: seq<Txn>, aeTitle: Option<string>) {
    && (forall i, j :: 0 <= i < j < |years| ==> LexLess(years[j], years[i]))
    && (forall y :: y in years <==>
          exists t :: t in pacs && ForDevice(t, aeTitle) && t.yearMonth != "" && Prefix(t.yearMonth, 4) == y)
  }

  /** A strictly descending list is fixed by its elements, so the year list
      of a device is unique. */
  lemma {:induction false} YearListUnique(a: seq<string>, b: seq<string>)
    requires forall i, j :: 0 <= i < j < |a| ==> LexLess(a[j], a[i])
    requires forall i, j :: 0 <= i < j < |b| ==> LexLess(b[j], b[i])
    requires forall y :: y in a <==> y in b
    ensures a == b
  {
    if a != [] {
      assert a[0] in a;
      assert b != [];
      assert b[0] in b;
      var k :| 0 <= k < |b| && b[k] == a[0];
      var m :| 0 <= m < |a| && a[m] == b[0];
      if k != 0 {
        assert LexLess(b[k], b[0]);
        LexLessIrreflexive(b[0]);
        assert m != 0;
        assert LexLess(a[m], a[0]);
        LexLessAsymmetric(b[k], b[0]);
      }
      assert a[0] == b[0];
      forall y
        ensures y in a[1..] <==> y in b[1..]
      {
        if y in a[1..] {
          var i :| 1 <= i < |a| && a[i] == y;
          assert LexLess(y, a[0]);
          LexLessIrreflexive(a[0]);
          assert y in b && y != b[0];
          assert b == [b[0]] + b[1..];
        }
        if y in b[1..] {
          var i :| 1 <= i < |b| && b[i] == y;
          assert LexLess(y, b[0]);
          LexLessIrreflexive(b[0]);
          assert y in a && y != a[0];
          assert a == [a[0]] + a[1..];
        }
      }
      YearListUnique(a[1..], b[1..]);
      assert a == [a[0]] + a[1..] && b == [b[0]] + b[1..];
    } else {
      EmptyIffNoMembers(b);
    }
  }

  /** `updateYearFilterUI`: the Set of years in insertion order, then sorted
      latest first (`b.localeCompare(a)`). */
  method YearOptions(pacs: seq<Txn>, aeTitle: Option<string>) returns (years: seq<string>)
    ensures IsYearList(years, pacs, aeTitle)
  {
    var yearsSet: seq<string> := [];
    for i := 0 to |pacs|
      invariant Distinct(yearsSet)
      invariant forall y :: y in yearsSet <==>
        exists t :: t in pacs[..i] && ForDevice(t, aeTitle) && t.yearMonth != "" && Prefix(t.yearMonth, 4) == y
    {
      assert forall t :: t in pacs[..i + 1] <==> t in pacs[..i] || t == pacs[i];
      var d := pacs[i];
      if !ForDevice(d, aeTitle) || d.yearMonth == "" {
        continue;
      }
      var y := Prefix(d.yearMonth, 4);
      if y !in yearsSet {
        yearsSet := yearsSet + [y];
      }
    }
    assert pacs[..|pacs|] == pacs;
    years := Reverse(SortAsc(yearsSet));
    LatestFirst(yearsSet, years);
  }

  /** Sorting distinct strings and reversing them lists the same strings,
      strictly latest first. */
  lemma LatestFirst(s: seq<string>, years: seq<string>)
    requires Distinct(s) && years == Reverse(SortAsc(s))
    ensures forall i, j :: 0 <= i < j < |years| ==> LexLess(years[j], years[i])
    ensures forall y :: y in years <==> y in s
  {
    var ascending := SortAsc(s);
    SortedDistinctIsStrict(ascending);
    ReverseStrict(ascending);
    forall y
      ensures y in years <==> y in s
    {
      assert y in ascending <==> y in multiset(ascending);
      ReverseMembers(ascending, y);
    }
  }

  /** `drawServiceDetailsChart` of static/js/charts.js: refreshes the year
      drop-down, then selects by device, month and the state's year filter. */
  method DrawServiceDetailsChart(st: State, aeTitle: Option<string>, monthFilter: Option<string>,
                                 serviceFilter: Option<string>)
    returns (years: seq<string>, panel: Panel)
    requires st.Valid()
    modifies st`sortedServiceSummary, st`serviceDetailsPage
    ensures st.Valid()
    ensures IsYearList(years, st.pacsDataDetails, aeTitle)
    ensures Redrawn(Selection(st.pacsDataDetails, aeTitle, monthFilter, st.currentYearFilter),
                    old(st.sortedServiceSummary), old(st.serviceDetailsPage), serviceFilter,
                    st.sortedServiceSummary, st.serviceDetailsPage, panel)
  {
    years := YearOptions(st.pacsDataDetails, aeTitle);
    var filtered := Selection(st.pacsDataDetails, aeTitle, monthFilter, st.currentYearFilter);
    panel := ShowSummary(st, filtered, serviceFilter);
  }
}
