/** The monthly date axis of the backend, `generate_date_timeline`
    (utils.py): the first day of every month from the month of the earliest
    valid input date up to the later of the latest input date and the first
    day of the month three months from today. Today is a parameter. */
module Timeline {
  import opened Common

  /** `TIMELINE_FUTURE_MONTHS` (config.py) */
  const FutureMonths: nat := 3

  /** A calendar date; datetimes are compared and stepped by day here,
      because every date the function builds or parses is at midnight and
      the time of day of "today" cannot change an outcome. */
  datatype Date = Date(year: int, month: int, day: int)

  predicate LeapYear(y: int) {
    y % 4 == 0 && (y % 100 != 0 || y % 400 == 0)
  }

  function DaysIn(y: int, m: int): int
    requires 1 <= m <= 12
  {
    if m == 2 then (if LeapYear(y) then 29 else 28)
    else if m == 4 || m == 6 || m == 9 || m == 11 then 30
    else 31
  }

  /** What `datetime` accepts. */
  predicate ValidDate(d: Date) {
    1 <= d.year <= 9999 && 1 <= d.month <= 12 && 1 <= d.day <= DaysIn(d.year, d.month)
  }

  /** The order of datetimes, by day. */
  predicate DateLess(a: Date, b: Date) {
    a.year < b.year || (a.year == b.year && (a.month < b.month || (a.month == b.month && a.day < b.day)))
  }

  predicate DateLeq(a: Date, b: Date) {
    a == b || DateLess(a, b)
  }

  // ---------------------------------------------------------------------
  // `datetime.strptime(s, '%Y-%m-%d')` and `strftime('%Y-%m-%d')`

  /** The `%m` field at `pos` (`1[0-2]|0[1-9]|[1-9]`): its value and the
      position after it. */
  function MonthField(s: string, pos: nat): (r: Option<(int, nat)>)
    ensures r.Some? ==> 1 <= r.value.0 <= 12 && pos < r.value.1 <= |s|
  {
    if pos + 1 < |s| && s[pos] == '1' && '0' <= s[pos + 1] <= '2' then Some((10 + DigitValue(s[pos + 1]), pos + 2))
    else if pos + 1 < |s| && s[pos] == '0' && '1' <= s[pos + 1] <= '9' then Some((DigitValue(s[pos + 1]), pos + 2))
    else if pos < |s| && '1' <= s[pos] <= '9' then Some((DigitValue(s[pos]), pos + 1))
    else None
  }

  /** The `%d` field, which must run to the end of the string
      (`3[01]|[12]\d|0[1-9]|[1-9]| [1-9]`). */
  function DayField(r: string): (d: Option<int>)
    ensures d.Some? ==> 1 <= d.value <= 31
  {
    if |r| == 2 && r[0] == '3' && '0' <= r[1] <= '1' then Some(30 + DigitValue(r[1]))
    else if |r| == 2 && '1' <= r[0] <= '2' && IsDigit(r[1]) then Some(10 * DigitValue(r[0]) + DigitValue(r[1]))
    else if |r| == 2 && (r[0] == '0' || r[0] == ' ') && '1' <= r[1] <= '9' then Some(DigitValue(r[1]))
    else if |r| == 1 && '1' <= r[0] <= '9' then Some(DigitValue(r[0]))
    else None
  }

  /** `strptime` with the API format: four digits, a dash, a month, a dash
      and a day, nothing left over, and a date that exists (year 0 and
      31 April are rejected). */
  function ParseYmd(s: string): (r: Option<Date>)
    ensures r.Some? ==> ValidDate(r.value)
  {
    if |s| < 8 || !(IsDigit(s[0]) && IsDigit(s[1]) && IsDigit(s[2]) && IsDigit(s[3])) || s[4] != '-' then None
    else
      var year := 1000 * DigitValue(s[0]) + 100 * DigitValue(s[1]) + 10 * DigitValue(s[2]) + DigitValue(s[3]);
      match MonthField(s, 5)
      case None => None
      case Some((month, pos)) =>
        if pos >= |s| || s[pos] != '-' then None
        else
          match DayField(s[pos + 1..])
          case None => None
          case Some(day) =>
            if year < 1 || day > DaysIn(year, month) then None else Some(Date(year, month, day))
  }

  function Pad2(n: nat): (s: string)
    requires n < 100
  {
    [DigitChar(n / 10), DigitChar(n % 10)]
  }

  /** Four digits; a year past 9999 never reaches it, because Python
      stops with an overflow before such a date exists. */
  function Pad4(n: nat): (s: string) {
    Pad2(n / 100 % 100) + Pad2(n % 100)
  }

  /** Within the ranges `datetime` allows (the day is checked no further). */
  predicate InRange(d: Date) {
    1 <= d.year && 1 <= d.month <= 12 && 1 <= d.day <= 31
  }

  /** `strftime('%Y-%m-%d')` */
  function FormatYmd(d: Date): (s: string)
    requires InRange(d)
    ensures |s| == 10 && s[4] == '-' && s[7] == '-'
  {
    Pad4(d.year) + "-" + Pad2(d.month) + "-" + Pad2(d.day)
  }

  lemma Pad2Value(n: nat)
    requires n < 100
    ensures IsDigit(Pad2(n)[0]) && IsDigit(Pad2(n)[1])
    ensures 10 * DigitValue(Pad2(n)[0]) + DigitValue(Pad2(n)[1]) == n
  {
  }

  lemma Pad4Value(n: nat)
    requires n < 10000
    ensures var p := Pad4(n);
      && IsDigit(p[0]) && IsDigit(p[1]) && IsDigit(p[2]) && IsDigit(p[3])
      && 1000 * DigitValue(p[0]) + 100 * DigitValue(p[1]) + 10 * DigitValue(p[2]) + DigitValue(p[3]) == n
  {
    Pad2Value(n / 100 % 100);
    Pad2Value(n % 100);
    assert n / 100 % 100 == n / 100;
  }

  lemma Pad2Month(m: int)
    requires 1 <= m <= 12
    ensures MonthField(Pad2(m) + "-", 0) == Some((m, 2))
  {
  }

  lemma Pad2Day(d: int)
    requires 1 <= d <= 31
    ensures DayField(Pad2(d)) == Some(d)
  {
  }

  /** Parsing what was formatted gives the date back. */
  lemma FormatParses(d: Date)
    requires ValidDate(d)
    ensures ParseYmd(FormatYmd(d)) == Some(d)
  {
    var s := FormatYmd(d);
    Pad4Value(d.year);
    Pad2Month(d.month);
    Pad2Day(d.day);
    assert s[..4] == Pad4(d.year);
    assert s[5..8] == Pad2(d.month) + "-";
    MonthFieldShift(s, 5, Pad2(d.month) + "-");
    assert s[8..] == Pad2(d.day);
  }

  /** Reading the month field depends only on the characters it may look at. */
  lemma MonthFieldShift(s: string, pos: nat, t: string)
    requires pos + |t| <= |s| && |t| == 3 && s[pos..pos + 3] == t
    ensures MonthField(s, pos) == match MonthField(t, 0)
      case None => None
      case Some((m, q)) => Some((m, pos + q))
  {
    assert s[pos] == t[0] && s[pos + 1] == t[1] && s[pos + 2] == t[2];
  }

  // ---------------------------------------------------------------------
  // The specification of the timeline

  /** An element of the input list: a string, or anything else. */
  datatype Item = Str(s: string) | NonString

  /** `isinstance(date_str, str)` and `strptime`, a failure being None. */
  function Parsed(x: Item): Option<Date> {
    match x
    case Str(s) => ParseYmd(s)
    case NonString => None
  }

  function ParsedAll(items: seq<Item>): (r: seq<Option<Date>>)
    ensures |r| == |items| && forall k :: 0 <= k < |items| ==> r[k] == Parsed(items[k])
  {
    seq(|items|, k requires 0 <= k < |items| => Parsed(items[k]))
  }

  /** `valid_dates`: the parsed dates of the strings that parse, in order. */
  function ValidDates(items: seq<Item>): (r: seq<Date>)
    ensures forall d :: d in r ==> ValidDate(d)
  {
    var os := ParsedAll(items);
    assert forall d :: d in Somes(os) ==> ValidDate(d) by {
      forall d | d in Somes(os)
        ensures ValidDate(d)
      {
        SomesMembers(os, d);
      }
    }
    Somes(os)
  }

  /** A date is valid exactly when some item parses to it. */
  lemma ValidDatesMembers(items: seq<Item>, d: Date)
    ensures d in ValidDates(items) <==> exists k :: 0 <= k < |items| && Parsed(items[k]) == Some(d)
  {
    SomesMembers(ParsedAll(items), d);
  }

  /** `min(valid_dates)` and `max(valid_dates)` */
  function MinDate(ds: seq<Date>): (m: Date)
    requires ds != []
    ensures m in ds && forall d :: d in ds ==> DateLeq(m, d)
  {
    if |ds| == 1 then ds[0]
    else
      var rest := MinDate(ds[1..]);
      assert forall d :: d in ds ==> d == ds[0] || d in ds[1..];
      if DateLess(ds[0], rest) || ds[0] == rest then ds[0] else rest
  }

  function MaxDate(ds: seq<Date>): (m: Date)
    requires ds != []
    ensures m in ds && forall d :: d in ds ==> DateLeq(d, m)
  {
    if |ds| == 1 then ds[0]
    else
      var rest := MaxDate(ds[1..]);
      assert forall d :: d in ds ==> d == ds[0] || d in ds[1..];
      if DateLess(rest, ds[0]) then ds[0] else rest
  }

  /** Months counted from year 0. */
  function MonthIndex(d: Date): int {
    d.year * 12 + d.month - 1
  }

  /** `replace(day=1)` */
  function FirstOfMonth(d: Date): Date {
    Date(d.year, d.month, 1)
  }

  /** `+ relativedelta(months=1)` on the first of a month. */
  function NextMonth(d: Date): Date {
    if d.month == 12 then Date(d.year + 1, 1, d.day) else Date(d.year, d.month + 1, d.day)
  }

  /** `n` steps of `NextMonth`: the same day, `n` months later. */
  function Advance(d: Date, n: nat): (r: Date)
    ensures r.day == d.day
    ensures 1 <= d.month <= 12 ==>
      1 <= r.month <= 12 && r.year >= d.year && MonthIndex(r) == MonthIndex(d) + n
  {
    if n == 0 then d else NextMonth(Advance(d, n - 1))
  }

  lemma AdvanceStep(d: Date, n: nat)
    ensures Advance(d, n + 1) == NextMonth(Advance(d, n))
  {
  }

  /** `(today + relativedelta(months=3)).replace(day=1)`; the day clipping
      of `relativedelta` cannot matter once the day is replaced. */
  function FutureStart(today: Date): Date {
    Advance(FirstOfMonth(today), FutureMonths)
  }

  /** The future start is the first day of the month three months after
      today's. */
  lemma FutureStartMonth(today: Date)
    requires 1 <= today.month <= 12
    ensures var f := FutureStart(today);
      && f.day == 1 && 1 <= f.month <= 12 && f.year >= today.year
      && MonthIndex(f) == MonthIndex(today) + FutureMonths
  {
  }

  /** December 9999, the last month `datetime` can hold: `relativedelta`
      raises `ValueError` when asked to step past it. */
  const LastMonth: Date := Date(9999, 12, 1)

  /** `generate_date_timeline` raises exactly when there are valid dates and
      the bound falls in December 9999 or later: the future start is then
      past December 9999 itself, or the walk reaches December 9999 and
      cannot step on. */
  predicate Overflows(valid: seq<Date>, today: Date) {
    valid != [] && MonthIndex(Bound(valid, today)) >= MonthIndex(LastMonth)
  }

  function Later(a: Date, b: Date): Date {
    if DateLess(a, b) then b else a
  }

  /** A first of a month is no later than a date exactly when its month
      number is not after the date's. */
  lemma FirstsOrdered(a: Date, b: Date)
    requires a.day == 1 && 1 <= a.month <= 12 && 1 <= b.month <= 12 && b.day >= 1
    ensures DateLeq(a, b) <==> MonthIndex(a) <= MonthIndex(b)
  {
  }

  lemma LeqMonthIndex(a: Date, b: Date)
    requires 1 <= a.month <= 12 && 1 <= b.month <= 12 && DateLeq(a, b)
    ensures MonthIndex(a) <= MonthIndex(b)
  {
  }

  /** A date with its month in range is fixed by its month number and day. */
  lemma SameMonth(a: Date, b: Date)
    requires 1 <= a.month <= 12 && 1 <= b.month <= 12
    requires MonthIndex(a) == MonthIndex(b) && a.day == b.day
    ensures a == b
  {
  }

  /** `n` consecutive month starts from `start`. */
  function MonthRun(start: Date, n: nat): (r: seq<Date>)
    ensures |r| == n && forall k {:trigger r[k]} :: 0 <= k < n ==> r[k] == Advance(start, k)
  {
    seq(n, k requires 0 <= k < n => Advance(start, k))
  }

  /** The bound of the timeline: the later of the latest valid date and
      the future start. */
  function Bound(valid: seq<Date>, today: Date): Date
    requires valid != []
  {
    Later(MaxDate(valid), FutureStart(today))
  }

  /** The month starts the timeline lists for the valid dates `valid`: from
      the month of the earliest to the month of the bound. */
  function TimelineOf(valid: seq<Date>, today: Date): (r: seq<Date>)
    ensures (forall d :: d in valid ==> InRange(d)) ==> forall k :: 0 <= k < |r| ==> InRange(r[k])
    ensures (forall d :: d in valid ==> ValidDate(d)) && !Overflows(valid, today) ==>
      forall k :: 0 <= k < |r| ==> ValidDate(r[k])
  {
    if valid == [] then []
    else
      var first := MonthIndex(MinDate(valid));
      var last := MonthIndex(Bound(valid, today));
      MonthRun(FirstOfMonth(MinDate(valid)), if last < first then 0 else last - first + 1)
  }

  /** The timeline of an input list. */
  function TimelineDates(items: seq<Item>, today: Date): (r: seq<Date>)
    ensures forall k :: 0 <= k < |r| ==> InRange(r[k])
    ensures !Overflows(ValidDates(items), today) ==> forall k :: 0 <= k < |r| ==> ValidDate(r[k])
  {
    TimelineOf(ValidDates(items), today)
  }

  function Formatted(ds: seq<Date>): (r: seq<string>)
    requires forall k :: 0 <= k < |ds| ==> InRange(ds[k])
    ensures |r| == |ds| && forall k :: 0 <= k < |ds| ==> r[k] == FormatYmd(ds[k])
  {
    seq(|ds|, k requires 0 <= k < |ds| && InRange(ds[k]) => FormatYmd(ds[k]))
  }

  /** What `generate_date_timeline` gives: the timeline as strings, or
      None where it raises `ValueError`. */
  function TimelineSpec(items: seq<Item>, today: Date): Option<seq<string>> {
    if Overflows(ValidDates(items), today) then None
    else Some(Formatted(TimelineDates(items, today)))
  }

  /** With valid dates, the timeline is the run of months from the
      earliest date's month to the bound's month. */
  lemma TimelineShape(valid: seq<Date>, today: Date)
    requires valid != [] && InRange(today) && forall d :: d in valid ==> InRange(d)
    ensures var first := MonthIndex(MinDate(valid));
      var last := MonthIndex(Bound(valid, today));
      && 0 <= first <= last
      && DateLeq(FirstOfMonth(MinDate(valid)), Bound(valid, today))
      && TimelineOf(valid, today) == MonthRun(FirstOfMonth(MinDate(valid)), last - first + 1)
  {
    LeqMonthIndex(MinDate(valid), MaxDate(valid));
    LeqMonthIndex(MaxDate(valid), Bound(valid, today));
  }

  // ---------------------------------------------------------------------
  // The generator

  /** The first loop of `generate_date_timeline`: `valid_dates`. */
  method CollectValidDates(items: seq<Item>) returns (validDates: seq<Date>)
    ensures validDates == ValidDates(items)
  {
    ghost var parsed := ParsedAll(items);
    validDates := [];
    for i := 0 to |items|
      invariant validDates == Somes(parsed[..i])
    {
      assert parsed[..i + 1][..i] == parsed[..i];
      match items[i]
      case Str(s) =>
        var date := ParseYmd(s);
        if date.Some? {
          validDates := validDates + [date.value];
        }
      case NonString =>
    }
    assert parsed[..|items|] == parsed;
  }

  /** The second loop: from `minDate`, a month start, one month at a time
      while not after `maxDate`; stepping on from December 9999 raises,
      which is None. */
  method WalkMonths(minDate: Date, maxDate: Date) returns (result: Option<seq<string>>)
    requires ValidDate(minDate) && minDate.day == 1
    requires InRange(maxDate) && DateLeq(minDate, maxDate)
    ensures MonthIndex(minDate) <= MonthIndex(maxDate)
    ensures result ==
      if MonthIndex(maxDate) >= MonthIndex(LastMonth) then None
      else Some(Formatted(MonthRun(minDate, MonthIndex(maxDate) - MonthIndex(minDate) + 1)))
  {
    LeqMonthIndex(minDate, maxDate);
    var last := MonthIndex(maxDate);
    var months := [];
    var current := minDate;
    while DateLeq(current, maxDate)
      invariant MonthIndex(minDate) + |months| <= last + 1
      invariant current == Advance(minDate, |months|)
      invariant MonthIndex(current) <= MonthIndex(LastMonth)
      invariant months == Formatted(MonthRun(minDate, |months|))
      decreases last + 1 - |months|
    {
      FirstsOrdered(current, maxDate);
      WalkStep(minDate, |months|);
      months := months + [FormatYmd(current)];
      if current.year == 9999 && current.month == 12 {
        return None;
      }
      current := NextMonth(current);
    }
    FirstsOrdered(current, maxDate);
    result := Some(months);
  }

  /** One pass of the walk: the next month start, and its string appended. */
  lemma WalkStep(start: Date, n: nat)
    requires InRange(start)
    ensures Advance(start, n + 1) == NextMonth(Advance(start, n))
    ensures Formatted(MonthRun(start, n + 1)) == Formatted(MonthRun(start, n)) + [FormatYmd(Advance(start, n))]
  {
    MonthRunStep(start, n);
    FormattedAppend(MonthRun(start, n), Advance(start, n));
  }

  lemma MonthRunStep(start: Date, n: nat)
    ensures MonthRun(start, n + 1) == MonthRun(start, n) + [Advance(start, n)]
  {
  }

  lemma FormattedAppend(ds: seq<Date>, d: Date)
    requires (forall k :: 0 <= k < |ds| ==> InRange(ds[k])) && InRange(d)
    ensures Formatted(ds + [d]) == Formatted(ds) + [FormatYmd(d)]
  {
  }

  /** `generate_date_timeline(sorted_date_strings)` with today passed in. */
  method GenerateDateTimeline(items: seq<Item>, today: Date) returns (result: Option<seq<string>>)
    requires ValidDate(today)
    ensures result == TimelineSpec(items, today)
  {
    if |items| == 0 {
      return Some([]);
    }
    var validDates := CollectValidDates(items);
    if |validDates| == 0 {
      return Some([]);
    }
    var minDate := FirstOfMonth(MinDate(validDates));
    var dataMaxDate := MaxDate(validDates);
    if today.year == 9999 && today.month > 12 - FutureMonths {
      // `today + relativedelta(months=3)` lies past December 9999
      FutureOverflows(validDates, today);
      return None;
    }
    var futureDate := FutureStart(today);
    var maxDate := Later(dataMaxDate, futureDate);
    TimelineShape(validDates, today);
    result := WalkMonths(minDate, maxDate);
  }

  /** A today in October to December 9999 already overflows. */
  lemma FutureOverflows(valid: seq<Date>, today: Date)
    requires valid != [] && (forall d :: d in valid ==> InRange(d))
    requires ValidDate(today) && today.year == 9999 && today.month > 12 - FutureMonths
    ensures Overflows(valid, today)
  {
    FutureStartMonth(today);
    LeqMonthIndex(FutureStart(today), Bound(valid, today));
  }

  // ---------------------------------------------------------------------
  // Properties of the timeline, for any list of valid dates

  /** It starts on the first day of the earliest valid date's month. */
  lemma TimelineStart(valid: seq<Date>, today: Date)
    requires valid != [] && InRange(today) && forall d :: d in valid ==> InRange(d)
    ensures var ds := TimelineOf(valid, today);
      ds != [] && ds[0] == FirstOfMonth(MinDate(valid))
  {
    TimelineShape(valid, today);
  }

  /** Consecutive entries are one calendar month apart, on day 1, and
      strictly increasing. */
  lemma TimelineSteps(valid: seq<Date>, today: Date, k: nat)
    requires (forall d :: d in valid ==> InRange(d)) && k + 1 < |TimelineOf(valid, today)|
    ensures var ds := TimelineOf(valid, today);
      && ds[k].day == 1 && ds[k + 1].day == 1
      && ds[k + 1] == NextMonth(ds[k])
      && DateLess(ds[k], ds[k + 1])
  {
    AdvanceStep(FirstOfMonth(MinDate(valid)), k);
  }

  /** The last entry is the latest month start not after the bound (the
      later of the latest valid date and the future start). */
  lemma TimelineEnd(valid: seq<Date>, today: Date)
    requires valid != [] && InRange(today) && forall d :: d in valid ==> InRange(d)
    ensures var ds := TimelineOf(valid, today);
      var bound := Bound(valid, today);
      && ds != []
      && DateLeq(ds[|ds| - 1], bound)
      && DateLess(bound, NextMonth(ds[|ds| - 1]))
  {
    TimelineShape(valid, today);
    RunEnd(FirstOfMonth(MinDate(valid)), Bound(valid, today));
  }

  /** The run of month starts up to the month of `bound` ends on the latest
      month start not after `bound`. */
  lemma RunEnd(start: Date, bound: Date)
    requires InRange(start) && start.day == 1 && InRange(bound)
    requires MonthIndex(start) <= MonthIndex(bound)
    ensures var ds := MonthRun(start, MonthIndex(bound) - MonthIndex(start) + 1);
      && DateLeq(ds[|ds| - 1], bound)
      && DateLess(bound, NextMonth(ds[|ds| - 1]))
  {
    var n := MonthIndex(bound) - MonthIndex(start);
    var lastDate := Advance(start, n);
    assert MonthRun(start, n + 1)[n] == lastDate;
    FirstsOrdered(lastDate, bound);
    FirstsOrdered(NextMonth(lastDate), bound);
  }

  /** The month of every valid date is on the timeline. */
  lemma TimelineCovers(valid: seq<Date>, today: Date, d: Date)
    requires InRange(today) && (forall e :: e in valid ==> InRange(e)) && d in valid
    ensures FirstOfMonth(d) in TimelineOf(valid, today)
  {
    TimelineShape(valid, today);
    LeqMonthIndex(MinDate(valid), d);
    LeqMonthIndex(d, MaxDate(valid));
    LeqMonthIndex(MaxDate(valid), Bound(valid, today));
    RunCovers(FirstOfMonth(MinDate(valid)), Bound(valid, today), FirstOfMonth(d));
  }

  /** The future start is on the timeline whenever the data begins no
      later than it. */
  lemma TimelineCoversFuture(valid: seq<Date>, today: Date)
    requires valid != [] && InRange(today) && forall e :: e in valid ==> InRange(e)
    requires DateLeq(FirstOfMonth(MinDate(valid)), FutureStart(today))
    ensures FutureStart(today) in TimelineOf(valid, today)
  {
    TimelineShape(valid, today);
    var start := FirstOfMonth(MinDate(valid));
    LeqMonthIndex(start, FutureStart(today));
    LeqMonthIndex(FutureStart(today), Bound(valid, today));
    RunCovers(start, Bound(valid, today), FutureStart(today));
  }

  /** Every month start from the month of `start` to the month of `bound`
      is in the run between them. */
  lemma RunCovers(start: Date, bound: Date, m: Date)
    requires InRange(start) && start.day == 1 && 1 <= m.month <= 12 && m.day == 1
    requires MonthIndex(start) <= MonthIndex(m) <= MonthIndex(bound)
    ensures m in MonthRun(start, MonthIndex(bound) - MonthIndex(start) + 1)
  {
    var ds := MonthRun(start, MonthIndex(bound) - MonthIndex(start) + 1);
    var k := MonthIndex(m) - MonthIndex(start);
    SameMonth(ds[k], m);
  }

  /** The earliest and latest dates depend only on which dates there are. */
  lemma ExtremesOfSameDates(a: seq<Date>, b: seq<Date>)
    requires a != [] && forall d :: d in a <==> d in b
    ensures MinDate(a) == MinDate(b) && MaxDate(a) == MaxDate(b)
  {
  }

  lemma SameDatesBothEmpty(a: seq<Date>, b: seq<Date>)
    requires forall d :: d in a <==> d in b
    ensures a == [] <==> b == []
  {
    if a != [] {
      assert a[0] in b;
    }
    if b != [] {
      assert b[0] in a;
    }
  }

  /** The timeline does not depend on the order of the input, nor on
      repetitions in it. */
  lemma TimelineOrderIndependent(items1: seq<Item>, items2: seq<Item>, today: Date)
    requires ValidDate(today)
    requires forall x :: x in items1 <==> x in items2
    ensures TimelineSpec(items1, today) == TimelineSpec(items2, today)
  {
    var v1 := ValidDates(items1);
    var v2 := ValidDates(items2);
    forall d
      ensures d in v1 <==> d in v2
    {
      ValidDatesMembers(items1, d);
      ValidDatesMembers(items2, d);
      if d in v1 {
        var k :| 0 <= k < |items1| && Parsed(items1[k]) == Some(d);
        assert items1[k] in items2;
        var j :| 0 <= j < |items2| && items2[j] == items1[k];
      }
      if d in v2 {
        var k :| 0 <= k < |items2| && Parsed(items2[k]) == Some(d);
        assert items2[k] in items1;
        var j :| 0 <= j < |items1| && items1[j] == items2[k];
      }
    }
    SameDatesBothEmpty(v1, v2);
    if v1 != [] {
      ExtremesOfSameDates(v1, v2);
    }
  }
}
