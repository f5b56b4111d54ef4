/** Values shared by every part of the dashboard model: the records the
    backend sends (device catalogue entries, PACS transactions), the
    derived per-service summary record, and the few JavaScript semantics
    the client code leans on (truthiness of optional strings,
    `substring(0, n)`, string `<`, and `Array.prototype.sort` on strings). */
module Common {

  datatype Option<+T> = None | Some(value: T) {
    /** `x || d` for an optional value */
    function GetOr(default: T): T {
      match this
      case Some(v) => v
      case None => default
    }
  }

  /** An optional string used as a JavaScript condition: null and "" are falsy. */
  predicate Active(f: Option<string>) {
    f.Some? && f.value != ""
  }

  /** `s || null` */
  function OrNull(s: string): (r: Option<string>)
    ensures r.None? <==> s == ""
    ensures r.Some? ==> r.value == s && Active(r)
  {
    if s == "" then None else Some(s)
  }

  /** `s || d` for strings */
  function OrDefault(s: string, d: string): (r: string)
    ensures s != "" ==> r == s
    ensures s == "" ==> r == d
  {
    if s == "" then d else s
  }

  /** `s.substring(0, n)`: the first n characters, or all of s when it is shorter. */
  function Prefix(s: string, n: nat): (r: string)
    ensures |r| == if |s| < n then |s| else n
    ensures r <= s
  {
    if |s| <= n then s else s[..n]
  }

  /** JavaScript `a < b` on strings: lexicographic on characters, a proper
      prefix being smaller. */
  predicate LexLess(a: string, b: string)
  {
    if b == [] then false
    else if a == [] then true
    else if a[0] != b[0] then a[0] < b[0]
    else LexLess(a[1..], b[1..])
  }

  lemma {:induction false} LexLessIrreflexive(a: string)
    ensures !LexLess(a, a)
  {
    if a != [] {
      LexLessIrreflexive(a[1..]);
    }
  }

  lemma {:induction false} LexLessTransitive(a: string, b: string, c: string)
    requires LexLess(a, b) && LexLess(b, c)
    ensures LexLess(a, c)
  {
    if a != [] && a[0] == b[0] && b[0] == c[0] {
      LexLessTransitive(a[1..], b[1..], c[1..]);
    }
  }

  lemma {:induction false} LexLessTotal(a: string, b: string)
    requires a != b
    ensures LexLess(a, b) || LexLess(b, a)
  {
    if a != [] && b != [] && a[0] == b[0] {
      LexLessTotal(a[1..], b[1..]);
    }
  }

  lemma LexLessAsymmetric(a: string, b: string)
    requires LexLess(a, b)
    ensures !LexLess(b, a)
  {
    if LexLess(b, a) {
      LexLessTransitive(a, b, a);
      LexLessIrreflexive(a);
    }
  }

  /** "a sorts no later than b" in ascending code-unit order */
  predicate LexLeq(a: string, b: string) {
    !LexLess(b, a)
  }

  lemma LexLeqTransitive(a: string, b: string, c: string)
    requires LexLeq(a, b) && LexLeq(b, c)
    ensures LexLeq(a, c)
  {
    if a != b && b != c {
      LexLessTotal(a, b);
      LexLessTotal(b, c);
      LexLessTransitive(a, b, c);
      if LexLess(c, a) {
        LexLessTransitive(a, c, a);
        LexLessIrreflexive(a);
      }
    }
  }

  predicate SortedAsc(s: seq<string>) {
    forall i, j :: 0 <= i < j < |s| ==> LexLeq(s[i], s[j])
  }

  function InsertAsc(x: string, s: seq<string>): (r: seq<string>)
    requires SortedAsc(s)
    ensures SortedAsc(r)
    ensures multiset(r) == multiset(s) + multiset{x}
    ensures forall e :: e in r ==> e == x || e in s
  {
    if s == [] then [x]
    else if LexLeq(x, s[0]) then
      assert forall j :: 0 <= j < |s| ==> LexLeq(x, s[j]) by {
        forall j | 0 <= j < |s| ensures LexLeq(x, s[j]) {
          if j > 0 { LexLeqTransitive(x, s[0], s[j]); }
        }
      }
      [x] + s
    else
      var rest := InsertAsc(x, s[1..]);
      assert LexLeq(s[0], x) by { LexLessAsymmetric(s[0], x); }
      assert forall e :: e in rest ==> LexLeq(s[0], e);
      assert s == [s[0]] + s[1..];
      [s[0]] + rest
  }

  /** `xs.slice().sort()` on strings: ascending code-unit order. */
  function SortAsc(xs: seq<string>): (r: seq<string>)
    ensures SortedAsc(r)
    ensures multiset(r) == multiset(xs)
    ensures Distinct(xs) ==> Distinct(r)
  {
    if xs == [] then []
    else
      assert xs == [xs[0]] + xs[1..];
      var rest := SortAsc(xs[1..]);
      if Distinct(xs) then
        assert xs[0] !in multiset(rest);
        InsertAscDistinct(xs[0], rest);
        InsertAsc(xs[0], rest)
      else
        InsertAsc(xs[0], rest)
  }

  lemma {:induction false} InsertAscDistinct(x: string, s: seq<string>)
    requires SortedAsc(s) && Distinct(s) && x !in s
    ensures Distinct(InsertAsc(x, s))
  {
    if s != [] && !LexLeq(x, s[0]) {
      InsertAscDistinct(x, s[1..]);
      var rest := InsertAsc(x, s[1..]);
      assert s[0] !in rest;
      assert InsertAsc(x, s) == [s[0]] + rest;
    }
  }

  /** A sorted sequence without repetitions is strictly increasing. */
  lemma SortedDistinctIsStrict(s: seq<string>)
    requires SortedAsc(s) && Distinct(s)
    ensures forall i, j :: 0 <= i < j < |s| ==> LexLess(s[i], s[j])
  {
    forall i, j | 0 <= i < j < |s|
      ensures LexLess(s[i], s[j])
    {
      LexLessTotal(s[i], s[j]);
    }
  }

  function Reverse<T>(s: seq<T>): (r: seq<T>)
    ensures |r| == |s|
    ensures forall i :: 0 <= i < |s| ==> r[i] == s[|s| - 1 - i]
  {
    if s == [] then [] else Reverse(s[1..]) + [s[0]]
  }

  lemma ReverseMembers<T>(s: seq<T>, y: T)
    ensures y in Reverse(s) <==> y in s
  {
    var r := Reverse(s);
    if y in s {
      var k :| 0 <= k < |s| && s[k] == y;
      assert r[|s| - 1 - k] == y;
    }
    if y in r {
      var k :| 0 <= k < |r| && r[k] == y;
      assert s[|s| - 1 - k] == y;
    }
  }

  lemma EmptyIffNoMembers<T>(s: seq<T>)
    ensures s == [] <==> forall y :: y !in s
  {
    if s != [] {
      assert s[0] in s;
    }
  }

  /** Reversing a strictly ascending list gives a strictly descending one. */
  lemma ReverseStrict(s: seq<string>)
    requires forall i, j :: 0 <= i < j < |s| ==> LexLess(s[i], s[j])
    ensures forall i, j :: 0 <= i < j < |s| ==> LexLess(Reverse(s)[j], Reverse(s)[i])
  {
    var r := Reverse(s);
    var n := |s|;
    forall i, j | 0 <= i < j < n
      ensures LexLess(r[j], r[i])
    {
      assert r[j] == s[n - 1 - j] && r[i] == s[n - 1 - i];
    }
  }

  /** `s.filter(p)`: the elements satisfying p, in their original order. */
  function Filter<T(!new)>(s: seq<T>, p: T -> bool): (r: seq<T>)
    ensures |r| <= |s|
    ensures forall x :: x in r <==> x in s && p(x)
  {
    if s == [] then []
    else Filter(s[..|s| - 1], p) + (if p(s[|s| - 1]) then [s[|s| - 1]] else [])
  }

  /** Two predicates that agree on every element select the same elements. */
  lemma {:induction false} FilterAgree<T(!new)>(s: seq<T>, p: T -> bool, q: T -> bool)
    requires forall x :: x in s ==> p(x) == q(x)
    ensures Filter(s, p) == Filter(s, q)
  {
    if s != [] {
      FilterAgree(s[..|s| - 1], p, q);
    }
  }

  /** The values of the present options, in order. */
  function Somes<T>(os: seq<Option<T>>): seq<T> {
    if os == [] then []
    else
      var o := os[|os| - 1];
      Somes(os[..|os| - 1]) + (if o.Some? then [o.value] else [])
  }

  /** A value is kept exactly when some option holds it. */
  lemma {:induction false} SomesMembers<T>(os: seq<Option<T>>, x: T)
    ensures x in Somes(os) <==> exists k :: 0 <= k < |os| && os[k] == Some(x)
  {
    if os != [] {
      var n := |os| - 1;
      var init := os[..n];
      SomesMembers(init, x);
      if x in Somes(init) {
        var k :| 0 <= k < n && init[k] == Some(x);
        assert os[k] == Some(x);
      }
      if exists k :: 0 <= k < |os| && os[k] == Some(x) {
        var k :| 0 <= k < |os| && os[k] == Some(x);
        if k < n {
          assert init[k] == Some(x);
        }
      }
    }
  }

  /** No element occurs twice. */
  predicate Distinct<T(==)>(s: seq<T>) {
    forall i, j :: 0 <= i < j < |s| ==> s[i] != s[j]
  }

  /** A list with a head is distinct exactly when its tail is and the head
      is not in the tail. */
  lemma DistinctCons<T>(x: T, s: seq<T>)
    ensures Distinct([x] + s) <==> x !in s && Distinct(s)
  {
    var t := [x] + s;
    assert forall i :: 0 <= i < |s| ==> t[i + 1] == s[i];
    if Distinct(t) {
      forall i, j | 0 <= i < j < |s|
        ensures s[i] != s[j]
      {
        assert t[i + 1] != t[j + 1];
      }
      assert forall i :: 0 <= i < |s| ==> t[0] != s[i];
    }
  }

  /** Decimal digits. */
  predicate IsDigit(c: char) {
    '0' <= c <= '9'
  }

  function DigitChar(d: nat): (c: char)
    requires d < 10
    ensures IsDigit(c)
  {
    ('0' as int + d) as char
  }

  function DigitValue(c: char): (d: nat)
    requires IsDigit(c)
    ensures d < 10
  {
    c as int - '0' as int
  }

  /** A device of the catalogue, `bmeMap[aeTitle]`. A missing string field is "";
      `capEx` is None when the record carries no capital cost (`capEx == null`). */
  datatype Device = Device(
    bmeName: string,
    brand: string,
    model: string,
    capEx: Option<int>,
    monthlyDep: int,
    depMonths: int,
    orderNum: string)

  /** One billed procedure, an element of `pacsDataDetails`. A missing string
      field is ""; a missing `orderQty` counts as 0 (`orderQty || 0`);
      `revenuePL` is None when the field is absent (undefined). */
  datatype Txn = Txn(
    aeTitle: string,
    yearMonth: string,
    serviceCode: string,
    serviceName: string,
    orderQty: int,
    revenuePL: Option<int>)

  /** One entry of `sortedServiceSummary`. */
  datatype Summary = Summary(
    serviceCode: string,
    serviceName: string,
    totalCount: int,
    totalRevenuePL: int)

  /** No two summary entries share a service code. */
  predicate DistinctCodes(s: seq<Summary>) {
    forall i, j :: 0 <= i < j < |s| ==> s[i].serviceCode != s[j].serviceCode
  }

  /** `deviceHierarchy[bme][brandModel]` as insertion-ordered association
      lists, in the key order a JavaScript object keeps. */
  datatype ModelGroup = ModelGroup(brandModel: string, aeTitles: seq<string>)
  datatype BmeGroup = BmeGroup(bmeName: string, models: seq<ModelGroup>)

  /** A date interval on the chart axis (timestamps). */
  datatype Window = Window(start: int, end: int)
}
