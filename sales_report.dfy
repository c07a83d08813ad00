/**
  The sales report of `getSales`: the sales whose `createdAt` lies in an
  optional inclusive window, newest first, with revenue and profit summed
  over them.
 */
module SalesReport {
  import opened Common
  import opened SaleModel

  /**
    The response body: the sales returned, `count` (absent from the
    no-sales response), and the two totals.
   */
  datatype Report = Report(data: seq<Sale>, count: Option<nat>, totalRevenue: int, totalProfit: int)

  /** The date filter applies only when both bounds are given; then both are inclusive. */
  predicate Selected(s: Sale, startDate: Option<int>, endDate: Option<int>) {
    startDate.Some? && endDate.Some? ==> startDate.value <= s.createdAt <= endDate.value
  }

  /** `Sale.find(query)`: the ledger's sales that the query selects. */
  function Matching(sales: seq<Sale>, startDate: Option<int>, endDate: Option<int>): (r: seq<Sale>)
    ensures forall s :: multiset(r)[s] == if Selected(s, startDate, endDate) then multiset(sales)[s] else 0
  {
    if sales == [] then []
    else
      assert sales == [sales[0]] + sales[1..];
      (if Selected(sales[0], startDate, endDate) then [sales[0]] else []) + Matching(sales[1..], startDate, endDate)
  }

  predicate NewestFirst(ss: seq<Sale>) {
    forall i, j :: 0 <= i < j < |ss| ==> ss[i].createdAt >= ss[j].createdAt
  }

  /** A sale no older than the head of a newest-first list can go in front of it. */
  lemma ConsNewestFirst(x: Sale, t: seq<Sale>)
    requires NewestFirst(t)
    requires t != [] ==> x.createdAt >= t[0].createdAt
    ensures NewestFirst([x] + t)
  {
    var r := [x] + t;
    forall i, j | 0 <= i < j < |r|
      ensures r[i].createdAt >= r[j].createdAt
    {
      assert r[j] == t[j - 1];
      if i > 0 {
        assert r[i] == t[i - 1];
      }
    }
  }

  /** One step of the sort: `s` placed before the first sale older than it. */
  function Insert(s: Sale, ss: seq<Sale>): (r: seq<Sale>)
    ensures |r| == |ss| + 1
  {
    if ss == [] || s.createdAt >= ss[0].createdAt then [s] + ss
    else [ss[0]] + Insert(s, ss[1..])
  }

  lemma {:induction false} InsertPermutes(s: Sale, ss: seq<Sale>)
    ensures multiset(Insert(s, ss)) == multiset(ss) + multiset{s}
  {
    if ss != [] && s.createdAt < ss[0].createdAt {
      InsertPermutes(s, ss[1..]);
      assert ss == [ss[0]] + ss[1..];
    }
  }

  lemma {:induction false} InsertSorted(s: Sale, ss: seq<Sale>)
    requires NewestFirst(ss)
    ensures NewestFirst(Insert(s, ss))
  {
    if ss == [] || s.createdAt >= ss[0].createdAt {
      ConsNewestFirst(s, ss);
    } else {
      var tail := ss[1..];
      assert NewestFirst(tail);
      InsertSorted(s, tail);
      var rest := Insert(s, tail);
      assert rest[0] == s || rest[0] == tail[0];
      ConsNewestFirst(ss[0], rest);
    }
  }

  /** `.sort({createdAt: -1})`: insertion sort, newest first. */
  function SortNewestFirst(ss: seq<Sale>): (r: seq<Sale>)
    ensures |r| == |ss|
  {
    if ss == [] then [] else Insert(ss[0], SortNewestFirst(ss[1..]))
  }

  /** The sort's output is newest first... */
  lemma {:induction false} SortSorted(ss: seq<Sale>)
    ensures NewestFirst(SortNewestFirst(ss))
  {
    if ss != [] {
      SortSorted(ss[1..]);
      InsertSorted(ss[0], SortNewestFirst(ss[1..]));
    }
  }

  /** ... and holds the same sales. */
  lemma {:induction false} SortPermutes(ss: seq<Sale>)
    ensures multiset(SortNewestFirst(ss)) == multiset(ss)
  {
    if ss != [] {
      SortPermutes(ss[1..]);
      InsertPermutes(ss[0], SortNewestFirst(ss[1..]));
      assert ss == [ss[0]] + ss[1..];
    }
  }

  /** Σ totalAmount. */
  function Revenue(ss: seq<Sale>): int {
    if ss == [] then 0 else ss[0].totalAmount + Revenue(ss[1..])
  }

  /** Σ totalProfit. */
  function Profit(ss: seq<Sale>): int {
    if ss == [] then 0 else ss[0].totalProfit + Profit(ss[1..])
  }

  lemma {:induction false} InsertKeepsTotals(s: Sale, ss: seq<Sale>)
    ensures Revenue(Insert(s, ss)) == s.totalAmount + Revenue(ss)
    ensures Profit(Insert(s, ss)) == s.totalProfit + Profit(ss)
  {
    if ss != [] && s.createdAt < ss[0].createdAt {
      InsertKeepsTotals(s, ss[1..]);
    }
  }

  /** Sorting does not change the totals. */
  lemma {:induction false} SortKeepsTotals(ss: seq<Sale>)
    ensures Revenue(SortNewestFirst(ss)) == Revenue(ss)
    ensures Profit(SortNewestFirst(ss)) == Profit(ss)
  {
    if ss != [] {
      SortKeepsTotals(ss[1..]);
      InsertKeepsTotals(ss[0], SortNewestFirst(ss[1..]));
    }
  }

  /**
    The report: exactly the selected sales (as a multiset), newest first,
    totals summed over them, `count` their number; no selected sale gives
    an empty report with zero totals and no `count`, not an error.
   */
  function GetSales(sales: seq<Sale>, startDate: Option<int>, endDate: Option<int>): (r: Report)
    ensures var m := Matching(sales, startDate, endDate);
      && multiset(r.data) == multiset(m)
      && NewestFirst(r.data)
      && r.totalRevenue == Revenue(m)
      && r.totalProfit == Profit(m)
      && (r.count.Some? <==> m != [])
      && (r.count.Some? ==> r.count.value == |r.data|)
    ensures forall s :: s in r.data <==> s in sales && Selected(s, startDate, endDate)
  {
    var m := Matching(sales, startDate, endDate);
    var sorted := SortNewestFirst(m);
    SortSorted(m);
    SortPermutes(m);
    SortKeepsTotals(m);
    assert forall s :: s in sorted <==> s in multiset(m);
    if |sorted| == 0 then
      Report([], None, 0, 0)
    else
      Report(sorted, Some(|sorted|), Revenue(sorted), Profit(sorted))
  }

  /** Without both bounds every sale in the ledger is reported. */
  lemma ReportWithoutWindowHasEverySale(sales: seq<Sale>, startDate: Option<int>, endDate: Option<int>)
    requires startDate.None? || endDate.None?
    ensures multiset(GetSales(sales, startDate, endDate).data) == multiset(sales)
  {
    var m := Matching(sales, startDate, endDate);
    assert forall s :: multiset(m)[s] == multiset(sales)[s];
    assert multiset(m) == multiset(sales);
  }

  /** A window that excludes every sale yields the empty report. */
  lemma EmptyWindowGivesZeroReport(sales: seq<Sale>, startDate: int, endDate: int)
    requires forall i :: 0 <= i < |sales| ==> !(startDate <= sales[i].createdAt <= endDate)
    ensures GetSales(sales, Some(startDate), Some(endDate)) == Report([], None, 0, 0)
  {
    var m := Matching(sales, Some(startDate), Some(endDate));
    assert multiset(m) == multiset{};
  }
}
