/** Sales report: `ReportRepository.GetReport`.

    The report filters the transactions by a date window, sums their totals,
    counts them, and names the best-selling product: the detail rows of the
    window are inner-joined with the current product table, grouped by the
    product's current name, and the group with the largest summed quantity
    wins. The query has no tie-break, so the model only promises "some group
    with a maximal sum". Dates are day numbers; an absent date stands for the
    empty query parameter. */
module ReportRepository {
  import opened Wrappers
  import opened Models

  /** The date filter of the three queries. */
  datatype Window = Today | Between(start: int, end: int)

  /** A range is used only when both dates are given; otherwise the report
      covers the current day. */
  function ChooseWindow(startDate: Option<int>, endDate: Option<int>): Window
  {
    if startDate.Some? && endDate.Some? then Between(startDate.value, endDate.value) else Today
  }

  /** `DATE(t.created_at) = CURRENT_DATE`, or `BETWEEN start AND end`
      (both bounds inclusive). */
  predicate InWindow(w: Window, today: int, day: int)
  {
    match w
    case Today => day == today
    case Between(s, e) => s <= day <= e
  }

  /** The transactions the filter keeps; `SelectedCounts` states that every
      occurrence of a transaction in the window is kept. */
  function Selected(sales: seq<SaleRecord>, w: Window, today: int): (r: seq<SaleRecord>)
    ensures forall x :: x in r <==> x in sales && InWindow(w, today, x.day)
    ensures |r| <= |sales|
  {
    if |sales| == 0 then []
    else
      (if InWindow(w, today, sales[0].day) then [sales[0]] else []) + Selected(sales[1..], w, today)
  }

  /** The filter keeps each transaction of the window as often as it occurs,
      and no other transaction. */
  lemma {:induction false} SelectedCounts(sales: seq<SaleRecord>, w: Window, today: int)
    ensures forall x ::
      multiset(Selected(sales, w, today))[x] == if InWindow(w, today, x.day) then multiset(sales)[x] else 0
    decreases |sales|
  {
    if |sales| > 0 {
      assert sales == [sales[0]] + sales[1..];
      SelectedCounts(sales[1..], w, today);
    }
  }

  /** `COALESCE(SUM(total_amount), 0)`. */
  function SumTotals(sales: seq<SaleRecord>): int
  {
    if |sales| == 0 then 0 else sales[0].totalAmount + SumTotals(sales[1..])
  }

  /** One joined row of the top-product query: the current product name and
      the quantity of one detail row. */
  datatype Row = Row(name: string, qty: int)

  /** Detail `d` joins with an existing product whose current name is `name`. */
  predicate SoldAs(table: Catalog, d: StoredDetail, name: string)
  {
    d.productId in table && table[d.productId].name == name
  }

  /** Reference sums over the details themselves: the summed quantity of the
      details that join with a product named `name`, and the number of
      details that join with any product. */
  function NamedQty(details: seq<StoredDetail>, table: Catalog, name: string): int
  {
    if |details| == 0 then 0
    else
      var q := if SoldAs(table, details[0], name) then details[0].quantity else 0;
      q + NamedQty(details[1..], table, name)
  }

  function JoinableCount(details: seq<StoredDetail>, table: Catalog): nat
  {
    if |details| == 0 then 0
    else (if details[0].productId in table then 1 else 0) + JoinableCount(details[1..], table)
  }

  /** The same two sums over all details of a sequence of transactions. */
  function WindowQty(sales: seq<SaleRecord>, table: Catalog, name: string): int
  {
    if |sales| == 0 then 0 else NamedQty(sales[0].details, table, name) + WindowQty(sales[1..], table, name)
  }

  function WindowJoinable(sales: seq<SaleRecord>, table: Catalog): nat
  {
    if |sales| == 0 then 0 else JoinableCount(sales[0].details, table) + WindowJoinable(sales[1..], table)
  }

  /** `row` is the joined row of detail `d`: its product exists, and the row
      carries that product's current name and the detail's quantity. */
  predicate JoinedFrom(table: Catalog, d: StoredDetail, row: Row)
  {
    d.productId in table && row == Row(table[d.productId].name, d.quantity)
  }

  /** `row` is the joined row of some detail among `details`. */
  predicate RowOfDetails(details: seq<StoredDetail>, table: Catalog, row: Row)
  {
    exists d :: d in details && JoinedFrom(table, d, row)
  }

  /** `row` is the joined row of some detail of some transaction of `sales`. */
  predicate RowOfSales(sales: seq<SaleRecord>, table: Catalog, row: Row)
  {
    exists s, d :: s in sales && d in s.details && JoinedFrom(table, d, row)
  }

  /** The joined rows of one transaction's details: one row per detail whose
      product still exists (the join is inner), each group's summed quantity
      is the summed quantity of the details sold under that current name, and
      every row is the joined row of some detail of the list. */
  function DetailRows(details: seq<StoredDetail>, table: Catalog): (r: seq<Row>)
    ensures |r| == JoinableCount(details, table)
    ensures forall n :: GroupSum(r, n) == NamedQty(details, table, n)
    ensures |r| == 0 <==> forall d :: d in details ==> d.productId !in table
    ensures forall d :: d in details && d.productId in table ==>
      Row(table[d.productId].name, d.quantity) in r
    ensures forall row :: row in r ==> RowOfDetails(details, table, row)
  {
    if |details| == 0 then []
    else
      var d := details[0];
      var head := if d.productId in table then [Row(table[d.productId].name, d.quantity)] else [];
      var rest := DetailRows(details[1..], table);
      GroupSumsAppend(head, rest);
      DetailOrigins(details, table, head, rest);
      head + rest
  }

  /** The row of the first detail (if it joins) followed by rows of the later
      details are all rows of `details`. */
  lemma DetailOrigins(details: seq<StoredDetail>, table: Catalog, head: seq<Row>, rest: seq<Row>)
    requires |details| > 0
    requires head == if details[0].productId in table
                     then [Row(table[details[0].productId].name, details[0].quantity)] else []
    requires forall row :: row in rest ==> RowOfDetails(details[1..], table, row)
    ensures forall row :: row in head + rest ==> RowOfDetails(details, table, row)
  {
    forall row | row in head + rest
      ensures RowOfDetails(details, table, row)
    {
      if row in head {
        assert details[0] in details && JoinedFrom(table, details[0], row);
      } else {
        assert row in rest;
        var d :| d in details[1..] && JoinedFrom(table, d, row);
        assert d in details;
      }
    }
  }

  /** The joined rows of a sequence of transactions, with the same promises. */
  function JoinRows(sales: seq<SaleRecord>, table: Catalog): (r: seq<Row>)
    ensures |r| == WindowJoinable(sales, table)
    ensures forall n :: GroupSum(r, n) == WindowQty(sales, table, n)
    ensures |r| == 0 <==> forall s, d :: s in sales && d in s.details ==> d.productId !in table
    ensures forall s, d :: s in sales && d in s.details && d.productId in table ==>
      Row(table[d.productId].name, d.quantity) in r
    ensures forall row :: row in r ==> RowOfSales(sales, table, row)
  {
    if |sales| == 0 then []
    else
      var head := DetailRows(sales[0].details, table);
      var rest := JoinRows(sales[1..], table);
      GroupSumsAppend(head, rest);
      RowOrigins(sales, table, head, rest);
      head + rest
  }

  /** The rows of the first transaction followed by the rows of the others
      are all rows of `sales`. */
  lemma RowOrigins(sales: seq<SaleRecord>, table: Catalog, head: seq<Row>, rest: seq<Row>)
    requires |sales| > 0
    requires forall row :: row in head ==> RowOfDetails(sales[0].details, table, row)
    requires forall row :: row in rest ==> RowOfSales(sales[1..], table, row)
    ensures forall row :: row in head + rest ==> RowOfSales(sales, table, row)
  {
    forall row | row in head + rest
      ensures RowOfSales(sales, table, row)
    {
      if row in head {
        var d :| d in sales[0].details && JoinedFrom(table, d, row);
        assert sales[0] in sales;
      } else {
        assert row in rest;
        var s, d :| s in sales[1..] && d in s.details && JoinedFrom(table, d, row);
        assert s in sales;
      }
    }
  }

  /** `SUM(td.quantity)` of the group named `name`. */
  function GroupSum(rows: seq<Row>, name: string): int
  {
    if |rows| == 0 then 0
    else (if rows[0].name == name then rows[0].qty else 0) + GroupSum(rows[1..], name)
  }

  /** Group sums add up over concatenated rows. */
  lemma {:induction false} GroupSumAppend(a: seq<Row>, b: seq<Row>, name: string)
    ensures GroupSum(a + b, name) == GroupSum(a, name) + GroupSum(b, name)
    decreases |a|
  {
    if |a| == 0 {
      assert a + b == b;
    } else {
      assert (a + b)[0] == a[0];
      assert (a + b)[1..] == a[1..] + b;
      GroupSumAppend(a[1..], b, name);
    }
  }

  lemma GroupSumsAppend(a: seq<Row>, b: seq<Row>)
    ensures forall n :: GroupSum(a + b, n) == GroupSum(a, n) + GroupSum(b, n)
  {
    forall n
      ensures GroupSum(a + b, n) == GroupSum(a, n) + GroupSum(b, n)
    {
      GroupSumAppend(a, b, n);
    }
  }

  /** A group name among `rows[i..]` whose sum no group of `rows[i..]` exceeds. */
  function BestFrom(rows: seq<Row>, i: nat): (n: string)
    requires i < |rows|
    ensures exists k :: i <= k < |rows| && rows[k].name == n
    ensures forall k :: i <= k < |rows| ==> GroupSum(rows, rows[k].name) <= GroupSum(rows, n)
    decreases |rows| - i
  {
    if i == |rows| - 1 then rows[i].name
    else
      var b := BestFrom(rows, i + 1);
      if GroupSum(rows, b) <= GroupSum(rows, rows[i].name) then rows[i].name else b
  }

  /** `t` is an admissible answer of `ORDER BY qty_terjual DESC LIMIT 1` over
      `rows`: the sentinel `("-", 0)` when there are no rows, otherwise a
      group that occurs, with its summed quantity, and no group larger. */
  predicate IsTopOf(rows: seq<Row>, t: TopProduct)
  {
    if |rows| == 0 then t == TopProduct("-", 0)
    else
      && (exists k :: 0 <= k < |rows| && rows[k].name == t.nama)
      && t.qtyTerjual == GroupSum(rows, t.nama)
      && forall k :: 0 <= k < |rows| ==> GroupSum(rows, rows[k].name) <= t.qtyTerjual
  }

  /** The top-product query, with `sql.ErrNoRows` mapped to `("-", 0)`. */
  function TopSeller(rows: seq<Row>): (t: TopProduct)
    ensures IsTopOf(rows, t)
  {
    if |rows| == 0 then TopProduct("-", 0)
    else
      var n := BestFrom(rows, 0);
      TopProduct(n, GroupSum(rows, n))
  }

  /** `GetReport`: one report whose revenue and count are taken over the
      transactions of the window and whose top product is an admissible
      answer over the joined rows of those same transactions. */
  function GetReport(sales: seq<SaleRecord>, table: Catalog, startDate: Option<int>,
                     endDate: Option<int>, today: int): (r: seq<Report>)
    ensures |r| == 1
    ensures r[0].totalRevenue == SumTotals(Selected(sales, ChooseWindow(startDate, endDate), today))
    ensures r[0].totalTransaksi == |Selected(sales, ChooseWindow(startDate, endDate), today)|
    ensures IsTopOf(JoinRows(Selected(sales, ChooseWindow(startDate, endDate), today), table),
                    r[0].produkTerlaris)
  {
    var inWindow := Selected(sales, ChooseWindow(startDate, endDate), today);
    [Report(SumTotals(inWindow), |inWindow|, TopSeller(JoinRows(inWindow, table)))]
  }

  /** Stated over the details of the window rather than the joined rows:
      when some detail of the window joins with a product, the top product's
      quantity is the summed quantity of the details sold under its name, and
      no name any such detail is sold under has a larger sum; the top name is
      itself a name some joinable detail of the window is sold under. */
  lemma TopIsHeaviestName(sales: seq<SaleRecord>, table: Catalog, startDate: Option<int>,
                          endDate: Option<int>, today: int)
    requires WindowJoinable(Selected(sales, ChooseWindow(startDate, endDate), today), table) > 0
    ensures var inWindow := Selected(sales, ChooseWindow(startDate, endDate), today);
      var top := GetReport(sales, table, startDate, endDate, today)[0].produkTerlaris;
      && (exists s, d :: s in inWindow && d in s.details && SoldAs(table, d, top.nama))
      && top.qtyTerjual == WindowQty(inWindow, table, top.nama)
      && forall s, d :: s in inWindow && d in s.details && d.productId in table ==>
           WindowQty(inWindow, table, table[d.productId].name) <= top.qtyTerjual
  {
    var inWindow := Selected(sales, ChooseWindow(startDate, endDate), today);
    var rows := JoinRows(inWindow, table);
    var top := GetReport(sales, table, startDate, endDate, today)[0].produkTerlaris;
    assert IsTopOf(rows, top);
    var k :| 0 <= k < |rows| && rows[k].name == top.nama;
    assert rows[k] in rows;
    var s0, d0 :| s0 in inWindow && d0 in s0.details && JoinedFrom(table, d0, rows[k]);
    assert SoldAs(table, d0, top.nama);
    forall s, d | s in inWindow && d in s.details && d.productId in table
      ensures WindowQty(inWindow, table, table[d.productId].name) <= top.qtyTerjual
    {
      var row := Row(table[d.productId].name, d.quantity);
      assert row in rows;
      var k :| 0 <= k < |rows| && rows[k] == row;
      assert GroupSum(rows, rows[k].name) <= top.qtyTerjual;
    }
  }

  /** The window is `[start, end]` when both dates are given and the current
      day otherwise. */
  lemma WindowRule(startDate: Option<int>, endDate: Option<int>, today: int, day: int)
    ensures InWindow(ChooseWindow(startDate, endDate), today, day) <==>
      if startDate.Some? && endDate.Some? then startDate.value <= day <= endDate.value
      else day == today
  {
  }

  /** With no transaction in the window the report is all zeros and the
      sentinel top product. */
  lemma EmptyWindowReport(sales: seq<SaleRecord>, table: Catalog, startDate: Option<int>,
                          endDate: Option<int>, today: int)
    requires forall x :: x in sales ==> !InWindow(ChooseWindow(startDate, endDate), today, x.day)
    ensures GetReport(sales, table, startDate, endDate, today) == [Report(0, 0, TopProduct("-", 0))]
  {
  }

  /** When no detail row of the window joins with an existing product, the
      top product is the sentinel, whatever the revenue. */
  lemma NoJoinableRowsSentinel(sales: seq<SaleRecord>, table: Catalog, startDate: Option<int>,
                               endDate: Option<int>, today: int)
    requires forall s, d ::
      (s in sales && d in s.details && InWindow(ChooseWindow(startDate, endDate), today, s.day))
      ==> d.productId !in table
    ensures GetReport(sales, table, startDate, endDate, today)[0].produkTerlaris == TopProduct("-", 0)
  {
  }

  /** Two windows that admit the same days select the same transactions. */
  lemma {:induction false} SelectedSameDays(sales: seq<SaleRecord>, w1: Window, today1: int,
                                            w2: Window, today2: int)
    requires forall day :: InWindow(w1, today1, day) <==> InWindow(w2, today2, day)
    ensures Selected(sales, w1, today1) == Selected(sales, w2, today2)
    decreases |sales|
  {
    if |sales| > 0 {
      SelectedSameDays(sales[1..], w1, today1, w2, today2);
    }
  }

  /** The report of the current day (the `/hari-ini` route, which passes no
      dates) equals the report of the one-day range `[today, today]`. */
  lemma TodayIsSingleDayRange(sales: seq<SaleRecord>, table: Catalog, today: int, clock: int)
    ensures GetReport(sales, table, None, None, today)
         == GetReport(sales, table, Some(today), Some(today), clock)
  {
    SelectedSameDays(sales, Today, today, Between(today, today), clock);
  }

  /** Only one of the two dates counts as none: the report falls back to
      the current day. */
  lemma OneDateIsIgnored(sales: seq<SaleRecord>, table: Catalog, date: int, today: int)
    ensures GetReport(sales, table, Some(date), None, today) == GetReport(sales, table, None, None, today)
    ensures GetReport(sales, table, None, Some(date), today) == GetReport(sales, table, None, None, today)
  {
  }

  /** Removes the detail rows of product `pid` from one transaction. */
  function DropDetails(details: seq<StoredDetail>, pid: int): (r: seq<StoredDetail>)
    ensures forall d :: d in r <==> d in details && d.productId != pid
  {
    if |details| == 0 then []
    else (if details[0].productId == pid then [] else [details[0]]) + DropDetails(details[1..], pid)
  }

  /** Removes the detail rows of product `pid` from every transaction. */
  function DropProduct(sales: seq<SaleRecord>, pid: int): (r: seq<SaleRecord>)
    ensures |r| == |sales|
    ensures forall i :: 0 <= i < |sales| ==>
      r[i] == sales[i].(details := DropDetails(sales[i].details, pid))
  {
    if |sales| == 0 then []
    else [sales[0].(details := DropDetails(sales[0].details, pid))] + DropProduct(sales[1..], pid)
  }

  lemma {:induction false} DetailRowsIgnoreMissing(details: seq<StoredDetail>, table: Catalog, pid: int)
    requires pid !in table
    ensures DetailRows(DropDetails(details, pid), table) == DetailRows(details, table)
    decreases |details|
  {
    if |details| > 0 {
      DetailRowsIgnoreMissing(details[1..], table, pid);
      var rest := DropDetails(details[1..], pid);
      if details[0].productId == pid {
        assert DropDetails(details, pid) == rest;
      } else {
        assert DropDetails(details, pid) == [details[0]] + rest;
        assert ([details[0]] + rest)[1..] == rest;
      }
    }
  }

  lemma {:induction false} DropCommutesWithFilter(sales: seq<SaleRecord>, w: Window, today: int, pid: int)
    ensures Selected(DropProduct(sales, pid), w, today) == DropProduct(Selected(sales, w, today), pid)
    ensures SumTotals(DropProduct(sales, pid)) == SumTotals(sales)
    decreases |sales|
  {
    if |sales| > 0 {
      DropCommutesWithFilter(sales[1..], w, today, pid);
      assert DropProduct(sales, pid)[1..] == DropProduct(sales[1..], pid);
      var head := if InWindow(w, today, sales[0].day) then [sales[0]] else [];
      assert Selected(sales, w, today) == head + Selected(sales[1..], w, today);
      DropProductAppend(head, Selected(sales[1..], w, today), pid);
    }
  }

  lemma DropProductAppend(a: seq<SaleRecord>, b: seq<SaleRecord>, pid: int)
    ensures DropProduct(a + b, pid) == DropProduct(a, pid) + DropProduct(b, pid)
  {
  }

  lemma {:induction false} JoinIgnoresMissing(sales: seq<SaleRecord>, table: Catalog, pid: int)
    requires pid !in table
    ensures JoinRows(DropProduct(sales, pid), table) == JoinRows(sales, table)
    decreases |sales|
  {
    if |sales| > 0 {
      JoinIgnoresMissing(sales[1..], table, pid);
      DetailRowsIgnoreMissing(sales[0].details, table, pid);
      assert DropProduct(sales, pid)[1..] == DropProduct(sales[1..], pid);
    }
  }

  /** The inner join: detail rows of a product that no longer exists do not
      affect the report at all; the transaction totals still count toward
      the revenue, since those come from the transaction headers. */
  lemma MissingProductIgnored(sales: seq<SaleRecord>, table: Catalog, pid: int,
                              startDate: Option<int>, endDate: Option<int>, today: int)
    requires pid !in table
    ensures GetReport(DropProduct(sales, pid), table, startDate, endDate, today)
         == GetReport(sales, table, startDate, endDate, today)
  {
    var w := ChooseWindow(startDate, endDate);
    DropCommutesWithFilter(sales, w, today, pid);
    DropCommutesWithFilter(Selected(sales, w, today), w, today, pid);
    JoinIgnoresMissing(Selected(sales, w, today), table, pid);
  }

  lemma {:induction false} SumTotalsAppend(a: seq<SaleRecord>, b: seq<SaleRecord>)
    ensures SumTotals(a + b) == SumTotals(a) + SumTotals(b)
    decreases |a|
  {
    if |a| > 0 {
      assert (a + b)[0] == a[0];
      assert (a + b)[1..] == a[1..] + b;
      SumTotalsAppend(a[1..], b);
    } else {
      assert a + b == b;
    }
  }

  lemma {:induction false} SelectedAppend(a: seq<SaleRecord>, b: seq<SaleRecord>, w: Window, today: int)
    ensures Selected(a + b, w, today) == Selected(a, w, today) + Selected(b, w, today)
    decreases |a|
  {
    if |a| > 0 {
      var head := if InWindow(w, today, a[0].day) then [a[0]] else [];
      assert (a + b)[0] == a[0];
      assert (a + b)[1..] == a[1..] + b;
      assert Selected(a + b, w, today) == head + Selected(a[1..] + b, w, today);
      assert Selected(a, w, today) == head + Selected(a[1..], w, today);
      SelectedAppend(a[1..], b, w, today);
    } else {
      assert a + b == b;
    }
  }

  /** Recording one more transaction adds its total to the revenue and one to
      the count of every window it falls in, and changes neither otherwise. */
  lemma RecordedSaleCounts(sales: seq<SaleRecord>, x: SaleRecord, w: Window, today: int)
    ensures SumTotals(Selected(sales + [x], w, today))
         == SumTotals(Selected(sales, w, today)) + (if InWindow(w, today, x.day) then x.totalAmount else 0)
    ensures |Selected(sales + [x], w, today)|
         == |Selected(sales, w, today)| + (if InWindow(w, today, x.day) then 1 else 0)
  {
    SelectedAppend(sales, [x], w, today);
    SumTotalsAppend(Selected(sales, w, today), Selected([x], w, today));
    assert [x][1..] == [];
  }
}
