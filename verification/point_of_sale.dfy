/** The database as one abstract state: the product table and the persisted
    transactions. A checkout and a report are each one atomic step over it,
    which is what the surrounding database transaction provides. */
module PointOfSale {
  import opened Wrappers
  import opened Models
  import opened TransactionRepository
  import opened ReportRepository

  /** The `products` table and the `transactions`/`transaction_details` rows. */
  datatype Db = Db(products: Catalog, sales: seq<SaleRecord>)

  /** The `transaction_details` rows written for a transaction's details:
      product id, quantity and subtotal; the name is not stored. */
  function StoredDetails(details: seq<TransactionDetail>): (r: seq<StoredDetail>)
    ensures |r| == |details|
    ensures forall i :: 0 <= i < |details| ==>
      r[i] == StoredDetail(details[i].productId, details[i].quantity, details[i].subtotal)
  {
    if |details| == 0 then []
    else
      var d := details[0];
      [StoredDetail(d.productId, d.quantity, d.subtotal)] + StoredDetails(details[1..])
  }

  /** The persisted form of a transaction created on day `today`. */
  function Persisted(t: Transaction, today: int): SaleRecord
  {
    SaleRecord(t.id, today, t.totalAmount, StoredDetails(t.details))
  }

  /** Every persisted transaction has its own id. */
  predicate UniqueIds(sales: seq<SaleRecord>)
  {
    forall i, j :: 0 <= i < j < |sales| ==> sales[i].id != sales[j].id
  }

  /** A checkout as one atomic step: on success the drained table and the
      new transaction are committed together; on any error the database is
      exactly as it was. `freshId` is the serial id the database hands out
      and `today` the date it stamps on the new row. */
  function Checkout(db: Db, items: seq<CheckoutItem>, freshId: int, today: int)
    : (r: (Db, Result<Transaction, CheckoutError>))
    ensures r.1.Success? <==> CartAccepted(db.products, items)
    ensures r.1.Failure? ==> r.0 == db
    ensures r.1.Success? ==> r.0.products == Drained(db.products, items)
    ensures r.1.Success? ==> r.0.sales == db.sales + [Persisted(r.1.value, today)]
    ensures r.1.Success? ==> r.1.value.id == freshId
    ensures r.1.Success? ==> |r.1.value.details| == |items|
    ensures r.1.Success? ==> forall i :: 0 <= i < |items| ==>
      DetailFor(db.products, items[i], freshId, r.1.value.details[i])
    ensures r.1.Success? ==> r.1.value.totalAmount == SumSubtotals(r.1.value.details)
  {
    match CreateTransaction(db.products, items, freshId)
    case Failure(e) => (db, Failure(e))
    case Success((table, t)) => (Db(table, db.sales + [Persisted(t, today)]), Success(t))
  }

  /** A committed checkout shows up in the same day's report: the revenue
      grows by its total and the count by one. */
  lemma CheckoutInTodaysReport(db: Db, items: seq<CheckoutItem>, freshId: int, today: int)
    requires Checkout(db, items, freshId, today).1.Success?
    ensures var (db', r) := Checkout(db, items, freshId, today);
      && GetReport(db'.sales, db'.products, None, None, today)[0].totalRevenue
         == GetReport(db.sales, db.products, None, None, today)[0].totalRevenue + r.value.totalAmount
      && GetReport(db'.sales, db'.products, None, None, today)[0].totalTransaksi
         == GetReport(db.sales, db.products, None, None, today)[0].totalTransaksi + 1
  {
    var (db', r) := Checkout(db, items, freshId, today);
    RecordedSaleCounts(db.sales, Persisted(r.value, today), Today, today);
  }

  /** Handing out an id that is not in use keeps the transaction ids unique. */
  lemma CheckoutKeepsIdsUnique(db: Db, items: seq<CheckoutItem>, freshId: int, today: int)
    requires UniqueIds(db.sales)
    requires forall i :: 0 <= i < |db.sales| ==> db.sales[i].id != freshId
    ensures UniqueIds(Checkout(db, items, freshId, today).0.sales)
  {
  }

  /** Whole-system replay of three checkouts on the sample table: the first
      fails on the sold-out product and commits nothing, the second buys the
      whole stock of product 1 for 200, the third finds product 1 sold out. */
  lemma SampleSession(sales: seq<SaleRecord>, today: int)
    ensures var db0 := Db(SampleTable(), sales);
      var (db1, r1) := Checkout(db0, [CheckoutItem(1, 1), CheckoutItem(2, 1)], 10, today);
      var (db2, r2) := Checkout(db1, [CheckoutItem(1, 2)], 10, today);
      var (db3, r3) := Checkout(db2, [CheckoutItem(1, 1)], 11, today);
      && r1 == Failure(SoldOut(2)) && db1 == db0
      && r2.Success? && r2.value.totalAmount == 200 && db2.products[1].stock == 0
      && r3 == Failure(SoldOut(1)) && db3 == db2
  {
    SoldOutLaterInCart();
    var items := [CheckoutItem(1, 2)];
    assert items[..0] == [];
    assert ItemAccepted(SampleTable(), items, 0);
    var t := CreateTransaction(SampleTable(), items, 10).value.1;
    assert t.details[0].subtotal == 200;
    assert t.details[1..] == [];
    var db2 := Checkout(Db(SampleTable(), sales), items, 10, today).0;
    var items3 := [CheckoutItem(1, 1)];
    assert items3[..0] == [];
    assert FirstRejected(db2.products, items3, 0);
  }
}
