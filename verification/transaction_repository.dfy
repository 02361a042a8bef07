/** Checkout: `TransactionRepository.CreateTransaction`.

    The cart is walked in input order inside one database transaction, so each
    lookup sees the stock left by the earlier items of the same cart. The only
    stock check is `stock == 0`; a quantity larger than the stock is accepted
    and drives the stock negative. Any error rolls the whole unit back, which
    in this functional model means the caller keeps its original table. */
module TransactionRepository {
  import opened Wrappers
  import opened Models

  /** The two ways checkout rejects a cart. */
  datatype CheckoutError = ProductNotFound(productId: int) | SoldOut(productId: int)

  /** State of the walk over the cart: the table after the decrements so far,
      the detail lines built so far (not yet stamped with a transaction id),
      and the running total. */
  datatype Walk = Walk(table: Catalog, details: seq<TransactionDetail>, total: int)

  /** Sum of the subtotals of a sequence of detail lines. */
  function SumSubtotals(details: seq<TransactionDetail>): int
  {
    if |details| == 0 then 0 else details[0].subtotal + SumSubtotals(details[1..])
  }

  /** Total quantity that `items` request of product `pid`. */
  function QtyFor(items: seq<CheckoutItem>, pid: int): int
  {
    if |items| == 0 then 0
    else (if items[0].productId == pid then items[0].quantity else 0) + QtyFor(items[1..], pid)
  }

  /** The stock that item `i` finds when it is looked up: the stock in the
      table minus what the earlier items of the same cart took. */
  function StockSeen(table: Catalog, items: seq<CheckoutItem>, i: nat): int
    requires i < |items| && items[i].productId in table
  {
    table[items[i].productId].stock - QtyFor(items[..i], items[i].productId)
  }

  /** Item `i` passes both checks: its product exists and is not sold out. */
  predicate ItemAccepted(table: Catalog, items: seq<CheckoutItem>, i: nat)
    requires i < |items|
  {
    items[i].productId in table && StockSeen(table, items, i) != 0
  }

  /** Every item of the cart passes both checks. */
  predicate CartAccepted(table: Catalog, items: seq<CheckoutItem>)
  {
    forall i :: 0 <= i < |items| ==> ItemAccepted(table, items, i)
  }

  /** Item `i` is the first item of the cart that fails a check. */
  predicate FirstRejected(table: Catalog, items: seq<CheckoutItem>, i: nat)
  {
    && i < |items|
    && !ItemAccepted(table, items, i)
    && forall j :: 0 <= j < i ==> ItemAccepted(table, items, j)
  }

  /** The error reported for a failing item. */
  function RejectionOf(table: Catalog, item: CheckoutItem): CheckoutError
  {
    if item.productId !in table then ProductNotFound(item.productId) else SoldOut(item.productId)
  }

  /** `d` is the detail line for `item`, carrying the name and the price read
      from `table` and the transaction id `txId`. */
  predicate DetailFor(table: Catalog, item: CheckoutItem, txId: int, d: TransactionDetail)
  {
    && item.productId in table
    && d == TransactionDetail(txId, item.productId, table[item.productId].name,
                              item.quantity, item.quantity * table[item.productId].price)
  }

  /** Reference definition of the committed table: every product keeps its
      name and price, and its stock drops by the total quantity the cart
      requests of it. */
  function Drained(table: Catalog, items: seq<CheckoutItem>): Catalog
  {
    map pid | pid in table :: table[pid].(stock := table[pid].stock - QtyFor(items, pid))
  }

  /** The `UPDATE products SET stock = stock - quantity` of one item. */
  function Decrement(table: Catalog, item: CheckoutItem): (t: Catalog)
    requires item.productId in table
    ensures t.Keys == table.Keys
  {
    var p := table[item.productId];
    table[item.productId := p.(stock := p.stock - item.quantity)]
  }

  /** Decrementing for the head item, then draining the rest of the cart,
      drains the whole cart. */
  lemma DrainStep(table: Catalog, items: seq<CheckoutItem>)
    requires |items| > 0 && items[0].productId in table
    ensures Drained(Decrement(table, items[0]), items[1..]) == Drained(table, items)
  {
    var t' := Decrement(table, items[0]);
    forall pid | pid in table
      ensures Drained(t', items[1..])[pid] == Drained(table, items)[pid]
    {
      assert QtyFor(items, pid)
          == (if items[0].productId == pid then items[0].quantity else 0) + QtyFor(items[1..], pid);
    }
  }

  /** The loop over the cart, in input order. On success the details are one
      per item, in cart order, with the name and price read at lookup; the
      total is the sum of the subtotals; and the table is drained by exactly
      what the cart requests. */
  function ProcessItems(table: Catalog, items: seq<CheckoutItem>): (r: Result<Walk, CheckoutError>)
    ensures r.Success? ==> |r.value.details| == |items|
    ensures r.Success? ==>
      forall i :: 0 <= i < |items| ==> DetailFor(table, items[i], 0, r.value.details[i])
    ensures r.Success? ==> r.value.total == SumSubtotals(r.value.details)
    ensures r.Success? ==> r.value.table == Drained(table, items)
    decreases |items|
  {
    if |items| == 0 then
      assert Drained(table, items) == table;
      Success(Walk(table, [], 0))
    else
      var item := items[0];
      if item.productId !in table then
        Failure(ProductNotFound(item.productId))
      else
        var p := table[item.productId];
        var subtotal := item.quantity * p.price;
        if p.stock == 0 then
          Failure(SoldOut(item.productId))
        else
          var rest :- ProcessItems(Decrement(table, item), items[1..]);
          DrainStep(table, items);
          var d := TransactionDetail(0, item.productId, p.name, item.quantity, subtotal);
          assert forall i :: 1 <= i < |items| ==> items[1..][i - 1] == items[i];
          Success(Walk(rest.table, [d] + rest.details, subtotal + rest.total))
  }

  /** Item `i > 0` sees the same stock, and fails the same way, whether the
      whole cart is walked from `table` or the tail is walked from the table
      the head item left behind. */
  lemma ShiftStep(table: Catalog, items: seq<CheckoutItem>, i: nat)
    requires 0 < i < |items| && items[0].productId in table
    ensures ItemAccepted(table, items, i) <==> ItemAccepted(Decrement(table, items[0]), items[1..], i - 1)
    ensures RejectionOf(table, items[i]) == RejectionOf(Decrement(table, items[0]), items[1..][i - 1])
  {
    assert items[1..][i - 1] == items[i];
    var pid := items[i].productId;
    if pid in table {
      assert items[..i][1..] == items[1..][..i - 1];
      assert QtyFor(items[..i], pid)
          == (if items[0].productId == pid then items[0].quantity else 0) + QtyFor(items[1..][..i - 1], pid);
    }
  }

  /** The walk succeeds exactly when every item passes its checks against
      the stock it sees, and otherwise fails with the error of the first
      item that does not. */
  lemma {:induction false} OutcomeOfCart(table: Catalog, items: seq<CheckoutItem>)
    ensures ProcessItems(table, items).Success? <==> CartAccepted(table, items)
    ensures forall i: nat :: FirstRejected(table, items, i) ==>
      ProcessItems(table, items) == Failure(RejectionOf(table, items[i]))
    decreases |items|
  {
    if |items| == 0 {
      return;
    }
    var item := items[0];
    assert items[..0] == [];
    if item.productId !in table || table[item.productId].stock == 0 {
      assert !ItemAccepted(table, items, 0);
      forall i: nat | FirstRejected(table, items, i)
        ensures ProcessItems(table, items) == Failure(RejectionOf(table, items[i]))
      {
        assert i == 0;
      }
      return;
    }
    var t' := Decrement(table, item);
    OutcomeOfCart(t', items[1..]);
    assert ItemAccepted(table, items, 0);
    if CartAccepted(table, items) {
      forall k | 0 <= k < |items| - 1
        ensures ItemAccepted(t', items[1..], k)
      {
        ShiftStep(table, items, k + 1);
      }
    } else {
      var i :| 0 <= i < |items| && !ItemAccepted(table, items, i);
      ShiftStep(table, items, i);
      assert !ItemAccepted(t', items[1..], i - 1);
    }
    forall i: nat | FirstRejected(table, items, i)
      ensures ProcessItems(table, items) == Failure(RejectionOf(table, items[i]))
    {
      ShiftStep(table, items, i);
      forall j | 0 <= j < i - 1
        ensures ItemAccepted(t', items[1..], j)
      {
        ShiftStep(table, items, j + 1);
      }
      assert FirstRejected(t', items[1..], i - 1);
    }
  }

  /** Stamps every detail line with the transaction id, as the insert loop does. */
  function Stamp(details: seq<TransactionDetail>, txId: int): (r: seq<TransactionDetail>)
    ensures |r| == |details|
    ensures forall i :: 0 <= i < |details| ==> r[i] == details[i].(transactionId := txId)
    ensures SumSubtotals(r) == SumSubtotals(details)
  {
    if |details| == 0 then []
    else [details[0].(transactionId := txId)] + Stamp(details[1..], txId)
  }

  /** `CreateTransaction`: walk the cart, insert the header with the id the
      store hands out (`txId`), stamp the details with it, commit.
      On success the new table is returned with the transaction; on failure
      nothing is returned and the caller's table stays as it was. */
  function CreateTransaction(table: Catalog, items: seq<CheckoutItem>, txId: int)
    : (r: Result<(Catalog, Transaction), CheckoutError>)
    ensures r.Success? <==> CartAccepted(table, items)
    ensures forall i: nat :: FirstRejected(table, items, i) ==> r == Failure(RejectionOf(table, items[i]))
    ensures r.Success? ==> r.value.0 == Drained(table, items)
    ensures r.Success? ==> r.value.1.id == txId
    ensures r.Success? ==> |r.value.1.details| == |items|
    ensures r.Success? ==>
      forall i :: 0 <= i < |items| ==> DetailFor(table, items[i], txId, r.value.1.details[i])
    ensures r.Success? ==> r.value.1.totalAmount == SumSubtotals(r.value.1.details)
  {
    OutcomeOfCart(table, items);
    var walk :- ProcessItems(table, items);
    Success((walk.table, Transaction(txId, walk.total, Stamp(walk.details, txId))))
  }

  /** A cart is rejected whenever some item names a product that does not
      exist, however far into the cart it sits. */
  lemma UnknownProductRejected(table: Catalog, items: seq<CheckoutItem>, i: nat, txId: int)
    requires i < |items| && items[i].productId !in table
    ensures CreateTransaction(table, items, txId).Failure?
  {
    assert !ItemAccepted(table, items, i);
  }

  /** A product no item asks for keeps its row in the committed table. */
  lemma {:induction false} UntouchedProductUnchanged(table: Catalog, items: seq<CheckoutItem>, pid: int)
    requires pid in table
    requires forall i :: 0 <= i < |items| ==> items[i].productId != pid
    ensures pid in Drained(table, items) && Drained(table, items)[pid] == table[pid]
  {
    QtyForAbsent(items, pid);
  }

  /** A product no item asks for is requested in quantity zero. */
  lemma {:induction false} QtyForAbsent(items: seq<CheckoutItem>, pid: int)
    requires forall i :: 0 <= i < |items| ==> items[i].productId != pid
    ensures QtyFor(items, pid) == 0
    decreases |items|
  {
    if |items| > 0 {
      assert forall i :: 0 <= i < |items| - 1 ==> items[1..][i] == items[i + 1];
      QtyForAbsent(items[1..], pid);
    }
  }

  /** The empty cart is accepted: total 0, no details, table unchanged. */
  lemma EmptyCartSucceeds(table: Catalog, txId: int)
    ensures CreateTransaction(table, [], txId) == Success((table, Transaction(txId, 0, [])))
  {
    assert Drained(table, []) == table;
  }

  /** Two products: id 1 priced 100 with stock 2, id 2 priced 50 and sold out. */
  function SampleTable(): Catalog
  {
    map[1 := Product("Kopi", 100, 2), 2 := Product("Teh", 50, 0)]
  }

  /** A sold-out product later in the cart rejects the cart with `SoldOut`,
      although an earlier item was already processed. */
  lemma SoldOutLaterInCart()
    ensures CreateTransaction(SampleTable(), [CheckoutItem(1, 1), CheckoutItem(2, 1)], 7)
         == Failure(SoldOut(2))
  {
    var items := [CheckoutItem(1, 1), CheckoutItem(2, 1)];
    assert ItemAccepted(SampleTable(), items, 0) by { assert items[..0] == []; }
    assert items[..1] == [CheckoutItem(1, 1)];
    assert FirstRejected(SampleTable(), items, 1);
  }

  /** An earlier item of the same cart can drain a product to zero, after
      which a later item for that product is rejected. */
  lemma DrainedWithinCart()
    ensures CreateTransaction(SampleTable(), [CheckoutItem(1, 2), CheckoutItem(1, 1)], 7)
         == Failure(SoldOut(1))
  {
    var items := [CheckoutItem(1, 2), CheckoutItem(1, 1)];
    assert ItemAccepted(SampleTable(), items, 0) by { assert items[..0] == []; }
    assert items[..1] == [CheckoutItem(1, 2)];
    assert FirstRejected(SampleTable(), items, 1);
  }

  /** Only `stock == 0` is rejected: asking for 5 of a product with stock 2
      is accepted and leaves the stock at -3. */
  lemma OversellAccepted()
    ensures CreateTransaction(SampleTable(), [CheckoutItem(1, 5)], 7).Success?
    ensures CreateTransaction(SampleTable(), [CheckoutItem(1, 5)], 7).value.0[1].stock == -3
  {
    var items := [CheckoutItem(1, 5)];
    assert items[..0] == [];
    assert ItemAccepted(SampleTable(), items, 0);
  }
}
