/** Record shapes of the point-of-sale backend (the `models` package). */
module Models {

  /** One row of the `products` table as the checkout reads it. */
  datatype Product = Product(name: string, price: int, stock: int)

  /** The `products` table, keyed by product id. */
  type Catalog = map<int, Product>

  /** One requested line of a cart. Nothing constrains the quantity. */
  datatype CheckoutItem = CheckoutItem(productId: int, quantity: int)

  /** A detail line of a transaction as returned to the caller. */
  datatype TransactionDetail = TransactionDetail(
    transactionId: int,
    productId: int,
    productName: string,
    quantity: int,
    subtotal: int)

  /** A transaction header together with its detail lines. */
  datatype Transaction = Transaction(id: int, totalAmount: int, details: seq<TransactionDetail>)

  /** A row of `transaction_details` as persisted: the product name is not stored. */
  datatype StoredDetail = StoredDetail(productId: int, quantity: int, subtotal: int)

  /** A persisted transaction: its serial id, the day it was created on
      (a day number), its total and its stored detail rows. */
  datatype SaleRecord = SaleRecord(id: int, day: int, totalAmount: int, details: seq<StoredDetail>)

  /** The `produk_terlaris` part of a report. */
  datatype TopProduct = TopProduct(nama: string, qtyTerjual: int)

  /** A sales report; `totalRevenue` is an integer sum of integer totals. */
  datatype Report = Report(totalRevenue: int, totalTransaksi: int, produkTerlaris: TopProduct)
}
