/** The tables the stock tasks use, and what each of their statements does to the view of one
    transaction: keys, column ranges and the two triggers that fill the operation log. */
module Tables {
  import opened Wrappers

  /** An integrity violation, or any other database or runtime error. */
  datatype Fault = Violation | Error

  datatype Key = Key(warehouse: int, product: int)

  datatype ItemKey = ItemKey(invoice: int, product: int)

  datatype Item = Item(product: int, count: int)

  datatype Invoice = Invoice(from: Option<int>, to: Option<int>)

  datatype Operation = Operation(invoice: int, product: int, warehouse: int, count: int)

  /** `dirty` holds the stock rows the running transaction has written. */
  datatype Db = Db(
    warehouses: set<int>,
    products: set<int>,
    invoices: map<int, Invoice>,
    items: map<ItemKey, int>,
    operations: seq<Operation>,
    stock: map<Key, int>,
    dirty: set<Key>)

  type Outcome = Result<Db, Fault>

  const EMPTY := Db({}, {}, map[], map[], [], map[], {})

  /** The range of an `integer` column. */
  predicate InRange(count: int) {
    -0x8000_0000 <= count < 0x8000_0000
  }

  predicate AllInRange(rows: seq<Item>) {
    forall row | row in rows :: InRange(row.count)
  }

  predicate Distinct(rows: seq<Item>) {
    forall i, j | 0 <= i < j < |rows| :: rows[i].product != rows[j].product
  }

  predicate Known(db: Db, rows: seq<Item>) {
    forall row | row in rows :: row.product in db.products
  }

  function Keys(warehouse: int, rows: seq<Item>): set<Key> {
    set row | row in rows :: Key(warehouse, row.product)
  }

  /** Stock of a product in a warehouse; no row means none. */
  function StockOf(stock: map<Key, int>, warehouse: int, product: int): int {
    if Key(warehouse, product) in stock then stock[Key(warehouse, product)] else 0
  }

  // ---------- Invoice, Product, Invoice_Item ----------

  function InsertInvoice(db: Db, id: int, invoice: Invoice): Outcome {
    if invoice.from.None? && invoice.to.None? then
      Failure(Error)
    else if id in db.invoices
         || (invoice.from.Some? && invoice.from.value !in db.warehouses)
         || (invoice.to.Some? && invoice.to.value !in db.warehouses) then
      Failure(Violation)
    else
      Success(db.(invoices := db.invoices[id := invoice]))
  }

  function InsertProducts(db: Db, ids: seq<int>): Outcome {
    if ids == [] then
      Failure(Error)
    else if (exists i, j :: 0 <= i < j < |ids| && ids[i] == ids[j])
         || (exists id :: id in ids && id in db.products) then
      Failure(Violation)
    else
      Success(db.(products := db.products + set id | id in ids))
  }

  /** The rows the two triggers add for one invoice item. */
  function Fire(id: int, invoice: Invoice, row: Item): seq<Operation> {
    (if invoice.from.Some? then [Operation(id, row.product, -invoice.from.value, row.count)] else [])
    + (if invoice.to.Some? then [Operation(id, row.product, invoice.to.value, row.count)] else [])
  }

  function FireAll(id: int, invoice: Invoice, rows: seq<Item>): seq<Operation> {
    if rows == [] then [] else Fire(id, invoice, rows[0]) + FireAll(id, invoice, rows[1..])
  }

  function PutItems(items: map<ItemKey, int>, id: int, rows: seq<Item>): map<ItemKey, int>
    decreases |rows|
  {
    if rows == [] then items else PutItems(items[ItemKey(id, rows[0].product) := rows[0].count], id, rows[1..])
  }

  function InsertItems(db: Db, id: int, rows: seq<Item>): Outcome {
    if rows == [] || !AllInRange(rows) then
      Failure(Error)
    else if id !in db.invoices || !Known(db, rows) || !Distinct(rows)
         || (exists row :: row in rows && ItemKey(id, row.product) in db.items) then
      Failure(Violation)
    else
      Success(db.(items := PutItems(db.items, id, rows),
                  operations := db.operations + FireAll(id, db.invoices[id], rows)))
  }

  // ---------- Warehouse_Item ----------

  function PutStock(stock: map<Key, int>, warehouse: int, rows: seq<Item>): map<Key, int>
    decreases |rows|
  {
    if rows == [] then stock
    else PutStock(stock[Key(warehouse, rows[0].product) := rows[0].count], warehouse, rows[1..])
  }

  function InsertStock(db: Db, warehouse: int, rows: seq<Item>): Outcome {
    if rows == [] || !AllInRange(rows) then
      Failure(Error)
    else if warehouse !in db.warehouses || !Known(db, rows) || !Distinct(rows)
         || (exists row :: row in rows && Key(warehouse, row.product) in db.stock) then
      Failure(Violation)
    else
      Success(db.(stock := PutStock(db.stock, warehouse, rows), dirty := db.dirty + Keys(warehouse, rows)))
  }

  function DeleteStock(db: Db, warehouse: int, rows: seq<Item>): Db {
    var doomed := Keys(warehouse, rows);
    db.(stock := db.stock - doomed, dirty := db.dirty + doomed * db.stock.Keys)
  }

  /** An UPDATE touches nothing when its row is not visible. */
  function UpdateStock(db: Db, warehouse: int, target: Item): Outcome {
    var key := Key(warehouse, target.product);
    if !InRange(target.count) then Failure(Error)
    else if key !in db.stock then Success(db)
    else Success(db.(stock := db.stock[key := target.count], dirty := db.dirty + {key}))
  }

  function UpdateAll(db: Db, warehouse: int, targets: seq<Item>): Outcome
    decreases |targets|
  {
    if targets == [] then Success(db)
    else
      var next :- UpdateStock(db, warehouse, targets[0]);
      UpdateAll(next, warehouse, targets[1..])
  }

  // ---------- The operation log ----------

  /** What one logged operation contributes to a warehouse: plus at the warehouse, minus at its negation. */
  function Signed(operation: Operation, warehouse: int, product: int): int {
    if operation.product != product then 0
    else (if operation.warehouse == warehouse then operation.count else 0)
         - (if operation.warehouse == -warehouse then operation.count else 0)
  }

  function LogTotal(operations: seq<Operation>, warehouse: int, product: int): int {
    if operations == [] then 0
    else Signed(operations[0], warehouse, product) + LogTotal(operations[1..], warehouse, product)
  }

  lemma {:induction false} LogTotalConcat(a: seq<Operation>, b: seq<Operation>, warehouse: int, product: int)
    ensures LogTotal(a + b, warehouse, product) == LogTotal(a, warehouse, product) + LogTotal(b, warehouse, product)
  {
    if a == [] {
      assert a + b == b;
    } else {
      assert (a + b)[1..] == a[1..] + b;
      LogTotalConcat(a[1..], b, warehouse, product);
    }
  }
}
