/** A finished transaction replayed on a later state: if the rows it wrote are unchanged there, running the
    task again on that state gives the state with the transaction's rows merged in. */
module Rebase {
  import opened Wrappers
  import opened Tables
  import opened WarehouseItems
  import opened ChangeEffect
  import opened Tasks

  /** The base table with the given rows taken from the transaction's view. */
  function MergeRows<V>(base: map<Key, V>, mine: map<Key, V>, rows: set<Key>): map<Key, V> {
    map key | key in base.Keys + mine.Keys && (if key in rows then key in mine else key in base)
      :: if key in rows then mine[key] else base[key]
  }

  /** The operations logged since `start`. */
  function LoggedSince(start: seq<Operation>, mine: seq<Operation>): seq<Operation> {
    if |start| <= |mine| then mine[|start|..] else []
  }

  /** What a commit publishes: the rows inserted since `start`, and the stock rows written. */
  function Merge(base: Db, start: Db, mine: Db, rows: set<Key>): Db {
    Db(base.warehouses,
       base.products + (mine.products - start.products),
       base.invoices + (mine.invoices - start.invoices.Keys),
       base.items + (mine.items - start.items.Keys),
       base.operations + LoggedSince(start.operations, mine.operations),
       MergeRows(base.stock, mine.stock, rows),
       mine.dirty)
  }

  /** Every stock row a task may read or write. */
  function Footprint(task: Task, ids: Ids): set<Key>
    requires Fits(task, ids)
  {
    var invoice := InvoiceOf(task);
    (if invoice.from.Some? then Keys(invoice.from.value, Listed(task, ids)) else {})
    + (if invoice.to.Some? then Keys(invoice.to.value, Listed(task, ids)) else {})
  }

  /** The generated ids name no row yet. */
  predicate Unused(db: Db, ids: Ids) {
    && ids.invoice !in db.invoices
    && (forall key | key in db.items :: key.invoice != ids.invoice)
    && (forall id | id in ids.products :: id !in db.products)
  }

  predicate SameRows(one: Db, two: Db, rows: set<Key>) {
    forall key | key in rows :: Lookup(one.stock, key) == Lookup(two.stock, key)
  }

  /** `base` is a later state than the snapshot `start`, as far as the transaction can tell. */
  predicate Later(start: Db, base: Db, ids: Ids) {
    && start.warehouses <= base.warehouses && start.products <= base.products
    && Unused(start, ids) && Unused(base, ids)
  }

  /** A view the running transaction may have reached from its snapshot. */
  ghost predicate Reached(start: Db, mine: Db, ids: Ids) {
    && mine.warehouses == start.warehouses
    && start.products <= mine.products <= start.products + (set id | id in ids.products)
    && start.operations <= mine.operations
    && (forall id :: Lookup(mine.invoices, id) == Lookup(start.invoices, id) || id == ids.invoice)
    && (forall key :: Lookup(mine.items, key) == Lookup(start.items, key) || key.invoice == ids.invoice)
  }

  lemma MergeLookup<V>(base: map<Key, V>, mine: map<Key, V>, rows: set<Key>, key: Key)
    ensures Lookup(MergeRows(base, mine, rows), key) == if key in rows then Lookup(mine, key) else Lookup(base, key)
  {}

  // ---------- Each statement gives the same result on the merged view ----------

  lemma ChangeRebases(base: Db, start: Db, mine: Db, ids: Ids, rows: set<Key>,
                      products: seq<Item>, warehouse: int, reducing: bool)
    requires Later(start, base, ids) && Reached(start, mine, ids)
    requires Distinct(products) && Keys(warehouse, products) <= rows
    requires Change(mine, products, warehouse, reducing).Success?
    ensures var changed := Change(mine, products, warehouse, reducing).value;
            && Reached(start, changed, ids)
            && Change(Merge(base, start, mine, rows), products, warehouse, reducing)
               == Success(Merge(base, start, changed, rows))
            && changed.dirty == mine.dirty + Keys(warehouse, products)
  {
    var merged := Merge(base, start, mine, rows);
    var changed := Change(mine, products, warehouse, reducing).value;
    ChangeIsPointwise(mine, products, warehouse, reducing);
    ChangeIsPointwise(merged, products, warehouse, reducing);
    forall row | row in products ensures Changeable(merged, row, warehouse, reducing) {
      RowRebases(base, start, mine, ids, rows, products, row, warehouse, reducing);
    }
    RewriteRebases(base, start, mine, changed, Change(merged, products, warehouse, reducing).value,
                   ids, rows, products, warehouse, reducing);
  }

  lemma RowRebases(base: Db, start: Db, mine: Db, ids: Ids, rows: set<Key>,
                   products: seq<Item>, row: Item, warehouse: int, reducing: bool)
    requires Later(start, base, ids) && Reached(start, mine, ids)
    requires row in products && Keys(warehouse, products) <= rows
    ensures var merged := Merge(base, start, mine, rows);
            && (Changeable(mine, row, warehouse, reducing) ==> Changeable(merged, row, warehouse, reducing))
            && NewRow(merged.stock, row, warehouse, reducing) == NewRow(mine.stock, row, warehouse, reducing)
  {
    var key := Key(warehouse, row.product);
    assert key in Keys(warehouse, products);
    MergeLookup(base.stock, mine.stock, rows, key);
    assert mine.products <= base.products + (mine.products - start.products);
  }

  lemma RewriteRebases(base: Db, start: Db, mine: Db, changed: Db, both: Db, ids: Ids, rows: set<Key>,
                       products: seq<Item>, warehouse: int, reducing: bool)
    requires Later(start, base, ids) && Reached(start, mine, ids)
    requires Keys(warehouse, products) <= rows
    requires Changed(mine, changed, products, warehouse, reducing)
    requires Changed(Merge(base, start, mine, rows), both, products, warehouse, reducing)
    ensures both == Merge(base, start, changed, rows)
  {
    forall key ensures Lookup(both.stock, key) == Lookup(MergeRows(base.stock, changed.stock, rows), key) {
      MergeLookup(base.stock, mine.stock, rows, key);
      MergeLookup(base.stock, changed.stock, rows, key);
      if key in Keys(warehouse, products) {
        var row :| row in products && key == Key(warehouse, row.product);
        RowRebases(base, start, mine, ids, rows, products, row, warehouse, reducing);
      }
    }
    EqualByLookup(both.stock, MergeRows(base.stock, changed.stock, rows));
  }

  lemma InsertProductsRebases(base: Db, start: Db, mine: Db, ids: Ids, rows: set<Key>)
    requires Later(start, base, ids) && Reached(start, mine, ids)
    requires InsertProducts(mine, ids.products).Success?
    ensures var extended := InsertProducts(mine, ids.products).value;
            && Reached(start, extended, ids)
            && InsertProducts(Merge(base, start, mine, rows), ids.products)
               == Success(Merge(base, start, extended, rows))
            && extended.dirty == mine.dirty
  {
    var extended := InsertProducts(mine, ids.products).value;
    var merged := Merge(base, start, mine, rows);
    assert forall id | id in ids.products :: id !in merged.products;
    assert merged.products + (set id | id in ids.products) == Merge(base, start, extended, rows).products;
  }

  lemma {:induction false} PutItemsEffect(items: map<ItemKey, int>, id: int, rows: seq<Item>, key: ItemKey)
    requires Distinct(rows)
    ensures var put := PutItems(items, id, rows);
            && (forall row | row in rows :: Lookup(put, ItemKey(id, row.product)) == Some(row.count))
            && (key.invoice != id || (forall row | row in rows :: row.product != key.product)
                ==> Lookup(put, key) == Lookup(items, key))
    decreases |rows|
  {
    if rows != [] {
      var next := items[ItemKey(id, rows[0].product) := rows[0].count];
      HeadApart(rows, 0);
      PutItemsEffect(next, id, rows[1..], key);
      PutItemsEffect(next, id, rows[1..], ItemKey(id, rows[0].product));
      assert forall row | row in rows[1..] :: Key(0, row.product) in Keys(0, rows[1..]);
    }
  }

  lemma InsertInvoiceRebases(base: Db, start: Db, mine: Db, ids: Ids, rows: set<Key>, invoice: Invoice)
    requires Later(start, base, ids) && Reached(start, mine, ids)
    requires InsertInvoice(mine, ids.invoice, invoice).Success?
    ensures var one := InsertInvoice(mine, ids.invoice, invoice).value;
            && Reached(start, one, ids)
            && InsertInvoice(Merge(base, start, mine, rows), ids.invoice, invoice) == Success(Merge(base, start, one, rows))
            && one.dirty == mine.dirty
  {
    var one := InsertInvoice(mine, ids.invoice, invoice).value;
    var merged := Merge(base, start, mine, rows);
    assert merged.invoices[ids.invoice := invoice] == Merge(base, start, one, rows).invoices;
  }

  lemma InvoiceRebases(base: Db, start: Db, mine: Db, ids: Ids, rows: set<Key>, invoice: Invoice, products: seq<Item>)
    requires Later(start, base, ids) && Reached(start, mine, ids)
    requires InsertFullInvoice(mine, ids.invoice, invoice, products).Success?
    ensures var invoiced := InsertFullInvoice(mine, ids.invoice, invoice, products).value;
            && Reached(start, invoiced, ids)
            && InsertFullInvoice(Merge(base, start, mine, rows), ids.invoice, invoice, products)
               == Success(Merge(base, start, invoiced, rows))
            && invoiced.dirty == mine.dirty
  {
    var one := InsertInvoice(mine, ids.invoice, invoice).value;
    InsertInvoiceRebases(base, start, mine, ids, rows, invoice);
    InsertItemsRebases(base, start, one, ids, rows, products);
  }

  lemma InsertItemsRebases(base: Db, start: Db, mine: Db, ids: Ids, rows: set<Key>, products: seq<Item>)
    requires Later(start, base, ids) && Reached(start, mine, ids)
    requires InsertItems(mine, ids.invoice, products).Success?
    ensures var itemized := InsertItems(mine, ids.invoice, products).value;
            && Reached(start, itemized, ids)
            && InsertItems(Merge(base, start, mine, rows), ids.invoice, products)
               == Success(Merge(base, start, itemized, rows))
  {
    var id := ids.invoice;
    var itemized := InsertItems(mine, id, products).value;
    var merged := Merge(base, start, mine, rows);
    forall key ensures Lookup(itemized.items, key) == Lookup(start.items, key) || key.invoice == id {
      PutItemsEffect(mine.items, id, products, key);
    }
    assert id in merged.invoices && merged.invoices[id] == mine.invoices[id];
    assert Known(merged, products);
    forall row | row in products ensures ItemKey(id, row.product) !in merged.items {
      assert ItemKey(id, row.product) !in mine.items;
    }
    ItemsMerge(base, start, mine, ids, products);
    assert merged.operations + FireAll(id, mine.invoices[id], products)
           == base.operations + itemized.operations[|start.operations|..];
  }

  lemma ItemsMerge(base: Db, start: Db, mine: Db, ids: Ids, products: seq<Item>)
    requires Unused(start, ids) && Distinct(products)
    ensures PutItems(base.items + (mine.items - start.items.Keys), ids.invoice, products)
            == base.items + (PutItems(mine.items, ids.invoice, products) - start.items.Keys)
  {
    var merged := base.items + (mine.items - start.items.Keys);
    var put := PutItems(mine.items, ids.invoice, products);
    forall key
      ensures Lookup(PutItems(merged, ids.invoice, products), key) == Lookup(base.items + (put - start.items.Keys), key)
    {
      PutItemsEffect(mine.items, ids.invoice, products, key);
      PutItemsEffect(merged, ids.invoice, products, key);
      if key.invoice == ids.invoice && exists row :: row in products && row.product == key.product {
        var row :| row in products && row.product == key.product;
        assert key == ItemKey(ids.invoice, row.product);
      }
    }
    EqualByLookup(PutItems(merged, ids.invoice, products), base.items + (put - start.items.Keys));
  }

  lemma InsertStockRebases(base: Db, start: Db, mine: Db, ids: Ids, rows: set<Key>, products: seq<Item>, warehouse: int)
    requires Later(start, base, ids) && Reached(start, mine, ids)
    requires Keys(warehouse, products) <= rows && InsertStock(mine, warehouse, products).Success?
    ensures var inserted := InsertStock(mine, warehouse, products).value;
            && InsertStock(Merge(base, start, mine, rows), warehouse, products)
               == Success(Merge(base, start, inserted, rows))
            && Reached(start, inserted, ids)
            && inserted.dirty == mine.dirty + Keys(warehouse, products)
  {
    var merged := Merge(base, start, mine, rows);
    var inserted := InsertStock(mine, warehouse, products).value;
    PutStockEffect(mine.stock, warehouse, products);
    PutStockEffect(merged.stock, warehouse, products);
    forall row | row in products ensures Key(warehouse, row.product) !in merged.stock {
      assert Key(warehouse, row.product) in Keys(warehouse, products);
    }
    forall key
      ensures Lookup(PutStock(merged.stock, warehouse, products), key)
              == Lookup(MergeRows(base.stock, inserted.stock, rows), key)
    {
      MergeLookup(base.stock, mine.stock, rows, key);
      MergeLookup(base.stock, inserted.stock, rows, key);
      if key in Keys(warehouse, products) {
        var row :| row in products && key == Key(warehouse, row.product);
      }
    }
    EqualByLookup(PutStock(merged.stock, warehouse, products), MergeRows(base.stock, inserted.stock, rows));
  }

  // ---------- The whole task ----------

  lemma NothingMerged(base: Db, start: Db, rows: set<Key>)
    requires SameRows(start, base, rows) && start.dirty == base.dirty
    ensures Merge(base, start, start, rows) == base
  {
    forall key ensures Lookup(MergeRows(base.stock, start.stock, rows), key) == Lookup(base.stock, key) {
      MergeLookup(base.stock, start.stock, rows, key);
    }
    EqualByLookup(MergeRows(base.stock, start.stock, rows), base.stock);
  }

  /** The invoice keys make the products of every successful task distinct. */
  lemma ListedDistinct(db: Db, task: Task, ids: Ids)
    requires Fits(task, ids) && Run(db, task, ids).Success?
    ensures Distinct(Listed(task, ids)) && AllInRange(Listed(task, ids))
    ensures task.Create? ==> Distinct(task.existing)
  {
    hide Change, InsertProducts, InsertStock, Known, AllInRange;
    if task.Create? {
      assert forall i | 0 <= i < |task.existing| :: Listed(task, ids)[i] == task.existing[i];
    }
  }

  lemma CreateKeys(task: Task, ids: Ids)
    requires Fits(task, ids) && task.Create?
    ensures Footprint(task, ids) == Keys(task.to, task.existing) + Keys(task.to, NewRows(ids.products, task.added))
  {
    var listed := Listed(task, ids);
    forall row ensures row in listed <==> row in task.existing || row in NewRows(ids.products, task.added) {}
  }

  /** The task's outcome on `base` is its outcome on `start`, merged in. */
  ghost predicate Rebases(start: Db, base: Db, task: Task, ids: Ids)
    requires Fits(task, ids) && Run(start, task, ids).Success?
  {
    var final := Run(start, task, ids).value;
    && final.dirty == Footprint(task, ids)
    && Reached(start, final, ids)
    && Run(base, task, ids) == Success(Merge(base, start, final, final.dirty))
  }

  lemma CreateRebases(start: Db, base: Db, task: Task, ids: Ids)
    requires Fits(task, ids) && task.Create? && Run(start, task, ids).Success?
    requires Later(start, base, ids) && start.dirty == {} && base.dirty == {}
    requires SameRows(start, base, Footprint(task, ids))
    ensures Rebases(start, base, task, ids)
  {
    hide Change, InsertFullInvoice, InsertStock, InsertProducts, Merge, SameRows, Listed;
    var rows := Footprint(task, ids);
    NothingMerged(base, start, rows);
    ListedDistinct(start, task, ids);
    var Create(to, existing, added) := task;
    CreateKeys(task, ids);
    var expanded := Change(start, existing, to, false).value;
    ChangeRebases(base, start, start, ids, rows, existing, to, false);
    var extended := InsertProducts(expanded, ids.products).value;
    InsertProductsRebases(base, start, expanded, ids, rows);
    var invoiced := InsertFullInvoice(extended, ids.invoice, InvoiceOf(task), Listed(task, ids)).value;
    InvoiceRebases(base, start, extended, ids, rows, InvoiceOf(task), Listed(task, ids));
    InsertStockRebases(base, start, invoiced, ids, rows, NewRows(ids.products, added), to);
  }

  lemma MoveRebases(start: Db, base: Db, task: Task, ids: Ids)
    requires Fits(task, ids) && task.Move? && Run(start, task, ids).Success?
    requires Later(start, base, ids) && start.dirty == {} && base.dirty == {}
    requires SameRows(start, base, Footprint(task, ids))
    ensures Rebases(start, base, task, ids)
  {
    hide Change, InsertFullInvoice, InsertStock, InsertProducts, Merge, SameRows;
    var rows := Footprint(task, ids);
    NothingMerged(base, start, rows);
    ListedDistinct(start, task, ids);
    var Move(from, to, products) := task;
    var invoiced := InsertFullInvoice(start, ids.invoice, InvoiceOf(task), products).value;
    InvoiceRebases(base, start, start, ids, rows, InvoiceOf(task), products);
    var reduced := Change(invoiced, products, from, true).value;
    ChangeRebases(base, start, invoiced, ids, rows, products, from, true);
    ChangeRebases(base, start, reduced, ids, rows, products, to, false);
  }

  lemma RemoveRebases(start: Db, base: Db, task: Task, ids: Ids)
    requires Fits(task, ids) && task.Remove? && Run(start, task, ids).Success?
    requires Later(start, base, ids) && start.dirty == {} && base.dirty == {}
    requires SameRows(start, base, Footprint(task, ids))
    ensures Rebases(start, base, task, ids)
  {
    hide Change, InsertFullInvoice, InsertStock, InsertProducts, Merge, SameRows;
    var rows := Footprint(task, ids);
    NothingMerged(base, start, rows);
    ListedDistinct(start, task, ids);
    var Remove(from, products) := task;
    var invoiced := InsertFullInvoice(start, ids.invoice, InvoiceOf(task), products).value;
    InvoiceRebases(base, start, start, ids, rows, InvoiceOf(task), products);
    ChangeRebases(base, start, invoiced, ids, rows, products, from, true);
  }

  /** Every stock row a successful task reads it also writes, so the rows it wrote are all that its outcome depends
      on: replayed on any later state with those rows unchanged, the task succeeds and yields the merged state. */
  lemma RunRebases(start: Db, base: Db, task: Task, ids: Ids)
    requires Fits(task, ids) && Run(start, task, ids).Success?
    requires Later(start, base, ids) && start.dirty == {} && base.dirty == {}
    requires SameRows(start, base, Footprint(task, ids))
    ensures Rebases(start, base, task, ids)
  {
    match task
    case Create(_, _, _) => CreateRebases(start, base, task, ids);
    case Move(_, _, _) => MoveRebases(start, base, task, ids);
    case Remove(_, _) => RemoveRebases(start, base, task, ids);
  }
}
