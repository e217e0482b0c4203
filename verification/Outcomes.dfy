/** When a task succeeds, and which kind of failure it meets when it does not. */
module Outcomes {
  import opened Wrappers
  import opened Tables
  import opened WarehouseItems
  import opened ChangeEffect
  import opened Tasks
  import opened Rebase
  import opened Ledger

  // ---------- ChangeCount ----------

  /** The keys the change of one row needs: the row itself to reduce it, or what it refers to. */
  predicate KeyedRow(db: Db, row: Item, warehouse: int, reducing: bool) {
    Key(warehouse, row.product) in db.stock || (!reducing && warehouse in db.warehouses && row.product in db.products)
  }

  /** The new count fits its column, if there is one. */
  predicate FittingRow(stock: int, row: Item, reducing: bool) {
    if reducing then row.count >= stock || InRange(stock - row.count) else InRange(stock + row.count)
  }

  lemma ChangeableIs(db: Db, row: Item, warehouse: int, reducing: bool)
    ensures Changeable(db, row, warehouse, reducing) <==>
              KeyedRow(db, row, warehouse, reducing)
              && FittingRow(StockOf(db.stock, warehouse, row.product), row, reducing)
  {}

  lemma {:induction false} BatchedAre(stock: map<Key, int>, warehouse: int, reducing: bool, rows: seq<Item>)
    ensures forall row | row in Batch(stock, warehouse, reducing, rows) :: row in rows && Critical(stock, warehouse, reducing, row)
    ensures forall target | target in Targets(stock, warehouse, reducing, rows) ::
              exists row :: TargetFrom(stock, warehouse, reducing, rows, row, target)
  {
    if rows != [] {
      BatchedAre(stock, warehouse, reducing, rows[1..]);
      forall target | target in Targets(stock, warehouse, reducing, rows)
        ensures exists row :: TargetFrom(stock, warehouse, reducing, rows, row, target)
      {
        if target in Targets(stock, warehouse, reducing, rows[1..]) {
          var row :| TargetFrom(stock, warehouse, reducing, rows[1..], row, target);
          assert TargetFrom(stock, warehouse, reducing, rows, row, target);
        } else {
          assert TargetFrom(stock, warehouse, reducing, rows, rows[0], target);
        }
      }
    }
  }

  lemma {:induction false} UpdateFault(db: Db, warehouse: int, targets: seq<Item>)
    ensures var updated := UpdateAll(db, warehouse, targets);
            updated.Failure? ==> updated.error == Error && exists target :: target in targets && !InRange(target.count)
    decreases |targets|
  {
    if targets != [] {
      var next := UpdateStock(db, warehouse, targets[0]);
      if next.Success? {
        UpdateFault(next.value, warehouse, targets[1..]);
      } else {
        assert targets[0] in targets;
      }
    }
  }

  /** ChangeCount, for any list of products, violates integrity only over a missing key or a repeated product, and meets
      another error only over a count that does not fit. */
  lemma ChangeFault(db: Db, rows: seq<Item>, warehouse: int, reducing: bool)
    ensures Change(db, rows, warehouse, reducing) == Failure(Violation) ==>
              (!reducing && !Distinct(rows)) || exists row :: row in rows && !KeyedRow(db, row, warehouse, reducing)
    ensures Change(db, rows, warehouse, reducing) == Failure(Error) ==>
              exists row :: row in rows && !FittingRow(StockOf(db.stock, warehouse, row.product), row, reducing)
  {
    if !(reducing && Missing(db.stock, warehouse, rows)) {
      var batch, targets := Batch(db.stock, warehouse, reducing, rows), Targets(db.stock, warehouse, reducing, rows);
      BatchedAre(db.stock, warehouse, reducing, rows);
      if Distinct(rows) {
        BatchMembers(db.stock, warehouse, reducing, rows);
      }
      var middle := RunBatch(db, warehouse, reducing, batch);
      if middle.Success? {
        UpdateFault(middle.value, warehouse, targets);
        if target :| target in targets && !InRange(target.count) {
          var row :| TargetFrom(db.stock, warehouse, reducing, rows, row, target);
          assert !FittingRow(StockOf(db.stock, warehouse, row.product), row, reducing);
        }
      } else {
        BatchFault(db, warehouse, batch);
      }
    }
  }

  lemma BatchFault(db: Db, warehouse: int, batch: seq<Item>)
    requires forall row | row in batch :: Key(warehouse, row.product) !in db.stock
    ensures InsertStock(db, warehouse, batch) == Failure(Violation) && Distinct(batch) ==>
              exists row :: row in batch && !KeyedRow(db, row, warehouse, false)
    ensures InsertStock(db, warehouse, batch) == Failure(Error) && batch != [] ==>
              exists row :: row in batch && !FittingRow(StockOf(db.stock, warehouse, row.product), row, false)
  {
    if batch != [] {
      assert batch[0] in batch;
      if row :| row in batch && !InRange(row.count) {
        assert !FittingRow(StockOf(db.stock, warehouse, row.product), row, false);
      }
    }
  }

  // ---------- Whole tasks ----------

  /** What the tables demand: a fresh invoice between known warehouses, with known products, each once; new products that
      are new; and a stock row for everything taken. */
  predicate Keyed(db: Db, task: Task, ids: Ids)
    requires Fits(task, ids)
  {
    && ids.invoice !in db.invoices
    && (task.Create? || task.from in db.warehouses) && (task.Remove? || task.to in db.warehouses)
    && Distinct(Listed(task, ids))
    && (forall row | row in Listed(task, ids) ::
          && (row.product in db.products || row.product in ids.products)
          && ItemKey(ids.invoice, row.product) !in db.items
          && (task.Create? || Key(task.from, row.product) in db.stock))
    && (forall id | id in ids.products :: id !in db.products && Key(task.to, id) !in db.stock)
  }

  /** What is left of a product where a Move brings it to, once it is taken. */
  function Left(stock: map<Key, int>, task: Task, row: Item): int
    requires task.Move?
  {
    var there := StockOf(stock, task.to, row.product);
    if task.from != task.to then there else if row.count >= there then 0 else there - row.count
  }

  /** What is asked has the right form: something is listed, and all counts fit, before and after. */
  predicate InForm(db: Db, task: Task, ids: Ids)
    requires Fits(task, ids)
  {
    && Listed(task, ids) != [] && AllInRange(Listed(task, ids))
    && match task
       case Create(to, existing, added) =>
         added != [] && forall row | row in existing :: FittingRow(StockOf(db.stock, to, row.product), row, false)
       case Move(from, _, products) =>
         forall row | row in products ::
           && FittingRow(StockOf(db.stock, from, row.product), row, true)
           && FittingRow(Left(db.stock, task, row), row, false)
       case Remove(from, products) =>
         forall row | row in products :: FittingRow(StockOf(db.stock, from, row.product), row, true)
  }

  lemma InvoiceFault(db: Db, task: Task, ids: Ids)
    requires Fits(task, ids)
    ensures var outcome := InsertFullInvoice(db, ids.invoice, InvoiceOf(task), Listed(task, ids));
            var rows := Listed(task, ids);
            && (outcome.Success? <==>
                  && ids.invoice !in db.invoices && rows != [] && AllInRange(rows)
                  && (task.Create? || task.from in db.warehouses) && (task.Remove? || task.to in db.warehouses)
                  && Distinct(rows) && Known(db, rows) && forall row | row in rows :: ItemKey(ids.invoice, row.product) !in db.items)
            && (outcome == Failure(Error) ==> rows == [] || !AllInRange(rows))
            && (outcome == Failure(Violation) ==>
                  || ids.invoice in db.invoices
                  || !((task.Create? || task.from in db.warehouses) && (task.Remove? || task.to in db.warehouses))
                  || !Distinct(rows) || !Known(db, rows) || exists row :: row in rows && ItemKey(ids.invoice, row.product) in db.items)
  {
    hide FireAll, PutItems, Listed, Distinct;
  }

  lemma RemoveOutcome(db: Db, task: Task, ids: Ids)
    requires Fits(task, ids) && task.Remove?
    ensures Run(db, task, ids).Success? <==> Keyed(db, task, ids) && InForm(db, task, ids)
    ensures Run(db, task, ids) == Failure(Violation) ==> !Keyed(db, task, ids)
    ensures Run(db, task, ids) == Failure(Error) ==> !InForm(db, task, ids)
  {
    hide InsertFullInvoice, Change, Distinct, Changeable, KeyedRow, FittingRow;
    var products := task.products;
    InvoiceFault(db, task, ids);
    var invoiced := InsertFullInvoice(db, ids.invoice, InvoiceOf(task), products);
    if invoiced.Success? {
      InvoiceKeepsStock(db, task, ids);
      ReduceOutcome(db, invoiced.value, products, task.from);
    }
  }

  lemma InvoiceKeepsStock(db: Db, task: Task, ids: Ids)
    requires Fits(task, ids) && InsertFullInvoice(db, ids.invoice, InvoiceOf(task), Listed(task, ids)).Success?
    ensures var invoiced := InsertFullInvoice(db, ids.invoice, InvoiceOf(task), Listed(task, ids)).value;
            invoiced.stock == db.stock && invoiced.products == db.products && invoiced.warehouses == db.warehouses
  {}

  lemma ReduceOutcome(db: Db, view: Db, products: seq<Item>, from: int)
    requires Distinct(products) && view.stock == db.stock
    ensures var reduced := Change(view, products, from, true);
            && (reduced.Success? <==> forall row | row in products ::
                  Key(from, row.product) in db.stock && FittingRow(StockOf(db.stock, from, row.product), row, true))
            && (reduced == Failure(Violation) ==> exists row :: row in products && Key(from, row.product) !in db.stock)
            && (reduced == Failure(Error) ==>
                  exists row :: row in products && !FittingRow(StockOf(db.stock, from, row.product), row, true))
  {
    hide Change, Distinct, Changeable, Changed;
    ChangeIsPointwise(view, products, from, true);
    ChangeFault(view, products, from, true);
    forall row | row in products
      ensures Changeable(view, row, from, true) <==>
                Key(from, row.product) in db.stock && FittingRow(StockOf(db.stock, from, row.product), row, true)
    {
      ChangeableIs(view, row, from, true);
    }
  }

  lemma ExpandOutcome(view: Db, products: seq<Item>, to: int)
    requires Distinct(products) && to in view.warehouses && Known(view, products)
    ensures var expanded := Change(view, products, to, false);
            && (expanded.Success? <==> forall row | row in products :: FittingRow(StockOf(view.stock, to, row.product), row, false))
            && expanded != Failure(Violation)
  {
    hide Change, Distinct, Changeable, Changed;
    ChangeIsPointwise(view, products, to, false);
    ChangeFault(view, products, to, false);
    forall row | row in products
      ensures Changeable(view, row, to, false) <==> FittingRow(StockOf(view.stock, to, row.product), row, false)
    {
      ChangeableIs(view, row, to, false);
    }
  }

  lemma MoveOutcome(db: Db, task: Task, ids: Ids)
    requires Fits(task, ids) && task.Move?
    ensures Run(db, task, ids).Success? <==> Keyed(db, task, ids) && InForm(db, task, ids)
    ensures Run(db, task, ids) == Failure(Violation) ==> !Keyed(db, task, ids)
    ensures Run(db, task, ids) == Failure(Error) ==> !InForm(db, task, ids)
  {
    hide InsertFullInvoice, Change, Distinct, Changeable, KeyedRow, FittingRow, Left;
    var Move(from, to, products) := task;
    InvoiceFault(db, task, ids);
    var invoiced := InsertFullInvoice(db, ids.invoice, InvoiceOf(task), products);
    if invoiced.Success? {
      InvoiceKeepsStock(db, task, ids);
      ReduceOutcome(db, invoiced.value, products, from);
      var reduced := Change(invoiced.value, products, from, true);
      if reduced.Success? {
        ReducedLeaves(db, invoiced.value, reduced.value, task);
        ExpandOutcome(reduced.value, products, to);
      }
    }
  }

  lemma ReducedLeaves(db: Db, invoiced: Db, reduced: Db, task: Task)
    requires task.Move? && Distinct(task.products) && invoiced.stock == db.stock
    requires Change(invoiced, task.products, task.from, true) == Success(reduced)
    ensures reduced.warehouses == invoiced.warehouses && reduced.products == invoiced.products
    ensures forall row | row in task.products :: StockOf(reduced.stock, task.to, row.product) == Left(db.stock, task, row)
  {
    ChangeIsPointwise(invoiced, task.products, task.from, true);
    hide Change, Distinct;
    forall row | row in task.products ensures StockOf(reduced.stock, task.to, row.product) == Left(db.stock, task, row) {
      ChangeAt(invoiced, task.products, task.from, true, Key(task.to, row.product));
      CountInFinds(task.products, row.product);
    }
  }

  /** A task succeeds exactly when the tables' demands and the form are met; a violation means that the former are not,
      any other error that the latter is not. */
  lemma TaskOutcome(db: Db, task: Task, ids: Ids)
    requires Fits(task, ids)
    ensures Run(db, task, ids).Success? <==> Keyed(db, task, ids) && InForm(db, task, ids)
    ensures Run(db, task, ids) == Failure(Violation) ==> !Keyed(db, task, ids)
    ensures Run(db, task, ids) == Failure(Error) ==> !InForm(db, task, ids)
  {
    match task
    case Create(_, _, _) => CreateOutcome(db, task, ids);
    case Move(_, _, _) => MoveOutcome(db, task, ids);
    case Remove(_, _) => RemoveOutcome(db, task, ids);
  }

  // ---------- Create ----------

  lemma RowsOfCreate(task: Task, ids: Ids)
    requires Fits(task, ids) && task.Create?
    ensures var rows, listed := NewRows(ids.products, task.added), Listed(task, ids);
            && (forall row :: row in listed <==> row in task.existing || row in rows)
            && (forall row | row in rows :: row.product in ids.products)
            && (forall id | id in ids.products :: exists row :: row in rows && row.product == id)
            && (Distinct(listed) ==>
                  && Distinct(task.existing) && Distinct(rows)
                  && (forall i, j | 0 <= i < j < |ids.products| :: ids.products[i] != ids.products[j])
                  && forall row | row in task.existing :: row.product !in ids.products)
  {
    var rows, listed, n := NewRows(ids.products, task.added), Listed(task, ids), |task.existing|;
    forall id | id in ids.products ensures exists row :: row in rows && row.product == id {
      var i :| 0 <= i < |ids.products| && ids.products[i] == id;
      assert rows[i] in rows;
    }
    if Distinct(listed) {
      assert forall i | 0 <= i < n :: listed[i] == task.existing[i];
      assert forall i | 0 <= i < |rows| :: listed[n + i] == rows[i] && rows[i].product == ids.products[i];
    }
  }

  lemma CreateOutcome(db: Db, task: Task, ids: Ids)
    requires Fits(task, ids) && task.Create?
    ensures Run(db, task, ids).Success? <==> Keyed(db, task, ids) && InForm(db, task, ids)
    ensures Run(db, task, ids) == Failure(Violation) ==> !Keyed(db, task, ids)
    ensures Run(db, task, ids) == Failure(Error) ==> !InForm(db, task, ids)
  {
    if Run(db, task, ids).Success? {
      CreateNeeds(db, task, ids);
    } else if task.added != [] {
      CreateFault(db, task, ids);
    }
  }

  lemma CreateNeeds(db: Db, task: Task, ids: Ids)
    requires Fits(task, ids) && task.Create? && Run(db, task, ids).Success?
    ensures Keyed(db, task, ids) && InForm(db, task, ids)
  {
    hide Change, InsertFullInvoice, Listed, NewRows, Distinct, Changeable, PutStock;
    var Create(to, existing, added) := task;
    RowsOfCreate(task, ids);
    ListedDistinct(db, task, ids);
    var expanded := Change(db, existing, to, false).value;
    ChangeIsPointwise(db, existing, to, false);
    var extended := InsertProducts(expanded, ids.products).value;
    InvoiceFault(extended, task, ids);
    InvoiceKeepsStock(extended, task, ids);
    forall row | row in existing ensures FittingRow(StockOf(db.stock, to, row.product), row, false) {
      ChangeableIs(db, row, to, false);
    }
    forall id | id in ids.products ensures id !in db.products && Key(to, id) !in db.stock {
      NoStockYet(db, expanded, task, ids, id);
    }
  }

  lemma NoStockYet(db: Db, expanded: Db, task: Task, ids: Ids, id: int)
    requires Fits(task, ids) && task.Create? && Distinct(Listed(task, ids)) && Distinct(task.existing)
    requires Change(db, task.existing, task.to, false) == Success(expanded) && id in ids.products
    ensures Key(task.to, id) in expanded.stock <==> Key(task.to, id) in db.stock
  {
    RowsOfCreate(task, ids);
    ChangeIsPointwise(db, task.existing, task.to, false);
    assert Lookup(expanded.stock, Key(task.to, id)) == Lookup(db.stock, Key(task.to, id));
  }

  lemma CreateFault(db: Db, task: Task, ids: Ids)
    requires Fits(task, ids) && task.Create? && Run(db, task, ids).Failure? && task.added != []
    ensures if Run(db, task, ids).error == Violation then !Keyed(db, task, ids) else !InForm(db, task, ids)
  {
    hide Change, InsertFullInvoice, Listed, NewRows, Distinct, Changeable, PutStock, InsertStock, InsertProducts;
    var Create(to, existing, added) := task;
    RowsOfCreate(task, ids);
    var expanded := Change(db, existing, to, false);
    ChangeFault(db, existing, to, false);
    if expanded.Success? {
      var extended := InsertProducts(expanded.value, ids.products);
      ProductsFault(db, expanded.value, task, ids);
      if extended.Success? {
        InvoiceFault(extended.value, task, ids);
        var invoiced := InsertFullInvoice(extended.value, ids.invoice, InvoiceOf(task), Listed(task, ids));
        if invoiced.Success? {
          LastFault(db, expanded.value, extended.value, invoiced.value, task, ids);
        }
      }
    }
  }

  lemma ProductsFault(db: Db, expanded: Db, task: Task, ids: Ids)
    requires Fits(task, ids) && task.Create? && Change(db, task.existing, task.to, false) == Success(expanded)
    requires task.added != []
    ensures InsertProducts(expanded, ids.products).Failure? ==>
              InsertProducts(expanded, ids.products).error == Violation && !Keyed(db, task, ids)
    ensures InsertProducts(expanded, ids.products).Success? && Distinct(Listed(task, ids)) ==>
              var extended := InsertProducts(expanded, ids.products).value;
              && extended.warehouses == db.warehouses && extended.invoices == db.invoices && extended.items == db.items
              && extended.products == db.products + set id | id in ids.products
  {
    RowsOfCreate(task, ids);
    if Distinct(Listed(task, ids)) {
      ChangeIsPointwise(db, task.existing, task.to, false);
    }
  }

  lemma LastFault(db: Db, expanded: Db, extended: Db, invoiced: Db, task: Task, ids: Ids)
    requires Fits(task, ids) && task.Create? && Change(db, task.existing, task.to, false) == Success(expanded)
    requires InsertProducts(expanded, ids.products) == Success(extended)
    requires InsertFullInvoice(extended, ids.invoice, InvoiceOf(task), Listed(task, ids)) == Success(invoiced)
    ensures var last := InsertStock(invoiced, task.to, NewRows(ids.products, task.added));
            last.Failure? ==> if last.error == Violation then !Keyed(db, task, ids) else !InForm(db, task, ids)
  {
    RowsOfCreate(task, ids);
    InvoiceFault(extended, task, ids);
    InvoiceKeepsStock(extended, task, ids);
    hide Change, InsertFullInvoice, Listed, Distinct, PutStock;
    forall id | id in ids.products ensures Key(task.to, id) in expanded.stock <==> Key(task.to, id) in db.stock {
      NoStockYet(db, expanded, task, ids, id);
    }
    assert task.added != [] ==> NewRows(ids.products, task.added) != [];
  }
}
