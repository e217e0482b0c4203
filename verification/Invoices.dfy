/** What a committed task leaves on record, why the last insert of a Create cannot collide, and what a report of
    the current stock shows. */
module Invoices {
  import opened Wrappers
  import opened Tables
  import opened WarehouseItems
  import opened ChangeEffect
  import opened Tasks
  import opened Rebase
  import opened Isolation
  import opened Ledger
  import opened Conservation

  // ---------- The final insert of a Create ----------

  /** If the existing products can be expanded, the new ones inserted and the invoice written, the new stock rows
      go in as well: their products are new, so no row of theirs exists. */
  lemma CreateNeverCollides(db: Db, task: Task, ids: Ids)
    requires Fits(task, ids) && task.Create? && task.added != [] && StockKnown(db)
    requires Change(db, task.existing, task.to, false).Success?
    requires var expanded := Change(db, task.existing, task.to, false).value;
             var extended := InsertProducts(expanded, ids.products);
             extended.Success? && InsertFullInvoice(extended.value, ids.invoice, InvoiceOf(task), Listed(task, ids)).Success?
    ensures Run(db, task, ids).Success?
  {
    var expanded := Change(db, task.existing, task.to, false).value;
    var extended := InsertProducts(expanded, ids.products).value;
    var invoiced := InsertFullInvoice(extended, ids.invoice, InvoiceOf(task), Listed(task, ids)).value;
    var rows := NewRows(ids.products, task.added);
    NewRowsListed(task, ids);
    ExistingDistinct(task, ids);
    ChangeIsPointwise(db, task.existing, task.to, false);
    forall row | row in rows ensures Key(task.to, row.product) !in invoiced.stock {
      NewRowAbsent(db, expanded, task, ids, row);
    }
  }

  lemma NewRowsListed(task: Task, ids: Ids)
    requires Fits(task, ids) && task.Create? && Distinct(Listed(task, ids))
    ensures var rows := NewRows(ids.products, task.added);
            Distinct(rows) && forall row | row in rows :: row in Listed(task, ids)
  {
    var rows, n := NewRows(ids.products, task.added), |task.existing|;
    assert forall i | 0 <= i < |rows| :: Listed(task, ids)[n + i] == rows[i];
  }

  lemma ExistingDistinct(task: Task, ids: Ids)
    requires Fits(task, ids) && task.Create? && Distinct(Listed(task, ids))
    ensures Distinct(task.existing)
  {
    assert forall i | 0 <= i < |task.existing| :: Listed(task, ids)[i] == task.existing[i];
  }

  lemma NewRowAbsent(db: Db, expanded: Db, task: Task, ids: Ids, row: Item)
    requires Fits(task, ids) && task.Create? && StockKnown(db) && Distinct(Listed(task, ids))
    requires Change(db, task.existing, task.to, false) == Success(expanded) && Distinct(task.existing)
    requires InsertProducts(expanded, ids.products).Success? && row in NewRows(ids.products, task.added)
    ensures Key(task.to, row.product) !in expanded.stock
  {
    var key := Key(task.to, row.product);
    ChangeIsPointwise(db, task.existing, task.to, false);
    ChangeAt(db, task.existing, task.to, false, key);
    NewAreNotExisting(task, ids, row);
    assert row.product in ids.products;
    assert Lookup(expanded.stock, key) == Lookup(db.stock, key);
  }

  lemma {:induction false} HistoryKnown(history: seq<Record>)
    requires Replay(history).Success?
    ensures StockKnown(Replay(history).value)
  {
    if history != [] {
      var earlier, last := history[..|history| - 1], history[|history| - 1];
      HistoryKnown(earlier);
      if last.Stocked? {
        TaskKeepsKnown(Replay(earlier).value, last.task, last.ids);
      }
    }
  }

  /** On every snapshot a run can reach, a Create fails in its last step only if it fails before. */
  lemma EveryCreateEndsWell(events: seq<Event>, task: Task, ids: Ids)
    requires Play(events).Some? && Fits(task, ids) && task.Create? && task.added != []
    requires var db := Play(events).value.now.db;
             var expanded := Change(db, task.existing, task.to, false);
             && expanded.Success? && InsertProducts(expanded.value, ids.products).Success?
             && var extended := InsertProducts(expanded.value, ids.products).value;
                InsertFullInvoice(extended, ids.invoice, InvoiceOf(task), Listed(task, ids)).Success?
    ensures Run(Play(events).value.now.db, task, ids).Success?
  {
    EveryRunIsSerial(events);
    HistoryKnown(Play(events).value.history);
    CreateNeverCollides(Play(events).value.now.db, task, ids);
  }

  // ---------- The invoices on record ----------

  /** Every invoice item belongs to an invoice. */
  ghost predicate ItemsKnown(db: Db) {
    forall key | key in db.items :: key.invoice in db.invoices
  }

  /** The invoice of a task holds exactly the listed products with their counts. */
  ghost predicate OnRecord(db: Db, task: Task, ids: Ids)
    requires Fits(task, ids)
  {
    && Lookup(db.invoices, ids.invoice) == Some(InvoiceOf(task))
    && forall product :: Lookup(db.items, ItemKey(ids.invoice, product)) == CountIn(Listed(task, ids), product)
  }

  lemma RunRecords(db: Db, task: Task, ids: Ids)
    requires Fits(task, ids) && Run(db, task, ids).Success? && ItemsKnown(db)
    ensures var final := Run(db, task, ids).value;
            && OnRecord(final, task, ids) && ItemsKnown(final) && ids.invoice !in db.invoices
            && (forall id | id != ids.invoice :: Lookup(final.invoices, id) == Lookup(db.invoices, id))
            && (forall key: ItemKey | key.invoice != ids.invoice :: Lookup(final.items, key) == Lookup(db.items, key))
  {
    var final, rows := Run(db, task, ids).value, Listed(task, ids);
    OperationsAppended(db, task, ids);
    ListedDistinct(db, task, ids);
    InvoiceIsNew(db, task, ids);
    forall product ensures Lookup(final.items, ItemKey(ids.invoice, product)) == CountIn(rows, product) {
      PutItemsEffect(db.items, ids.invoice, rows, ItemKey(ids.invoice, product));
      CountInFinds(rows, product);
      CountInMember(rows, product);
    }
    forall key: ItemKey | key.invoice != ids.invoice ensures Lookup(final.items, key) == Lookup(db.items, key) {
      PutItemsEffect(db.items, ids.invoice, rows, key);
    }
    forall key | key in final.items ensures key.invoice in final.invoices {
      assert Lookup(final.items, key).Some?;
      assert key.invoice != ids.invoice ==> Lookup(db.items, key).Some?;
    }
  }

  lemma InvoiceIsNew(db: Db, task: Task, ids: Ids)
    requires Fits(task, ids) && Run(db, task, ids).Success?
    ensures ids.invoice !in db.invoices
  {
    if task.Create? {
      ListedDistinct(db, task, ids);
      ChangeIsPointwise(db, task.existing, task.to, false);
    }
  }

  /** No later task changes what an earlier one put on record. */
  lemma {:induction false} HistoryRecords(history: seq<Record>, i: nat)
    requires Replay(history).Success?
    ensures ItemsKnown(Replay(history).value)
    ensures i < |history| && history[i].Stocked? ==>
              Fits(history[i].task, history[i].ids) && OnRecord(Replay(history).value, history[i].task, history[i].ids)
  {
    hide Run, CountIn, Listed, InvoiceOf, Fits;
    if history != [] {
      var n := |history| - 1;
      var earlier, last := history[..n], history[n];
      HistoryRecords(earlier, i);
      if last.Stocked? {
        var db := Replay(earlier).value;
        RunRecords(db, last.task, last.ids);
        if i < n && history[i].Stocked? {
          assert earlier[i] == history[i];
          StaysOnRecord(db, Replay(history).value, history[i].task, history[i].ids, last.ids);
        }
      } else if i < n {
        assert earlier[i] == history[i];
      }
    }
  }

  lemma StaysOnRecord(db: Db, final: Db, task: Task, ids: Ids, others: Ids)
    requires Fits(task, ids) && OnRecord(db, task, ids) && others.invoice !in db.invoices
    requires forall id | id != others.invoice :: Lookup(final.invoices, id) == Lookup(db.invoices, id)
    requires forall key: ItemKey | key.invoice != others.invoice :: Lookup(final.items, key) == Lookup(db.items, key)
    ensures OnRecord(final, task, ids)
  {
    assert ids.invoice != others.invoice;
    forall product ensures Lookup(final.items, ItemKey(ids.invoice, product)) == CountIn(Listed(task, ids), product) {
      assert ItemKey(ids.invoice, product).invoice != others.invoice;
    }
  }

  /** After every run the invoice of each committed task lists its products, the existing before the new ones of a
      Create, each with the requested count and nothing else. */
  lemma EveryRunRecords(events: seq<Event>, i: nat)
    requires Play(events).Some? && i < |Play(events).value.history| && Play(events).value.history[i].Stocked?
    ensures var record := Play(events).value.history[i];
            Fits(record.task, record.ids) && OnRecord(Play(events).value.now.db, record.task, record.ids)
  {
    EveryRunIsSerial(events);
    HistoryRecords(Play(events).value.history, i);
  }

  // ---------- The current report ----------

  /** The rows a warehouse's stock selects, as the products of a report. */
  function Report(stock: map<Key, int>, warehouse: int): map<int, int> {
    map key | key in stock && key.warehouse == warehouse :: key.product := stock[key]
  }

  /** Fills the products of the report in place from the selected rows, in whatever order they arrive. */
  method SelectByWarehouse(stock: map<Key, int>, warehouse: int, rows: seq<(int, int)>) returns (products: map<int, int>)
    requires forall row | row in rows :: Lookup(stock, Key(warehouse, row.0)) == Some(row.1)
    requires forall key | key in stock && key.warehouse == warehouse :: (key.product, stock[key]) in rows
    ensures products == Report(stock, warehouse)
  {
    products := map[];
    for i := 0 to |rows|
      invariant forall p | p in products :: Lookup(stock, Key(warehouse, p)) == Some(products[p])
      invariant forall j | 0 <= j < i :: rows[j].0 in products
    {
      assert rows[i] in rows;
      products := products[rows[i].0 := rows[i].1];
    }
    var report := Report(stock, warehouse);
    forall p ensures Lookup(products, p) == Lookup(report, p) {
      ReportAt(stock, warehouse, p);
      if Key(warehouse, p) in stock {
        assert (p, stock[Key(warehouse, p)]) in rows;
      }
    }
    EqualByLookup(products, report);
  }

  lemma ReportAt(stock: map<Key, int>, warehouse: int, product: int)
    ensures Lookup(Report(stock, warehouse), product) == Lookup(stock, Key(warehouse, product))
  {
    if Key(warehouse, product) in stock {
      assert product in Report(stock, warehouse);
    }
  }

  /** What a current report is written from. None is NOT_FOUND: with no products to look up there is no report. */
  function CurrentReport(db: Db, warehouse: int): Option<map<int, int>> {
    if Report(db.stock, warehouse) == map[] then None else Some(Report(db.stock, warehouse))
  }

  /** What was logged of the product at the warehouse adds up to nothing. */
  predicate Evens(operations: seq<Operation>, warehouse: int, product: int) {
    LogTotal(operations, warehouse, product) == 0
  }

  lemma StockIsTheLog(events: seq<Event>, warehouse: int, product: int)
    requires Play(events).Some? && warehouse > 0 && PositiveRequests(Play(events).value.history)
    requires Replay(Play(events).value.history).Success? && !Overdrawn(Play(events).value.history, warehouse, product)
    ensures var db := Play(events).value.now.db;
            var total := LogTotal(db.operations, warehouse, product);
            && total >= 0
            && Lookup(Report(db.stock, warehouse), product) == (if total == 0 then None else Some(total))
            && (product in Report(db.stock, warehouse) ==> product in db.products && warehouse in db.warehouses)
  {
    var s := Play(events).value;
    EveryRunIsSerial(events);
    EveryRunBalances(events, warehouse, product);
    EveryRunStaysPositive(events, Key(warehouse, product));
    HistoryKnown(s.history);
    ReportAt(s.now.db.stock, warehouse, product);
  }

  /** With positive requests and no over-drawn reduce at the warehouse, a report shows for each product exactly its log
      total and leaves out those with total zero; every product it shows is in the catalogue. There is no report exactly
      when all totals are zero. */
  lemma EveryReportIsTheLog(events: seq<Event>, warehouse: int)
    requires Play(events).Some? && warehouse > 0 && PositiveRequests(Play(events).value.history)
    requires Replay(Play(events).value.history).Success?
    requires forall product :: !Overdrawn(Play(events).value.history, warehouse, product)
    ensures var db := Play(events).value.now.db;
            var report := CurrentReport(db, warehouse);
            && (report.None? <==> forall product :: Evens(db.operations, warehouse, product))
            && (report.Some? ==> forall product ::
                  var total := LogTotal(db.operations, warehouse, product);
                  && total >= 0 && Lookup(report.value, product) == (if total == 0 then None else Some(total))
                  && (product in report.value ==> product in db.products))
  {
    var db := Play(events).value.now.db;
    forall product
      ensures var total := LogTotal(db.operations, warehouse, product);
              && total >= 0 && Lookup(Report(db.stock, warehouse), product) == (if total == 0 then None else Some(total))
              && (product in Report(db.stock, warehouse) ==> product in db.products)
    {
      StockIsTheLog(events, warehouse, product);
    }
    if Report(db.stock, warehouse) != map[] {
      var product :| product in Report(db.stock, warehouse);
      assert Lookup(Report(db.stock, warehouse), product).Some?;
      assert !Evens(db.operations, warehouse, product);
    } else {
      forall product ensures Evens(db.operations, warehouse, product) {
        assert Lookup(Report(db.stock, warehouse), product) == None;
      }
    }
  }
}
