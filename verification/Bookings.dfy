/** Row by row: what a committed task puts into invoice items, stock and operation log. */
module Bookings {
  import opened Wrappers
  import opened Tables
  import opened WarehouseItems
  import opened ChangeEffect
  import opened Tasks
  import opened Rebase
  import opened Isolation
  import opened Ledger
  import opened Invoices

  // ---------- Items and new stock ----------

  /** The task asks for `count` pieces of the product: the i-th new product of a Create has the i-th generated id. */
  ghost predicate AsksFor(task: Task, ids: Ids, product: int, count: int)
    requires Fits(task, ids)
  {
    match task
    case Create(_, existing, added) =>
      || (exists i :: 0 <= i < |existing| && existing[i] == Item(product, count))
      || (exists i :: 0 <= i < |added| && ids.products[i] == product && added[i] == count)
    case Move(_, _, products) => Item(product, count) in products
    case Remove(_, products) => Item(product, count) in products
  }

  /** The rows of a Create, position by position. */
  lemma CreateLists(task: Task, ids: Ids)
    requires Fits(task, ids) && task.Create?
    ensures |Listed(task, ids)| == |task.existing| + |task.added|
    ensures forall i | 0 <= i < |task.existing| :: Listed(task, ids)[i] == task.existing[i]
    ensures forall i | 0 <= i < |task.added| :: Listed(task, ids)[|task.existing| + i] == Item(ids.products[i], task.added[i])
  {}

  lemma ListedIsAsked(task: Task, ids: Ids, product: int, count: int)
    requires Fits(task, ids)
    ensures Item(product, count) in Listed(task, ids) <==> AsksFor(task, ids, product, count)
  {
    if task.Create? {
      CreateLists(task, ids);
      var n := |task.existing|;
      if Item(product, count) in Listed(task, ids) {
        var j :| 0 <= j < |Listed(task, ids)| && Listed(task, ids)[j] == Item(product, count);
        assert j < n || Listed(task, ids)[j] == Item(ids.products[j - n], task.added[j - n]);
      } else {
        forall i | 0 <= i < |task.existing| ensures task.existing[i] != Item(product, count) {
          assert Listed(task, ids)[i] == task.existing[i];
        }
        forall i | 0 <= i < |task.added| ensures ids.products[i] != product || task.added[i] != count {
          assert Listed(task, ids)[n + i] == Item(ids.products[i], task.added[i]);
        }
      }
    }
  }

  lemma CountInIsAsked(task: Task, ids: Ids, product: int, count: int)
    requires Fits(task, ids) && Distinct(Listed(task, ids))
    ensures CountIn(Listed(task, ids), product) == Some(count) <==> AsksFor(task, ids, product, count)
  {
    CountInFinds(Listed(task, ids), product);
    ListedIsAsked(task, ids, product, count);
  }

  /** After every run the invoice of each committed task lists a product with a count exactly when the task asked for
      that. */
  lemma EveryRunListsExactly(events: seq<Event>, i: nat, product: int, count: int)
    requires Play(events).Some? && i < |Play(events).value.history| && Play(events).value.history[i].Stocked?
    ensures var Stocked(task, ids) := Play(events).value.history[i];
            Fits(task, ids) &&
            (Lookup(Play(events).value.now.db.items, ItemKey(ids.invoice, product)) == Some(count)
             <==> AsksFor(task, ids, product, count))
  {
    var history := Play(events).value.history;
    EveryRunRecords(events, i);
    EveryRunIsSerial(events);
    HistoryStep(history, i);
    ListedDistinct(Replay(history[..i]).value, history[i].task, history[i].ids);
    CountInIsAsked(history[i].task, history[i].ids, product, count);
  }

  /** The i-th record was run on what the earlier ones left. */
  lemma {:induction false} HistoryStep(history: seq<Record>, i: nat)
    requires Replay(history).Success? && i < |history|
    ensures Replay(history[..i]).Success?
    ensures Replay(history[..i + 1]) == Redo(Replay(history[..i]).value, history[i]) && Replay(history[..i + 1]).Success?
  {
    var n := |history| - 1;
    if i < n {
      HistoryStep(history[..n], i);
      assert history[..n][..i] == history[..i] && history[..n][..i + 1] == history[..i + 1];
    } else {
      assert history[..i + 1] == history;
    }
  }

  /** A successful Create leaves the i-th new product with the i-th requested count, on its invoice and in stock. */
  lemma CreateGivesEach(db: Db, task: Task, ids: Ids, i: nat)
    requires Fits(task, ids) && task.Create? && Run(db, task, ids).Success? && i < |task.added|
    ensures var final := Run(db, task, ids).value;
            && Lookup(final.items, ItemKey(ids.invoice, ids.products[i])) == Some(task.added[i])
            && Lookup(final.stock, Key(task.to, ids.products[i])) == Some(task.added[i])
            && ids.products[i] in final.products && ids.products[i] !in db.products
  {
    var rows := NewRows(ids.products, task.added);
    var final, row := Run(db, task, ids).value, Item(ids.products[i], task.added[i]);
    assert rows[i] == row;
    OperationsAppended(db, task, ids);
    ListedDistinct(db, task, ids);
    CreateLists(task, ids);
    assert Listed(task, ids)[|task.existing| + i] == row;
    PutItemsEffect(db.items, ids.invoice, Listed(task, ids), ItemKey(ids.invoice, row.product));
    CreateStocks(db, task, ids, row);
    ProductIsNew(db, task, ids, i);
  }

  lemma CreateStocks(db: Db, task: Task, ids: Ids, row: Item)
    requires Fits(task, ids) && task.Create? && Run(db, task, ids).Success? && row in NewRows(ids.products, task.added)
    ensures Lookup(Run(db, task, ids).value.stock, Key(task.to, row.product)) == Some(row.count)
  {
    var rows := NewRows(ids.products, task.added);
    var expanded := Change(db, task.existing, task.to, false).value;
    var extended := InsertProducts(expanded, ids.products).value;
    var invoiced := InsertFullInvoice(extended, ids.invoice, InvoiceOf(task), Listed(task, ids)).value;
    hide Change, InsertProducts, InsertFullInvoice, Listed;
    PutStockEffect(invoiced.stock, task.to, rows);
  }

  lemma ProductIsNew(db: Db, task: Task, ids: Ids, i: nat)
    requires Fits(task, ids) && task.Create? && Run(db, task, ids).Success? && i < |ids.products|
    ensures ids.products[i] !in db.products
  {
    hide Change, InsertFullInvoice, InsertStock, Listed, Distinct, Changeable;
    ListedDistinct(db, task, ids);
    ChangeIsPointwise(db, task.existing, task.to, false);
  }

  /** So does every committed Create, at the moment it commits. */
  lemma EveryCreateStocks(events: seq<Event>, j: nat, i: nat)
    requires Play(events).Some? && j < |Play(events).value.history|
    requires Play(events).value.history[j].Stocked? && Play(events).value.history[j].task.Create?
    requires i < |Play(events).value.history[j].task.added|
    ensures var history := Play(events).value.history;
            var Stocked(task, ids) := history[j];
            && Fits(task, ids) && Replay(history[..j + 1]).Success?
            && Lookup(Replay(history[..j + 1]).value.stock, Key(task.to, ids.products[i])) == Some(task.added[i])
  {
    var history := Play(events).value.history;
    EveryRunIsSerial(events);
    HistoryStep(history, j);
    CreateGivesEach(Replay(history[..j]).value, history[j].task, history[j].ids, i);
  }

  // ---------- The operation log ----------

  /** How often an operation is to be logged: once at minus the warehouse an invoice takes from and once at the one it
      brings to, for each of its items with the item's product and count. */
  function Expected(db: Db, op: Operation): nat {
    if op.invoice in db.invoices && Lookup(db.items, ItemKey(op.invoice, op.product)) == Some(op.count) then
      Ends(db.invoices[op.invoice], op.warehouse)
    else 0
  }

  function Ends(invoice: Invoice, warehouse: int): nat {
    (if invoice.from == Some(0 - warehouse) then 1 else 0) + (if invoice.to == Some(warehouse) then 1 else 0)
  }

  /** The log is what the invoices and their items say, no more and no less. */
  ghost predicate LogIsItems(db: Db) {
    forall op: Operation :: multiset(db.operations)[op] == Expected(db, op)
  }

  lemma {:induction false} FiredOf(id: int, invoice: Invoice, rows: seq<Item>, op: Operation)
    requires Distinct(rows)
    ensures multiset(FireAll(id, invoice, rows))[op] ==
            if op.invoice == id && CountIn(rows, op.product) == Some(op.count) then Ends(invoice, op.warehouse) else 0
  {
    if rows != [] {
      HeadApart(rows, 0);
      FiredOf(id, invoice, rows[1..], op);
      FiredOfOne(id, invoice, rows[0], op);
      CountInMissing(rows[1..], rows[0].product);
      assert multiset(FireAll(id, invoice, rows))
             == multiset(Fire(id, invoice, rows[0])) + multiset(FireAll(id, invoice, rows[1..]));
    }
  }

  lemma {:induction false} CountInMissing(rows: seq<Item>, product: int)
    requires Key(0, product) !in Keys(0, rows)
    ensures CountIn(rows, product).None?
  {
    if rows != [] {
      assert Key(0, rows[0].product) in Keys(0, rows);
      assert forall row | row in rows[1..] :: row in rows;
      CountInMissing(rows[1..], product);
    }
  }

  lemma FiredOfOne(id: int, invoice: Invoice, row: Item, op: Operation)
    ensures multiset(Fire(id, invoice, row))[op] ==
            if op.invoice == id && op.product == row.product && op.count == row.count then Ends(invoice, op.warehouse) else 0
  {
    var from := Operation(id, row.product, if invoice.from.Some? then 0 - invoice.from.value else 0, row.count);
    var to := Operation(id, row.product, if invoice.to.Some? then invoice.to.value else 0, row.count);
    var froms, tos := if invoice.from.Some? then [from] else [], if invoice.to.Some? then [to] else [];
    assert Fire(id, invoice, row) == froms + tos;
    assert multiset(froms + tos) == multiset(froms) + multiset(tos);
    OneOrNone(invoice.from.Some?, from, op);
    OneOrNone(invoice.to.Some?, to, op);
  }

  lemma OneOrNone(present: bool, one: Operation, op: Operation)
    ensures multiset(if present then [one] else [])[op] == if present && one == op then 1 else 0
  {}

  lemma LogStep(db: Db, final: Db, id: int, invoice: Invoice, rows: seq<Item>, op: Operation)
    requires Distinct(rows) && final.operations == db.operations + FireAll(id, invoice, rows)
    requires multiset(db.operations)[op] == Expected(db, op) && id !in db.invoices
    requires Lookup(final.invoices, op.invoice) == if op.invoice == id then Some(invoice) else Lookup(db.invoices, op.invoice)
    requires Lookup(final.items, ItemKey(op.invoice, op.product))
             == if op.invoice == id then CountIn(rows, op.product) else Lookup(db.items, ItemKey(op.invoice, op.product))
    ensures multiset(final.operations)[op] == Expected(final, op)
  {
    hide FireAll, CountIn, Distinct, Ends;
    FiredOf(id, invoice, rows, op);
    assert multiset(db.operations + FireAll(id, invoice, rows)) == multiset(db.operations) + multiset(FireAll(id, invoice, rows));
  }

  lemma TaskKeepsLog(db: Db, task: Task, ids: Ids)
    requires Fits(task, ids) && Run(db, task, ids).Success? && ItemsKnown(db) && LogIsItems(db)
    ensures LogIsItems(Run(db, task, ids).value)
  {
    hide Run, Listed, CountIn, Fits, InvoiceOf, FireAll, Distinct, Expected, PutItems;
    var final := Run(db, task, ids).value;
    OperationsAppended(db, task, ids);
    ListedDistinct(db, task, ids);
    RunRecords(db, task, ids);
    forall op: Operation ensures multiset(final.operations)[op] == Expected(final, op) {
      assert op.invoice != ids.invoice ==> ItemKey(op.invoice, op.product).invoice != ids.invoice;
      LogStep(db, final, ids.invoice, InvoiceOf(task), Listed(task, ids), op);
    }
  }

  lemma {:induction false} HistoryLogs(history: seq<Record>)
    requires Replay(history).Success?
    ensures LogIsItems(Replay(history).value)
  {
    if history != [] {
      var n := |history| - 1;
      HistoryLogs(history[..n]);
      HistoryRecords(history[..n], 0);
      if history[n].Stocked? {
        TaskKeepsLog(Replay(history[..n]).value, history[n].task, history[n].ids);
      }
    }
  }

  /** In every reachable state the log holds, for each item of each committed invoice, one operation at minus the
      warehouse it was taken from and one at the warehouse it was brought to, under that invoice and with the item's
      product and count, and nothing else. */
  lemma EveryRunLogsItsItems(events: seq<Event>, op: Operation)
    requires Play(events).Some?
    ensures var db := Play(events).value.now.db;
            multiset(db.operations)[op] ==
            if op.invoice in db.invoices && Lookup(db.items, ItemKey(op.invoice, op.product)) == Some(op.count) then
              (if db.invoices[op.invoice].from == Some(0 - op.warehouse) then 1 else 0)
              + (if db.invoices[op.invoice].to == Some(op.warehouse) then 1 else 0)
            else 0
  {
    hide Play, Replay;
    EveryRunIsSerial(events);
    HistoryLogs(Play(events).value.history);
    var db := Play(events).value.now.db;
    assert multiset(db.operations)[op] == Expected(db, op);
  }

  lemma {:induction false} FiredInOrder(id: int, invoice: Invoice, rows: seq<Item>, j: nat)
    requires j < |rows| && (invoice.from.Some? || invoice.to.Some?)
    ensures var fired := FireAll(id, invoice, rows);
            var Item(product, count) := rows[j];
            if invoice.from.Some? && invoice.to.Some? then
              && |fired| == 2 * |rows|
              && fired[2 * j] == Operation(id, product, 0 - invoice.from.value, count)
              && fired[2 * j + 1] == Operation(id, product, invoice.to.value, count)
            else
              && |fired| == |rows|
              && fired[j] == Operation(id, product, if invoice.from.Some? then 0 - invoice.from.value else invoice.to.value, count)
  {
    FireLength(id, invoice, rows);
    if j > 0 {
      FiredInOrder(id, invoice, rows[1..], j - 1);
    }
  }

  lemma {:induction false} FireLength(id: int, invoice: Invoice, rows: seq<Item>)
    ensures |FireAll(id, invoice, rows)| == (if invoice.from.Some? && invoice.to.Some? then 2 * |rows|
                                             else if invoice.from.Some? || invoice.to.Some? then |rows| else 0)
  {
    if rows != [] {
      FireLength(id, invoice, rows[1..]);
    }
  }

  /** The operations come item by item, the one taken before the one brought. */
  lemma OperationsInOrder(db: Db, task: Task, ids: Ids, j: nat)
    requires Fits(task, ids) && Run(db, task, ids).Success? && j < |Listed(task, ids)|
    ensures var final, n := Run(db, task, ids).value.operations, |db.operations|;
            var Item(product, count) := Listed(task, ids)[j];
            match task
            case Create(to, _, _) =>
              |final| == n + |Listed(task, ids)| && final[n + j] == Operation(ids.invoice, product, to, count)
            case Move(from, to, products) =>
              && |final| == n + 2 * |products|
              && final[n + 2 * j] == Operation(ids.invoice, product, 0 - from, count)
              && final[n + 2 * j + 1] == Operation(ids.invoice, product, to, count)
            case Remove(from, products) =>
              |final| == n + |products| && final[n + j] == Operation(ids.invoice, product, 0 - from, count)
  {
    OperationsAppended(db, task, ids);
    FiredInOrder(ids.invoice, InvoiceOf(task), Listed(task, ids), j);
    hide Run, FireAll;
  }
}
