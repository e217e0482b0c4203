/** What the tasks promise about the stock table: it is the operation log added up, except for over-drawn reduces. */
module Ledger {
  import opened Wrappers
  import opened Tables
  import opened WarehouseItems
  import opened ChangeEffect
  import opened Tasks
  import opened Rebase
  import opened Isolation

  function CountIn(rows: seq<Item>, product: int): Option<int> {
    if rows == [] then None
    else if rows[0].product == product then Some(rows[0].count)
    else CountIn(rows[1..], product)
  }

  lemma {:induction false} CountInFinds(rows: seq<Item>, product: int)
    requires Distinct(rows)
    ensures CountIn(rows, product).Some? ==> Item(product, CountIn(rows, product).value) in rows
    ensures forall row | row in rows && row.product == product :: CountIn(rows, product) == Some(row.count)
  {
    hide Distinct;
    if rows != [] {
      HeadApart(rows, 0);
      CountInFinds(rows[1..], product);
      assert forall row | row in rows[1..] :: Key(0, row.product) in Keys(0, rows[1..]);
    }
  }

  function OrZero(count: Option<int>): int {
    if count.Some? then count.value else 0
  }

  /** One reduce or expand on one row; `here` says whether it is the row's warehouse. */
  function Step(before: Option<int>, count: Option<int>, here: bool, reducing: bool): Option<int> {
    if !here || count.None? then before
    else if !reducing then Some(OrZero(before) + count.value)
    else if count.value >= OrZero(before) then None
    else Some(OrZero(before) - count.value)
  }

  /** The stock row of one product after a task, from the row before it alone. */
  function After(before: Option<int>, task: Task, ids: Ids, warehouse: int, product: int): Option<int>
    requires Fits(task, ids)
  {
    var invoice := InvoiceOf(task);
    var count := CountIn(Listed(task, ids), product);
    Step(Step(before, count, invoice.from == Some(warehouse), true), count, invoice.to == Some(warehouse), false)
  }

  lemma ChangeAt(db: Db, rows: seq<Item>, warehouse: int, reducing: bool, key: Key)
    requires Distinct(rows) && Change(db, rows, warehouse, reducing).Success?
    ensures Lookup(Change(db, rows, warehouse, reducing).value.stock, key)
            == Step(Lookup(db.stock, key), CountIn(rows, key.product), key.warehouse == warehouse, reducing)
  {
    ChangeIsPointwise(db, rows, warehouse, reducing);
    RewrittenAt(db.stock, Change(db, rows, warehouse, reducing).value.stock, rows, warehouse, reducing, key);
  }

  lemma RewrittenAt(before: map<Key, int>, after: map<Key, int>, rows: seq<Item>, warehouse: int, reducing: bool, key: Key)
    requires Distinct(rows) && Rewritten(before, after, rows, warehouse, reducing)
    ensures Lookup(after, key)
            == Step(Lookup(before, key), CountIn(rows, key.product), key.warehouse == warehouse, reducing)
  {
    CountInFinds(rows, key.product);
    if key.warehouse == warehouse && CountIn(rows, key.product).Some? {
      assert Item(key.product, CountIn(rows, key.product).value) in rows;
    } else {
      assert key !in Keys(warehouse, rows);
    }
  }

  lemma {:induction false} CountInConcat(one: seq<Item>, two: seq<Item>, product: int)
    ensures CountIn(one + two, product) ==
            if CountIn(one, product).Some? then CountIn(one, product) else CountIn(two, product)
  {
    if one == [] {
      assert one + two == two;
    } else {
      assert (one + two)[1..] == one[1..] + two;
      CountInConcat(one[1..], two, product);
    }
  }

  lemma CreateIsPointwise(db: Db, task: Task, ids: Ids, key: Key)
    requires Fits(task, ids) && task.Create? && Run(db, task, ids).Success?
    ensures Lookup(Run(db, task, ids).value.stock, key)
            == After(Lookup(db.stock, key), task, ids, key.warehouse, key.product)
  {
    hide Change, PutStock, Distinct, AllInRange, Known, Keys;
    var Create(to, existing, added) := task;
    var rows := NewRows(ids.products, added);
    var expanded := Change(db, existing, to, false).value;
    ListedDistinct(db, task, ids);
    ChangeAt(db, existing, to, false, key);
    CountInConcat(existing, rows, key.product);
    InsertedAt(task, ids, expanded, key);
    if CountIn(rows, key.product).Some? {
      CountInFinds(rows, key.product);
      NewAreNotExisting(task, ids, Item(key.product, CountIn(rows, key.product).value));
    }
  }

  lemma InsertedAt(task: Task, ids: Ids, expanded: Db, key: Key)
    requires Fits(task, ids) && task.Create?
    requires var rows := NewRows(ids.products, task.added);
             Distinct(rows) && forall row | row in rows :: Key(task.to, row.product) !in expanded.stock
    ensures var rows := NewRows(ids.products, task.added);
            Lookup(PutStock(expanded.stock, task.to, rows), key)
            == Step(Lookup(expanded.stock, key), CountIn(rows, key.product), key.warehouse == task.to, false)
  {
    var rows := NewRows(ids.products, task.added);
    PutStockEffect(expanded.stock, task.to, rows);
    CountInFinds(rows, key.product);
    if key.warehouse == task.to && CountIn(rows, key.product).Some? {
      assert Item(key.product, CountIn(rows, key.product).value) in rows;
    } else {
      assert key !in Keys(task.to, rows);
    }
  }

  lemma NewAreNotExisting(task: Task, ids: Ids, row: Item)
    requires Fits(task, ids) && task.Create? && Distinct(Listed(task, ids))
    requires row in NewRows(ids.products, task.added)
    ensures CountIn(task.existing, row.product).None?
  {
    var listed, n := Listed(task, ids), |task.existing|;
    assert forall i | 0 <= i < n :: listed[i] == task.existing[i];
    CountInFinds(task.existing, row.product);
    var j :| 0 <= j < |ids.products| && NewRows(ids.products, task.added)[j] == row;
    assert listed[n + j] == row;
    forall i | 0 <= i < n ensures task.existing[i].product != row.product {
      assert listed[i].product != listed[n + j].product;
    }
  }

  lemma MoveIsPointwise(db: Db, task: Task, ids: Ids, key: Key)
    requires Fits(task, ids) && task.Move? && Run(db, task, ids).Success?
    ensures Lookup(Run(db, task, ids).value.stock, key)
            == After(Lookup(db.stock, key), task, ids, key.warehouse, key.product)
  {
    var Move(from, to, products) := task;
    ListedDistinct(db, task, ids);
    var invoiced := InsertFullInvoice(db, ids.invoice, InvoiceOf(task), products).value;
    ChangeAt(invoiced, products, from, true, key);
    ChangeAt(Change(invoiced, products, from, true).value, products, to, false, key);
  }

  /** A whole task changes each stock row by itself. */
  lemma RunIsPointwise(db: Db, task: Task, ids: Ids, key: Key)
    requires Fits(task, ids) && Run(db, task, ids).Success?
    ensures Lookup(Run(db, task, ids).value.stock, key)
            == After(Lookup(db.stock, key), task, ids, key.warehouse, key.product)
  {
    match task
    case Create(_, _, _) => CreateIsPointwise(db, task, ids, key);
    case Move(_, _, _) => MoveIsPointwise(db, task, ids, key);
    case Remove(from, products) =>
      ListedDistinct(db, task, ids);
      ChangeAt(InsertFullInvoice(db, ids.invoice, InvoiceOf(task), products).value, products, from, true, key);
  }

  // ---------- The log ----------

  /** What the invoice books for a product at a warehouse. */
  function Booked(invoice: Invoice, rows: seq<Item>, warehouse: int, product: int): int {
    var count := OrZero(CountIn(rows, product));
    (if invoice.to == Some(warehouse) then count else 0) - (if invoice.from == Some(warehouse) then count else 0)
  }

  predicate PositiveEnds(invoice: Invoice) {
    (invoice.from.Some? ==> invoice.from.value > 0) && (invoice.to.Some? ==> invoice.to.value > 0)
  }

  lemma {:induction false} FiredTotal(id: int, invoice: Invoice, rows: seq<Item>, warehouse: int, product: int)
    requires Distinct(rows) && PositiveEnds(invoice) && warehouse > 0
    ensures LogTotal(FireAll(id, invoice, rows), warehouse, product) == Booked(invoice, rows, warehouse, product)
  {
    if rows != [] {
      HeadApart(rows, 0);
      FiredTotal(id, invoice, rows[1..], warehouse, product);
      CountInFinds(rows[1..], product);
      assert rows[0].product == product ==> CountIn(rows[1..], product).None? by {
        assert forall row | row in rows[1..] :: Key(0, row.product) in Keys(0, rows[1..]);
      }
      LogTotalConcat(Fire(id, invoice, rows[0]), FireAll(id, invoice, rows[1..]), warehouse, product);
      FireTotal(id, invoice, rows[0], warehouse, product);
    }
  }

  lemma FireTotal(id: int, invoice: Invoice, row: Item, warehouse: int, product: int)
    requires PositiveEnds(invoice) && warehouse > 0
    ensures LogTotal(Fire(id, invoice, row), warehouse, product) == Booked(invoice, [row], warehouse, product)
  {
    var from := if invoice.from.Some? then [Operation(id, row.product, -invoice.from.value, row.count)] else [];
    var to := if invoice.to.Some? then [Operation(id, row.product, invoice.to.value, row.count)] else [];
    LogTotalConcat(from, to, warehouse, product);
    assert forall operation: Operation :: [operation][1..] == [];
    assert forall operation :: LogTotal([operation], warehouse, product) == Signed(operation, warehouse, product);
    assert CountIn([row], product) == if row.product == product then Some(row.count) else None;
  }

  /** By how much a task takes more than the stock it sees; only reduces do. */
  function Shortfall(before: int, task: Task, warehouse: int, product: int): int {
    if task.Create? || task.from != warehouse then 0
    else
      var count := OrZero(CountIn(task.products, product));
      if CountIn(task.products, product).Some? && count > before then count - before else 0
  }

  lemma TaskLogs(db: Db, task: Task, ids: Ids, warehouse: int, product: int)
    requires Fits(task, ids) && Run(db, task, ids).Success?
    requires warehouse > 0 && forall w | w in db.warehouses :: w > 0
    ensures LogTotal(Run(db, task, ids).value.operations, warehouse, product)
            == LogTotal(db.operations, warehouse, product)
               + Booked(InvoiceOf(task), Listed(task, ids), warehouse, product)
  {
    ListedDistinct(db, task, ids);
    var fired := FireAll(ids.invoice, InvoiceOf(task), Listed(task, ids));
    OperationsAppended(db, task, ids);
    FiredTotal(ids.invoice, InvoiceOf(task), Listed(task, ids), warehouse, product);
    LogTotalConcat(db.operations, fired, warehouse, product);
  }

  /** What a task leaves besides stock: its operations, its items, its invoice and its new products. */
  ghost predicate Appended(db: Db, final: Db, task: Task, ids: Ids)
    requires Fits(task, ids)
  {
    && final.operations == db.operations + FireAll(ids.invoice, InvoiceOf(task), Listed(task, ids))
    && final.warehouses == db.warehouses
    && final.items == PutItems(db.items, ids.invoice, Listed(task, ids))
    && final.invoices == db.invoices[ids.invoice := InvoiceOf(task)]
    && final.products == db.products + (if task.Create? then set id | id in ids.products else {})
    && (InvoiceOf(task).from.Some? ==> InvoiceOf(task).from.value in db.warehouses)
    && (InvoiceOf(task).to.Some? ==> InvoiceOf(task).to.value in db.warehouses)
  }

  lemma CreateAppends(db: Db, task: Task, ids: Ids)
    requires Fits(task, ids) && task.Create? && Run(db, task, ids).Success?
    ensures Appended(db, Run(db, task, ids).value, task, ids)
  {
    hide PutStock, Known, AllInRange;
    ListedDistinct(db, task, ids);
    ChangeIsPointwise(db, task.existing, task.to, false);
  }

  lemma MoveAppends(db: Db, task: Task, ids: Ids)
    requires Fits(task, ids) && task.Move? && Run(db, task, ids).Success?
    ensures Appended(db, Run(db, task, ids).value, task, ids)
  {
    ListedDistinct(db, task, ids);
    var invoiced := InsertFullInvoice(db, ids.invoice, InvoiceOf(task), task.products).value;
    ChangeIsPointwise(invoiced, task.products, task.from, true);
    ChangeIsPointwise(Change(invoiced, task.products, task.from, true).value, task.products, task.to, false);
  }

  lemma RemoveAppends(db: Db, task: Task, ids: Ids)
    requires Fits(task, ids) && task.Remove? && Run(db, task, ids).Success?
    ensures Appended(db, Run(db, task, ids).value, task, ids)
  {
    ListedDistinct(db, task, ids);
    ChangeIsPointwise(InsertFullInvoice(db, ids.invoice, InvoiceOf(task), task.products).value, task.products, task.from, true);
  }

  lemma OperationsAppended(db: Db, task: Task, ids: Ids)
    requires Fits(task, ids) && Run(db, task, ids).Success?
    ensures Appended(db, Run(db, task, ids).value, task, ids)
  {
    match task
    case Create(_, _, _) => CreateAppends(db, task, ids);
    case Move(_, _, _) => MoveAppends(db, task, ids);
    case Remove(_, _) => RemoveAppends(db, task, ids);
  }

  /** Stock and log move together, but for what a reduce takes beyond the stock. */
  lemma TaskBalances(db: Db, task: Task, ids: Ids, warehouse: int, product: int)
    requires Fits(task, ids) && Run(db, task, ids).Success?
    ensures StockOf(Run(db, task, ids).value.stock, warehouse, product)
            == StockOf(db.stock, warehouse, product)
               + Booked(InvoiceOf(task), Listed(task, ids), warehouse, product)
               + Shortfall(StockOf(db.stock, warehouse, product), task, warehouse, product)
  {
    RunIsPointwise(db, task, ids, Key(warehouse, product));
  }

  // ---------- Whole histories ----------

  predicate RealWarehouses(history: seq<Record>) {
    forall record | record in history :: record.Opened? ==> record.warehouse > 0
  }

  lemma {:induction false} WarehousesPositive(history: seq<Record>)
    requires RealWarehouses(history) && Replay(history).Success?
    ensures forall warehouse | warehouse in Replay(history).value.warehouses :: warehouse > 0
  {
    if history != [] {
      var earlier, last := history[..|history| - 1], history[|history| - 1];
      WarehousesPositive(earlier);
      if last.Stocked? {
        OperationsAppended(Replay(earlier).value, last.task, last.ids);
      }
    }
  }

  /** The shortfalls of the committed tasks, each measured on the state the task found. */
  function TotalShortfall(history: seq<Record>, warehouse: int, product: int): int
    requires Replay(history).Success?
  {
    if history == [] then 0
    else
      var earlier, last := history[..|history| - 1], history[|history| - 1];
      TotalShortfall(earlier, warehouse, product)
      + if last.Opened? then 0
        else Shortfall(StockOf(Replay(earlier).value.stock, warehouse, product), last.task, warehouse, product)
  }

  lemma {:induction false} HistoryBalances(history: seq<Record>, warehouse: int, product: int)
    requires RealWarehouses(history) && Replay(history).Success? && warehouse > 0
    ensures var db := Replay(history).value;
            StockOf(db.stock, warehouse, product)
            == LogTotal(db.operations, warehouse, product) + TotalShortfall(history, warehouse, product)
  {
    if history != [] {
      var earlier, last := history[..|history| - 1], history[|history| - 1];
      HistoryBalances(earlier, warehouse, product);
      if last.Stocked? {
        var db := Replay(earlier).value;
        WarehousesPositive(earlier);
        TaskLogs(db, last.task, last.ids, warehouse, product);
        TaskBalances(db, last.task, last.ids, warehouse, product);
      }
    }
  }

  /** Some committed reduce asked for more of the product than the warehouse held when it ran. */
  ghost predicate Overdrawn(history: seq<Record>, warehouse: int, product: int)
    requires Replay(history).Success?
  {
    exists i | 0 <= i < |history| && history[i].Stocked? ::
      Replay(history[..i]).Success? && Overdraws(Replay(history[..i]).value, history[i].task, warehouse, product)
  }

  /** The reduce asks for more than the warehouse holds. */
  predicate Overdraws(db: Db, task: Task, warehouse: int, product: int) {
    && !task.Create? && task.from == warehouse
    && CountIn(task.products, product).Some?
    && CountIn(task.products, product).value > StockOf(db.stock, warehouse, product)
  }

  lemma {:induction false} ShortfallMeansOverdrawn(history: seq<Record>, warehouse: int, product: int)
    requires Replay(history).Success?
    ensures TotalShortfall(history, warehouse, product) >= 0
    ensures TotalShortfall(history, warehouse, product) == 0 <==> !Overdrawn(history, warehouse, product)
  {
    if history != [] {
      var n := |history| - 1;
      var earlier := history[..n];
      ShortfallMeansOverdrawn(earlier, warehouse, product);
      assert forall i | 0 <= i < n :: earlier[..i] == history[..i] && earlier[i] == history[i];
      if Overdrawn(history, warehouse, product) && !Overdrawn(earlier, warehouse, product) {
        var i :| 0 <= i < |history| && history[i].Stocked? && Replay(history[..i]).Success?
                 && Overdraws(Replay(history[..i]).value, history[i].task, warehouse, product);
        assert i == n;
      } else if Overdrawn(earlier, warehouse, product) {
        var i :| 0 <= i < n && earlier[i].Stocked? && Replay(earlier[..i]).Success?
                 && Overdraws(Replay(earlier[..i]).value, earlier[i].task, warehouse, product);
        assert Overdraws(Replay(history[..i]).value, history[i].task, warehouse, product);
      } else if history[n].Stocked? {
        assert !Overdraws(Replay(history[..n]).value, history[n].task, warehouse, product);
      }
    }
  }

  lemma {:induction false} EveryRunIsReal(events: seq<Event>)
    requires Play(events).Some?
    ensures RealWarehouses(Play(events).value.history)
  {
    if events != [] {
      EveryRunIsReal(events[..|events| - 1]);
    }
  }

  /** Under every interleaving the stock table is the operation log added up plus what reduces took beyond the stock,
      and it is exactly the log where, and only where, no committed reduce was over-drawn. */
  lemma EveryRunBalances(events: seq<Event>, warehouse: int, product: int)
    requires Play(events).Some? && warehouse > 0
    ensures var s := Play(events).value;
            var stock, log := StockOf(s.now.db.stock, warehouse, product), LogTotal(s.now.db.operations, warehouse, product);
            && Replay(s.history).Success?
            && stock == log + TotalShortfall(s.history, warehouse, product)
            && stock >= log
            && (stock == log <==> !Overdrawn(s.history, warehouse, product))
  {
    EveryRunIsSerial(events);
    EveryRunIsReal(events);
    var history := Play(events).value.history;
    HistoryBalances(history, warehouse, product);
    ShortfallMeansOverdrawn(history, warehouse, product);
  }

  // ---------- Positive stock ----------

  predicate PositiveRows(rows: seq<Item>) {
    forall row | row in rows :: row.count > 0
  }

  /** Every committed request asked for positive counts. */
  predicate PositiveRequests(history: seq<Record>) {
    forall record | record in history && record.Stocked? && Fits(record.task, record.ids) ::
      PositiveRows(Listed(record.task, record.ids))
  }

  lemma {:induction false} PositiveHistory(history: seq<Record>, key: Key)
    requires Replay(history).Success? && PositiveRequests(history)
    ensures var stock := Replay(history).value.stock;
            key in stock ==> stock[key] > 0
  {
    if history != [] {
      var earlier, last := history[..|history| - 1], history[|history| - 1];
      PositiveHistory(earlier, key);
      if last.Stocked? {
        RunIsPointwise(Replay(earlier).value, last.task, last.ids, key);
        ListedDistinct(Replay(earlier).value, last.task, last.ids);
        CountInFinds(Listed(last.task, last.ids), key.product);
      }
    }
  }

  /** With positive requests a row exists exactly when there is stock. */
  lemma EveryRunStaysPositive(events: seq<Event>, key: Key)
    requires Play(events).Some? && PositiveRequests(Play(events).value.history)
    ensures var stock := Play(events).value.now.db.stock;
            && (key in stock <==> StockOf(stock, key.warehouse, key.product) > 0)
            && StockOf(stock, key.warehouse, key.product) >= 0
  {
    EveryRunIsSerial(events);
    PositiveHistory(Play(events).value.history, key);
  }
}
