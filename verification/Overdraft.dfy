/** A run in which stock and log part: the exception that the balance theorem allows for does happen. */
module Overdraft {
  import opened Wrappers
  import opened Tables
  import opened WarehouseItems
  import opened Tasks
  import opened Isolation
  import opened Ledger
  import opened Progress

  const BRING := Create(1, [], [1])
  const BRING_IDS := Ids(1, [1])
  const TAKE := Remove(1, [Item(1, 2)])
  const TAKE_IDS := Ids(2, [])

  /** The new product and its invoice are in. */
  lemma BringIsInvoiced(db: Db)
    requires db == EMPTY.(warehouses := {1})
    ensures Fits(BRING, BRING_IDS) && Change(db, [], 1, false) == Success(db)
    ensures var invoiced := InsertFullInvoice(db.(products := {1}), 1, InvoiceOf(BRING), Listed(BRING, BRING_IDS));
            && invoiced.Success? && invoiced.value.warehouses == {1} && invoiced.value.products == {1}
            && 2 !in invoiced.value.invoices && (forall key | key in invoiced.value.items :: key.invoice == 1)
            && invoiced.value.stock == map[]
  {
    var rows := NewRows([1], [1]);
    assert rows == [Item(1, 1)] && rows[1..] == [] && Listed(BRING, BRING_IDS) == rows;
    hide Change, RunBatch, FireAll;
    assert Change(db, [], 1, false) == Success(db) by { NothingChanges(db); }
    var invoiced := InsertInvoice(db.(products := {1}), 1, InvoiceOf(BRING)).value;
    assert InsertItems(invoiced, 1, rows).Success?;
    assert PutItems(map[], 1, rows) == map[ItemKey(1, 1) := 1];
  }

  lemma NothingChanges(db: Db)
    ensures Change(db, [], 1, false) == Success(db)
  {}

  lemma ProductAdded(db: Db)
    requires db.products == {}
    ensures InsertProducts(db, BRING_IDS.products) == Success(db.(products := {1}))
  {
    assert BRING_IDS.products == [1] && db.products + (set id | id in [1]) == {1};
  }

  /** One piece of a new product comes in. */
  lemma BringSucceeds(db: Db)
    requires db == EMPTY.(warehouses := {1})
    ensures Fits(BRING, BRING_IDS)
    ensures var done := Run(db, BRING, BRING_IDS);
            done.Success? && done.value.warehouses == {1} && done.value.products == {1} && 2 !in done.value.invoices
            && (forall key | key in done.value.items :: key.invoice == 1)
            && done.value.stock == map[Key(1, 1) := 1]
  {
    hide Change, InsertProducts, InsertFullInvoice;
    BringIsInvoiced(db);
    ProductAdded(db);
    var rows := NewRows([1], [1]);
    assert rows == [Item(1, 1)] && rows[1..] == [];
    assert PutStock(map[], 1, rows) == map[Key(1, 1) := 1];
  }

  /** Two pieces are taken where there is one: the row goes and the task succeeds. */
  lemma TakeSucceeds(db: Db)
    requires db.warehouses == {1} && db.products == {1} && 2 !in db.invoices && db.stock == map[Key(1, 1) := 1]
    requires forall key | key in db.items :: key.invoice == 1
    ensures Fits(TAKE, TAKE_IDS)
    ensures var done := Run(db, TAKE, TAKE_IDS); done.Success? && Key(1, 1) !in done.value.stock
  {
    var rows := [Item(1, 2)];
    assert rows[1..] == [];
    var invoiced := InsertInvoice(db, 2, InvoiceOf(TAKE)).value;
    var itemized := InsertItems(invoiced, 2, rows);
    assert itemized.Success?;
    var stock := itemized.value.stock;
    assert Critical(stock, 1, true, rows[0]);
    assert Batch(stock, 1, true, []) == [] && Targets(stock, 1, true, []) == [];
    assert Batch(stock, 1, true, rows) == rows && Targets(stock, 1, true, rows) == [];
    assert Key(1, 1) in Keys(1, rows);
  }

  lemma Opened()
    ensures Play([Open(1)]).Some?
    ensures var ready := Play([Open(1)]).value;
            ready.now.db == EMPTY.(warehouses := {1}) && ready.active == map[] && ready.usedInvoices == ready.usedProducts == {}
  {
    PlayMore([], Open(1));
    assert [] + [Open(1)] == [Open(1)];
  }

  /** The last task of the history asked for two pieces where there was one. */
  lemma TakeOverdraws(earlier: seq<Record>)
    requires Replay(earlier).Success? && Replay(earlier).value.stock == map[Key(1, 1) := 1]
    requires Replay(earlier + [Stocked(TAKE, TAKE_IDS)]).Success?
    ensures Overdrawn(earlier + [Stocked(TAKE, TAKE_IDS)], 1, 1)
  {
    var history := earlier + [Stocked(TAKE, TAKE_IDS)];
    assert history[..|earlier|] == earlier;
    assert CountIn([Item(1, 2)], 1) == Some(2);
    assert Overdraws(Replay(history[..|earlier|]).value, history[|earlier|].task, 1, 1);
  }

  /** Stock is not the log after this run, because its reduce was over-drawn. */
  lemma StockPartsFromLog() returns (events: seq<Event>)
    ensures Play(events).Some? && Replay(Play(events).value.history).Success?
    ensures Overdrawn(Play(events).value.history, 1, 1)
    ensures var db := Play(events).value.now.db; StockOf(db.stock, 1, 1) != LogTotal(db.operations, 1, 1)
  {
    hide Run, Replay, LogTotal, StockOf, Overdrawn;
    Opened();
    var ready := Play([Open(1)]).value;
    BringSucceeds(ready.now.db);
    var brought := EveryTaskCanCommit([Open(1)], 0, BRING, BRING_IDS);
    var middle := Play(brought).value;
    TakeSucceeds(middle.now.db);
    events := EveryTaskCanCommit(brought, 0, TAKE, TAKE_IDS);
    EveryRunIsSerial(events);
    EveryRunBalances(events, 1, 1);
    EveryRunIsSerial(brought);
    TakeOverdraws(middle.history);
  }
}
