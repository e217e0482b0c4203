/** A run with all its tables written out: two products come in and some pieces of one are moved. */
module Deliveries {
  import opened Wrappers
  import opened Tables
  import opened WarehouseItems
  import opened Tasks
  import opened Isolation
  import opened Ledger
  import opened Progress
  import opened Outcomes

  const BRING := Create(1, [], [3, 5])
  const BRING_IDS := Ids(7, [11, 12])
  const MOVE := Move(1, 2, [Item(11, 2)])
  const MOVE_IDS := Ids(8, [])

  const BROUGHT := Db(
    {1, 2},
    {11, 12},
    map[7 := Invoice(None, Some(1))],
    map[ItemKey(7, 11) := 3, ItemKey(7, 12) := 5],
    [Operation(7, 11, 1, 3), Operation(7, 12, 1, 5)],
    map[Key(1, 11) := 3, Key(1, 12) := 5],
    {})

  const MOVED := Db(
    {1, 2},
    {11, 12},
    map[7 := Invoice(None, Some(1)), 8 := Invoice(Some(1), Some(2))],
    map[ItemKey(7, 11) := 3, ItemKey(7, 12) := 5, ItemKey(8, 11) := 2],
    [Operation(7, 11, 1, 3), Operation(7, 12, 1, 5), Operation(8, 11, -1, 2), Operation(8, 11, 2, 2)],
    map[Key(1, 11) := 1, Key(1, 12) := 5, Key(2, 11) := 2],
    {})

  /** A task that meets the tables' demands and is in form can be committed wherever no transaction is open. */
  lemma KeyedTaskCommits(events: seq<Event>, txn: nat, task: Task, ids: Ids) returns (done: seq<Event>)
    requires Play(events).Some? && Play(events).value.active == map[]
    requires Fits(task, ids) && Drawable(Play(events).value, ids)
    requires Keyed(Play(events).value.now.db, task, ids) && InForm(Play(events).value.now.db, task, ids)
    ensures Play(done).Some? && Play(done).value.active == map[]
    ensures Play(done).value.history == Play(events).value.history + [Stocked(task, ids)]
    ensures Play(done).value.usedInvoices == Play(events).value.usedInvoices + {ids.invoice}
    ensures Play(done).value.usedProducts == Play(events).value.usedProducts + set id | id in ids.products
    ensures Run(Play(events).value.now.db, task, ids).Success?
    ensures Play(done).value.now.db == Settled(Run(Play(events).value.now.db, task, ids).value)
  {
    hide Play, Run, Keyed, InForm;
    TaskOutcome(Play(events).value.now.db, task, ids);
    done := EveryTaskCanCommit(events, txn, task, ids);
  }

  lemma BringLists()
    ensures Fits(BRING, BRING_IDS) && Listed(BRING, BRING_IDS) == [Item(11, 3), Item(12, 5)]
  {}

  lemma BringIsKeyed(db: Db)
    requires db == EMPTY.(warehouses := {1, 2})
    ensures Fits(BRING, BRING_IDS) && Keyed(db, BRING, BRING_IDS) && InForm(db, BRING, BRING_IDS)
  {
    BringLists();
    hide Listed;
  }

  lemma BringGives(db: Db)
    requires db == EMPTY.(warehouses := {1, 2}) && Fits(BRING, BRING_IDS) && Run(db, BRING, BRING_IDS).Success?
    ensures Settled(Run(db, BRING, BRING_IDS).value) == BROUGHT
  {
    var final, rows := Run(db, BRING, BRING_IDS).value, Listed(BRING, BRING_IDS);
    BringLists();
    OperationsAppended(db, BRING, BRING_IDS);
    hide Run, Listed, PutItems, FireAll;
    ItemsOf(rows);
    OperationsOf(rows);
    forall key ensures Lookup(final.stock, key) == Lookup(BROUGHT.stock, key) {
      RunIsPointwise(db, BRING, BRING_IDS, key);
      CountOf(rows, key.product);
    }
    EqualByLookup(final.stock, BROUGHT.stock);
    assert (set id | id in BRING_IDS.products) == {11, 12};
  }

  lemma CountOf(rows: seq<Item>, product: int)
    requires rows == [Item(11, 3), Item(12, 5)]
    ensures CountIn(rows, product) == if product == 11 then Some(3) else if product == 12 then Some(5) else None
  {
    assert rows[1..] == [Item(12, 5)] && rows[1..][1..] == [];
    assert CountIn([Item(12, 5)], product) == if product == 12 then Some(5) else None;
  }

  lemma ItemsOf(rows: seq<Item>)
    requires rows == [Item(11, 3), Item(12, 5)]
    ensures PutItems(map[], 7, rows) == map[ItemKey(7, 11) := 3, ItemKey(7, 12) := 5]
  {
    assert rows[1..] == [Item(12, 5)] && rows[1..][1..] == [];
    assert PutItems(map[ItemKey(7, 11) := 3], 7, [Item(12, 5)]) == map[ItemKey(7, 11) := 3][ItemKey(7, 12) := 5];
  }

  lemma OperationsOf(rows: seq<Item>)
    requires rows == [Item(11, 3), Item(12, 5)]
    ensures FireAll(7, Invoice(None, Some(1)), rows) == [Operation(7, 11, 1, 3), Operation(7, 12, 1, 5)]
  {
    assert rows[1..] == [Item(12, 5)] && rows[1..][1..] == [];
    assert FireAll(7, Invoice(None, Some(1)), [Item(12, 5)]) == [Operation(7, 12, 1, 5)];
  }

  lemma MoveIsKeyed()
    ensures Fits(MOVE, MOVE_IDS) && Keyed(BROUGHT, MOVE, MOVE_IDS) && InForm(BROUGHT, MOVE, MOVE_IDS)
  {}

  lemma MoveRow(rows: seq<Item>, product: int)
    requires rows == [Item(11, 2)]
    ensures FireAll(8, Invoice(Some(1), Some(2)), rows) == [Operation(8, 11, -1, 2), Operation(8, 11, 2, 2)]
    ensures PutItems(BROUGHT.items, 8, rows) == MOVED.items
    ensures CountIn(rows, product) == if product == 11 then Some(2) else None
  {
    assert rows[1..] == [];
  }

  lemma MoveGives()
    requires Fits(MOVE, MOVE_IDS) && Run(BROUGHT, MOVE, MOVE_IDS).Success?
    ensures Settled(Run(BROUGHT, MOVE, MOVE_IDS).value) == MOVED
  {
    hide Run, PutItems, FireAll, CountIn;
    var final, rows := Run(BROUGHT, MOVE, MOVE_IDS).value, [Item(11, 2)];
    OperationsAppended(BROUGHT, MOVE, MOVE_IDS);
    forall key ensures Lookup(final.stock, key) == Lookup(MOVED.stock, key) {
      RunIsPointwise(BROUGHT, MOVE, MOVE_IDS, key);
      MoveRow(rows, key.product);
    }
    MoveRow(rows, 0);
    EqualByLookup(final.stock, MOVED.stock);
  }

  lemma TwoOpened()
    ensures Play([Open(1), Open(2)]).Some?
    ensures var ready := Play([Open(1), Open(2)]).value;
            && ready.now.db == EMPTY.(warehouses := {1, 2}) && ready.active == map[]
            && ready.usedInvoices == ready.usedProducts == {} && ready.history == [Opened(1), Opened(2)]
  {
    PlayMore([], Open(1));
    assert [] + [Open(1)] == [Open(1)];
    PlayMore([Open(1)], Open(2));
    assert [Open(1)] + [Open(2)] == [Open(1), Open(2)];
  }

  /** Committed one after the other the two tasks leave exactly these tables. */
  lemma MoveCommits() returns (events: seq<Event>)
    ensures Play(events).Some? && Play(events).value.now.db == MOVED
    ensures Play(events).value.history
            == [Opened(1), Opened(2), Stocked(BRING, BRING_IDS), Stocked(MOVE, MOVE_IDS)]
  {
    hide Play, Run, Keyed, InForm;
    TwoOpened();
    var ready := Play([Open(1), Open(2)]).value;
    BringIsKeyed(ready.now.db);
    var brought := KeyedTaskCommits([Open(1), Open(2)], 0, BRING, BRING_IDS);
    BringGives(ready.now.db);
    MoveIsKeyed();
    events := KeyedTaskCommits(brought, 0, MOVE, MOVE_IDS);
    MoveGives();
  }
}
