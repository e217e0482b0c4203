/** The database as the tasks' environment at repeatable read: each transaction reads its snapshot and its own
    writes, writes a stock row only while no other transaction holds it and its committed version is the one the
    snapshot saw, and publishes everything at commit. Every interleaving is a sequence of these events. */
module Isolation {
  import opened Wrappers
  import opened Tables
  import opened Tasks
  import opened Rebase

  /** Committed tables, with the version of every stock row. */
  datatype Snapshot = Snapshot(db: Db, versions: map<Key, nat>)

  /** `ids` are the identity values this transaction is going to draw; no other transaction ever gets them. */
  datatype Txn = Txn(task: Task, ids: Ids, start: Snapshot, locks: set<Key>)

  datatype Record = Opened(warehouse: int) | Stocked(task: Task, ids: Ids)

  datatype State = State(
    now: Snapshot,
    clock: nat,
    usedInvoices: set<int>,
    usedProducts: set<int>,
    active: map<nat, Txn>,
    history: seq<Record>)

  datatype Event =
    | Open(warehouse: int)
    | Begin(txn: nat, task: Task, ids: Ids)
    | Write(txn: nat, key: Key)
    | Commit(txn: nat)
    | Abort(txn: nat)

  const INITIAL := State(Snapshot(EMPTY, map[]), 0, {}, {}, map[], [])

  predicate Drawable(s: State, ids: Ids) {
    && ids.invoice > 0 && ids.invoice !in s.usedInvoices
    && (forall id | id in ids.products :: id > 0 && id !in s.usedProducts)
  }

  predicate Held(s: State, txn: nat, key: Key) {
    exists other | other in s.active :: other != txn && key in s.active[other].locks
  }

  /** The transaction's final view: its task run on its snapshot. */
  function Finish(txn: Txn): Outcome {
    if Fits(txn.task, txn.ids) then Run(txn.start.db, txn.task, txn.ids) else Failure(Error)
  }

  /** The committed state after `txn`, whose final view is `final`. */
  function Publish(now: Snapshot, start: Db, final: Db, stamp: nat): Snapshot {
    Snapshot(Merge(now.db, start, final, final.dirty).(dirty := {}),
             MergeRows(now.versions, map key | key in final.stock :: stamp, final.dirty))
  }

  function DoOpen(s: State, warehouse: int): Option<State> {
    if warehouse <= 0 || warehouse in s.now.db.warehouses then None
    else Some(s.(now := s.now.(db := s.now.db.(warehouses := s.now.db.warehouses + {warehouse})),
                 history := s.history + [Opened(warehouse)]))
  }

  function DoBegin(s: State, txn: nat, task: Task, ids: Ids): Option<State> {
    if txn in s.active || !Fits(task, ids) || !Drawable(s, ids) then None
    else Some(s.(active := s.active[txn := Txn(task, ids, s.now, {})],
                 usedInvoices := s.usedInvoices + {ids.invoice},
                 usedProducts := s.usedProducts + set id | id in ids.products))
  }

  /** A held row makes the writer wait; a row changed since the snapshot ends the transaction. */
  function DoWrite(s: State, txn: nat, key: Key): Option<State> {
    if txn !in s.active || Held(s, txn, key) then None
    else
      var me := s.active[txn];
      if Lookup(me.start.versions, key) != Lookup(s.now.versions, key) then
        Some(s.(active := s.active - {txn}))
      else
        Some(s.(active := s.active[txn := me.(locks := me.locks + {key})]))
  }

  /** A transaction commits when its task succeeded on its snapshot and it holds every row it wrote. */
  function DoCommit(s: State, txn: nat): Option<State> {
    if txn !in s.active then None
    else
      var me := s.active[txn];
      var outcome := Finish(me);
      if outcome.Failure? || !(outcome.value.dirty <= me.locks) then None
      else Some(s.(now := Publish(s.now, me.start.db, outcome.value, s.clock + 1),
                   clock := s.clock + 1,
                   active := s.active - {txn},
                   history := s.history + [Stocked(me.task, me.ids)]))
  }

  /** One event, when it can happen. */
  function Next(s: State, event: Event): Option<State> {
    match event
    case Open(warehouse) => DoOpen(s, warehouse)
    case Begin(txn, task, ids) => DoBegin(s, txn, task, ids)
    case Write(txn, key) => DoWrite(s, txn, key)
    case Commit(txn) => DoCommit(s, txn)
    case Abort(txn) => if txn !in s.active then None else Some(s.(active := s.active - {txn}))
  }

  function Play(events: seq<Event>): Option<State> {
    if events == [] then Some(INITIAL)
    else
      var before := Play(events[..|events| - 1]);
      if before.None? then None else Next(before.value, events[|events| - 1])
  }

  // ---------- The serial reference ----------

  function Settled(db: Db): Db {
    db.(dirty := {})
  }

  function Redo(db: Db, record: Record): Outcome {
    match record
    case Opened(warehouse) => Success(db.(warehouses := db.warehouses + {warehouse}))
    case Stocked(task, ids) =>
      if !Fits(task, ids) then Failure(Error)
      else
        var done :- Run(db, task, ids);
        Success(Settled(done))
  }

  /** The recorded tasks run alone, one after the other, from the empty database. */
  function Replay(history: seq<Record>): Outcome {
    if history == [] then Success(EMPTY)
    else
      var before :- Replay(history[..|history| - 1]);
      Redo(before, history[|history| - 1])
  }

  // ---------- What every event keeps ----------

  ghost predicate Versioned(snapshot: Snapshot, clock: nat) {
    && snapshot.db.dirty == {}
    && snapshot.versions.Keys == snapshot.db.stock.Keys
    && (forall key | key in snapshot.versions :: snapshot.versions[key] <= clock)
  }

  /** A row with the same version has the same content. */
  ghost predicate VersionsTell(earlier: Snapshot, now: Snapshot) {
    forall key | key in earlier.versions && key in now.versions && earlier.versions[key] == now.versions[key] ::
      Lookup(earlier.db.stock, key) == Lookup(now.db.stock, key)
  }

  ghost predicate Grown(start: Db, now: Db) {
    && start.warehouses <= now.warehouses && start.products <= now.products
    && start.invoices.Keys <= now.invoices.Keys && start.items.Keys <= now.items.Keys
  }

  ghost predicate Running(now: Snapshot, clock: nat, invoices: set<int>, products: set<int>, txn: Txn) {
    && Fits(txn.task, txn.ids)
    && Versioned(txn.start, clock) && VersionsTell(txn.start, now)
    && Grown(txn.start.db, now.db) && Unused(now.db, txn.ids)
    && txn.ids.invoice in invoices && (forall id | id in txn.ids.products :: id in products)
    && SameVersions(txn.start, now, txn.locks)
  }

  ghost predicate SameVersions(start: Snapshot, now: Snapshot, rows: set<Key>) {
    forall key | key in rows :: Lookup(start.versions, key) == Lookup(now.versions, key)
  }

  ghost predicate Apart(one: Txn, two: Txn) {
    && one.locks !! two.locks
    && one.ids.invoice != two.ids.invoice
    && (forall id | id in one.ids.products :: id !in two.ids.products)
  }

  ghost predicate Committed(now: Snapshot, clock: nat, invoices: set<int>, products: set<int>) {
    && Versioned(now, clock)
    && now.db.invoices.Keys <= invoices
    && (forall key | key in now.db.items :: key.invoice in invoices)
    && now.db.products <= products
  }

  ghost predicate AllRunning(s: State) {
    forall t | t in s.active :: Running(s.now, s.clock, s.usedInvoices, s.usedProducts, s.active[t])
  }

  ghost predicate AllApart(active: map<nat, Txn>) {
    forall t, u | t in active && u in active && t != u :: Apart(active[t], active[u])
  }

  ghost predicate Inv(s: State) {
    && Committed(s.now, s.clock, s.usedInvoices, s.usedProducts)
    && AllRunning(s)
    && AllApart(s.active)
    && Replay(s.history) == Success(s.now.db)
  }

  lemma ReplayStep(history: seq<Record>, record: Record)
    requires Replay(history).Success?
    ensures Replay(history + [record]) == Redo(Replay(history).value, record)
  {
    assert (history + [record])[..|history|] == history;
  }

  lemma OpenKeepsRunning(s: State, warehouse: int, txn: Txn)
    requires DoOpen(s, warehouse).Some? && Running(s.now, s.clock, s.usedInvoices, s.usedProducts, txn)
    ensures Running(DoOpen(s, warehouse).value.now, s.clock, s.usedInvoices, s.usedProducts, txn)
  {
    hide Fits, Versioned;
  }

  lemma OpenKeeps(s: State, warehouse: int)
    requires Inv(s) && DoOpen(s, warehouse).Some?
    ensures Inv(DoOpen(s, warehouse).value)
  {
    hide Running, Fits;
    ReplayStep(s.history, Opened(warehouse));
    forall txn | txn in s.active
      ensures Running(DoOpen(s, warehouse).value.now, s.clock, s.usedInvoices, s.usedProducts, s.active[txn])
    {
      OpenKeepsRunning(s, warehouse, s.active[txn]);
    }
  }

  lemma BeginKeeps(s: State, txn: nat, task: Task, ids: Ids)
    requires Inv(s) && DoBegin(s, txn, task, ids).Some?
    ensures Inv(DoBegin(s, txn, task, ids).value)
  {
    var next := DoBegin(s, txn, task, ids).value;
    BeginRuns(s, txn, task, ids);
    forall t, u | t in next.active && u in next.active && t != u ensures Apart(next.active[t], next.active[u]) {
      if t in s.active {
        BeginApart(s, s.active[t], ids);
      }
      if u in s.active {
        BeginApart(s, s.active[u], ids);
      }
      assert t in s.active && u in s.active ==> Apart(s.active[t], s.active[u]);
    }
  }

  lemma BeginRuns(s: State, txn: nat, task: Task, ids: Ids)
    requires Inv(s) && DoBegin(s, txn, task, ids).Some?
    ensures AllRunning(DoBegin(s, txn, task, ids).value)
  {
    var next := DoBegin(s, txn, task, ids).value;
    forall t | t in next.active ensures Running(next.now, next.clock, next.usedInvoices, next.usedProducts, next.active[t]) {
      if t != txn {
        assert Running(s.now, s.clock, s.usedInvoices, s.usedProducts, s.active[t]);
      }
    }
  }

  /** New identity values are no running transaction's. */
  lemma BeginApart(s: State, other: Txn, ids: Ids)
    requires Running(s.now, s.clock, s.usedInvoices, s.usedProducts, other) && Drawable(s, ids)
    ensures other.ids.invoice != ids.invoice
    ensures forall id | id in other.ids.products :: id !in ids.products
    ensures forall id | id in ids.products :: id !in other.ids.products
  {}

  lemma WriteKeeps(s: State, txn: nat, key: Key)
    requires Inv(s) && DoWrite(s, txn, key).Some?
    ensures Inv(DoWrite(s, txn, key).value)
  {
    hide Versioned, VersionsTell, Grown, Fits, Committed, Replay;
    var next := DoWrite(s, txn, key).value;
    forall t | t in next.active
      ensures Running(s.now, s.clock, s.usedInvoices, s.usedProducts, next.active[t])
    {
      assert Running(s.now, s.clock, s.usedInvoices, s.usedProducts, s.active[t]);
    }
    if txn in next.active {
      LockedApart(s.active, txn, key);
    }
  }

  lemma LockedApart(active: map<nat, Txn>, txn: nat, key: Key)
    requires txn in active && AllApart(active)
    requires forall other | other in active && other != txn :: key !in active[other].locks
    ensures AllApart(active[txn := active[txn].(locks := active[txn].locks + {key})])
  {
    var after := active[txn := active[txn].(locks := active[txn].locks + {key})];
    forall t, u | t in after && u in after && t != u ensures Apart(after[t], after[u]) {
      assert Apart(active[t], active[u]);
    }
  }

  /** The heart of the protocol: holding every row it wrote, a transaction commits what its task
      would have done alone on the latest committed state. */
  lemma CommitIsSerial(s: State, txn: nat)
    requires Inv(s) && DoCommit(s, txn).Some?
    ensures var me := s.active[txn];
            && Fits(me.task, me.ids)
            && Finish(me).value.dirty == Footprint(me.task, me.ids)
            && Reached(me.start.db, Finish(me).value, me.ids)
            && Redo(s.now.db, Stocked(me.task, me.ids)) == Success(DoCommit(s, txn).value.now.db)
  {
    hide Run, Merge, MergeRows, Footprint, Reached;
    var me := s.active[txn];
    var start, now := me.start.db, s.now.db;
    assert Running(s.now, s.clock, s.usedInvoices, s.usedProducts, me);
    RunRebases(start, start, me.task, me.ids);
    forall key | key in Footprint(me.task, me.ids) ensures Lookup(start.stock, key) == Lookup(now.stock, key) {
      assert Lookup(me.start.versions, key) == Lookup(s.now.versions, key);
    }
    RunRebases(start, now, me.task, me.ids);
  }

  lemma PublishedVersions(s: State, txn: nat)
    requires Inv(s) && DoCommit(s, txn).Some?
    ensures var next := DoCommit(s, txn).value;
            && Versioned(next.now, next.clock)
            && (forall key | key !in Finish(s.active[txn]).value.dirty ::
                  && Lookup(next.now.versions, key) == Lookup(s.now.versions, key)
                  && Lookup(next.now.db.stock, key) == Lookup(s.now.db.stock, key))
            && (forall key | key in Finish(s.active[txn]).value.dirty && key in next.now.versions ::
                  next.now.versions[key] == next.clock)
  {
    hide Run, AllRunning, AllApart, Replay;
    PublishVersions(s.now, s.active[txn].start.db, Finish(s.active[txn]).value, s.clock);
  }

  lemma PublishVersions(now: Snapshot, start: Db, final: Db, clock: nat)
    requires Versioned(now, clock)
    ensures var next := Publish(now, start, final, clock + 1);
            && Versioned(next, clock + 1)
            && (forall key | key !in final.dirty ::
                  && Lookup(next.versions, key) == Lookup(now.versions, key)
                  && Lookup(next.db.stock, key) == Lookup(now.db.stock, key))
            && (forall key | key in final.dirty && key in next.versions :: next.versions[key] == clock + 1)
  {}

  lemma PublishedRows(s: State, txn: nat)
    requires Inv(s) && DoCommit(s, txn).Some?
    ensures var now := DoCommit(s, txn).value.now.db;
            var ids := s.active[txn].ids;
            && Grown(s.now.db, now)
            && (forall id | id in now.invoices :: id in s.now.db.invoices || id == ids.invoice)
            && (forall key | key in now.items :: key in s.now.db.items || key.invoice == ids.invoice)
            && (forall id | id in now.products :: id in s.now.db.products || id in ids.products)
  {
    var me := s.active[txn];
    CommitIsSerial(s, txn);
    var final := Finish(me).value;
    forall id | id in final.invoices - me.start.db.invoices.Keys ensures id == me.ids.invoice {
      assert Lookup(final.invoices, id) != Lookup(me.start.db.invoices, id);
    }
    forall key | key in final.items - me.start.db.items.Keys ensures key.invoice == me.ids.invoice {
      assert Lookup(final.items, key) != Lookup(me.start.db.items, key);
    }
  }

  lemma OthersKeepRunning(s: State, txn: nat, other: nat)
    requires Inv(s) && DoCommit(s, txn).Some?
    requires other in s.active && other != txn
    ensures var next := DoCommit(s, txn).value;
            Running(next.now, next.clock, next.usedInvoices, next.usedProducts, s.active[other])
  {
    var me, you := s.active[txn], s.active[other];
    assert Apart(me, you) && Apart(you, me);
    PublishedVersions(s, txn);
    PublishedRows(s, txn);
  }

  lemma PublishedIsCommitted(s: State, txn: nat)
    requires Inv(s) && DoCommit(s, txn).Some?
    ensures var next := DoCommit(s, txn).value;
            Committed(next.now, next.clock, next.usedInvoices, next.usedProducts)
  {
    var me := s.active[txn];
    assert Running(s.now, s.clock, s.usedInvoices, s.usedProducts, me);
    PublishedVersions(s, txn);
    PublishedRows(s, txn);
    var next := DoCommit(s, txn).value;
    assert forall id | id in next.now.db.invoices :: id in next.usedInvoices;
    assert forall id | id in next.now.db.products :: id in next.usedProducts;
  }

  lemma OthersKeepGoing(s: State, txn: nat)
    requires Inv(s) && DoCommit(s, txn).Some?
    ensures AllRunning(DoCommit(s, txn).value) && AllApart(DoCommit(s, txn).value.active)
  {
    var next := DoCommit(s, txn).value;
    forall t | t in next.active
      ensures Running(next.now, next.clock, next.usedInvoices, next.usedProducts, next.active[t])
    {
      OthersKeepRunning(s, txn, t);
    }
  }

  lemma CommitKeeps(s: State, txn: nat)
    requires Inv(s) && DoCommit(s, txn).Some?
    ensures Inv(DoCommit(s, txn).value)
  {
    PublishedIsCommitted(s, txn);
    OthersKeepGoing(s, txn);
    CommitIsSerial(s, txn);
    ReplayStep(s.history, Stocked(s.active[txn].task, s.active[txn].ids));
  }

  lemma {:induction false} EveryRunKeeps(events: seq<Event>)
    requires Play(events).Some?
    ensures Inv(Play(events).value)
  {
    if events != [] {
      var earlier, event := events[..|events| - 1], events[|events| - 1];
      EveryRunKeeps(earlier);
      var s := Play(earlier).value;
      match event
      case Open(warehouse) => OpenKeeps(s, warehouse);
      case Begin(txn, task, ids) => BeginKeeps(s, txn, task, ids);
      case Write(txn, key) => WriteKeeps(s, txn, key);
      case Commit(txn) => CommitKeeps(s, txn);
      case Abort(txn) =>
    }
  }

  /** After any interleaving the committed tables are those of the committed tasks run alone in commit order. */
  lemma EveryRunIsSerial(events: seq<Event>)
    requires Play(events).Some?
    ensures Replay(Play(events).value.history) == Success(Play(events).value.now.db)
  {
    EveryRunKeeps(events);
  }
}
