/** WarehouseItem::ChangeCount: read every row, decide, delete or insert in one batch, then update. */
module WarehouseItems {
  import opened Wrappers
  import opened Tables
  import opened Sessions

  /** Rows handled by the batch statement: deleted when reducing, inserted when expanding. */
  predicate Critical(stock: map<Key, int>, warehouse: int, reducing: bool, row: Item) {
    var key := Key(warehouse, row.product);
    if reducing then key in stock && row.count >= stock[key] else key !in stock
  }

  /** The new count of a row that is updated. */
  function Target(stock: map<Key, int>, warehouse: int, reducing: bool, row: Item): Item {
    var before := StockOf(stock, warehouse, row.product);
    Item(row.product, if reducing then before - row.count else before + row.count)
  }

  predicate Missing(stock: map<Key, int>, warehouse: int, rows: seq<Item>) {
    exists row :: row in rows && Key(warehouse, row.product) !in stock
  }

  /** What a row adds to the batch, and what it adds to the updates. */
  function Batched(stock: map<Key, int>, warehouse: int, reducing: bool, row: Item): seq<Item> {
    if Critical(stock, warehouse, reducing, row) then [row] else []
  }

  function Updated(stock: map<Key, int>, warehouse: int, reducing: bool, row: Item): seq<Item> {
    if Critical(stock, warehouse, reducing, row) then [] else [Target(stock, warehouse, reducing, row)]
  }

  function Batch(stock: map<Key, int>, warehouse: int, reducing: bool, rows: seq<Item>): seq<Item> {
    if rows == [] then []
    else Batched(stock, warehouse, reducing, rows[0]) + Batch(stock, warehouse, reducing, rows[1..])
  }

  function Targets(stock: map<Key, int>, warehouse: int, reducing: bool, rows: seq<Item>): seq<Item> {
    if rows == [] then []
    else Updated(stock, warehouse, reducing, rows[0]) + Targets(stock, warehouse, reducing, rows[1..])
  }

  function RunBatch(db: Db, warehouse: int, reducing: bool, batch: seq<Item>): Outcome {
    if batch == [] then Success(db)
    else if reducing then Success(DeleteStock(db, warehouse, batch))
    else InsertStock(db, warehouse, batch)
  }

  /** What ChangeCount does to the view, for any list of products, repeated ones included. */
  function Change(db: Db, rows: seq<Item>, warehouse: int, reducing: bool): Outcome {
    if reducing && Missing(db.stock, warehouse, rows) then
      Failure(Violation)
    else
      var changed :- RunBatch(db, warehouse, reducing, Batch(db.stock, warehouse, reducing, rows));
      UpdateAll(changed, warehouse, Targets(db.stock, warehouse, reducing, rows))
  }

  lemma BatchHead(stock: map<Key, int>, warehouse: int, reducing: bool, rows: seq<Item>)
    requires rows != []
    ensures Batch(stock, warehouse, reducing, rows)
            == Batched(stock, warehouse, reducing, rows[0]) + Batch(stock, warehouse, reducing, rows[1..])
  {}

  lemma {:induction false} BatchSnoc(stock: map<Key, int>, warehouse: int, reducing: bool, rows: seq<Item>, row: Item)
    ensures Batch(stock, warehouse, reducing, rows + [row])
            == Batch(stock, warehouse, reducing, rows) + Batched(stock, warehouse, reducing, row)
  {
    if rows == [] {
      assert rows + [row] == [row];
    } else {
      BatchSnoc(stock, warehouse, reducing, rows[1..], row);
      assert (rows + [row])[1..] == rows[1..] + [row] && (rows + [row])[0] == rows[0];
      BatchHead(stock, warehouse, reducing, rows + [row]);
      BatchHead(stock, warehouse, reducing, rows);
      hide Batch, Batched;
    }
  }

  lemma TargetsHead(stock: map<Key, int>, warehouse: int, reducing: bool, rows: seq<Item>)
    requires rows != []
    ensures Targets(stock, warehouse, reducing, rows)
            == Updated(stock, warehouse, reducing, rows[0]) + Targets(stock, warehouse, reducing, rows[1..])
  {}

  lemma {:induction false} TargetsSnoc(stock: map<Key, int>, warehouse: int, reducing: bool, rows: seq<Item>, row: Item)
    ensures Targets(stock, warehouse, reducing, rows + [row])
            == Targets(stock, warehouse, reducing, rows) + Updated(stock, warehouse, reducing, row)
  {
    if rows == [] {
      assert rows + [row] == [row];
    } else {
      TargetsSnoc(stock, warehouse, reducing, rows[1..], row);
      assert (rows + [row])[1..] == rows[1..] + [row] && (rows + [row])[0] == rows[0];
      TargetsHead(stock, warehouse, reducing, rows + [row]);
      TargetsHead(stock, warehouse, reducing, rows);
      hide Targets, Updated;
    }
  }

  lemma BatchStep(stock: map<Key, int>, warehouse: int, reducing: bool, rows: seq<Item>, i: nat)
    requires i < |rows|
    ensures var batch, targets := Batch(stock, warehouse, reducing, rows[..i]), Targets(stock, warehouse, reducing, rows[..i]);
            (Batch(stock, warehouse, reducing, rows[..i + 1]), Targets(stock, warehouse, reducing, rows[..i + 1]))
            == if Critical(stock, warehouse, reducing, rows[i]) then (batch + [rows[i]], targets)
               else (batch, targets + [Target(stock, warehouse, reducing, rows[i])])
  {
    assert rows[..i + 1] == rows[..i] + [rows[i]];
    BatchSnoc(stock, warehouse, reducing, rows[..i], rows[i]);
    TargetsSnoc(stock, warehouse, reducing, rows[..i], rows[i]);
    assert Batch(stock, warehouse, reducing, rows[..i]) + [] == Batch(stock, warehouse, reducing, rows[..i]);
    assert Targets(stock, warehouse, reducing, rows[..i]) + [] == Targets(stock, warehouse, reducing, rows[..i]);
  }

  method ChangeCount(session: Session, products: seq<Item>, warehouse: int, isReducing: bool)
    returns (fault: Option<Fault>)
    modifies session
    ensures fault == FaultOf(Change(old(session.view), products, warehouse, isReducing))
    ensures fault.None? ==> Success(session.view) == Change(old(session.view), products, warehouse, isReducing)
  {
    if products == [] {
      return None;
    }
    ghost var stock := session.view.stock;
    var critical: seq<Item> := [];
    var toModify: seq<Item> := [];
    assert products[..0] == [] && Batch(stock, warehouse, isReducing, []) == Targets(stock, warehouse, isReducing, []) == [];
    hide Batch, Targets, DeleteStock, InsertStock, UpdateAll;
    for i := 0 to |products|
      invariant session.view == old(session.view)
      invariant critical == Batch(stock, warehouse, isReducing, products[..i])
      invariant toModify == Targets(stock, warehouse, isReducing, products[..i])
      invariant isReducing ==> forall row | row in products[..i] :: Key(warehouse, row.product) in stock
    {
      var product := products[i];
      var count := session.SelectCount(warehouse, product.product);
      if isReducing && count.None? {
        return Some(Violation);
      }
      BatchStep(stock, warehouse, isReducing, products, i);
      if (if isReducing then product.count >= count.value else count.None?) {
        critical := critical + [product];
      } else if isReducing {
        toModify := toModify + [Item(product.product, count.value - product.count)];
      } else {
        toModify := toModify + [Item(product.product, count.value + product.count)];
      }
    }
    assert products[..|products|] == products;
    assert !(isReducing && Missing(stock, warehouse, products));
    hide Missing, Critical, Target;

    if critical != [] {
      if isReducing {
        session.view := DeleteStock(session.view, warehouse, critical);
      } else {
        fault := session.Take(InsertStock(session.view, warehouse, critical));
        if fault.Some? {
          return;
        }
      }
    }
    fault := UpdateEach(session, warehouse, toModify);
  }

  method UpdateEach(session: Session, warehouse: int, targets: seq<Item>) returns (fault: Option<Fault>)
    modifies session
    ensures fault == FaultOf(UpdateAll(old(session.view), warehouse, targets))
    ensures fault.None? ==> Success(session.view) == UpdateAll(old(session.view), warehouse, targets)
  {
    for i := 0 to |targets|
      invariant UpdateAll(old(session.view), warehouse, targets) == UpdateAll(session.view, warehouse, targets[i..])
    {
      fault := session.Take(UpdateStock(session.view, warehouse, targets[i]));
      assert targets[i..][1..] == targets[i + 1..];
      if fault.Some? {
        return;
      }
    }
    fault := None;
  }
}
