/** ChangeCount on distinct products is the pointwise change of one row per product, in any order. */
module ChangeEffect {
  import opened Wrappers
  import opened Tables
  import opened WarehouseItems

  /** The simple form: one product at a time, each seeing the previous ones. */
  function ChangeOne(db: Db, row: Item, warehouse: int, reducing: bool): Outcome {
    if reducing && Key(warehouse, row.product) !in db.stock then Failure(Violation)
    else if !Critical(db.stock, warehouse, reducing, row) then
      UpdateStock(db, warehouse, Target(db.stock, warehouse, reducing, row))
    else if reducing then Success(DeleteStock(db, warehouse, [row]))
    else InsertStock(db, warehouse, [row])
  }

  function ChangeEach(db: Db, rows: seq<Item>, warehouse: int, reducing: bool): Outcome
    decreases |rows|
  {
    if rows == [] then Success(db)
    else
      var next :- ChangeOne(db, rows[0], warehouse, reducing);
      ChangeEach(next, rows[1..], warehouse, reducing)
  }

  /** One product can be changed: its row is there to reduce, or its keys exist to expand. */
  predicate Changeable(db: Db, row: Item, warehouse: int, reducing: bool) {
    var key := Key(warehouse, row.product);
    if reducing then
      key in db.stock && (row.count >= db.stock[key] || InRange(db.stock[key] - row.count))
    else if key in db.stock then
      InRange(db.stock[key] + row.count)
    else
      InRange(row.count) && warehouse in db.warehouses && row.product in db.products
  }

  /** The row after the change; reducing by at least the stock removes it. */
  function NewRow(stock: map<Key, int>, row: Item, warehouse: int, reducing: bool): Option<int> {
    var before := StockOf(stock, warehouse, row.product);
    if !reducing then Some(before + row.count)
    else if row.count >= before then None
    else Some(before - row.count)
  }

  /** `after` is `before` with exactly the rows of the given products changed. */
  ghost predicate Rewritten(before: map<Key, int>, after: map<Key, int>, rows: seq<Item>, warehouse: int, reducing: bool) {
    && (forall row | row in rows ::
          Lookup(after, Key(warehouse, row.product)) == NewRow(before, row, warehouse, reducing))
    && (forall key | key !in Keys(warehouse, rows) :: Lookup(after, key) == Lookup(before, key))
  }

  ghost predicate Changed(db: Db, changed: Db, rows: seq<Item>, warehouse: int, reducing: bool) {
    && changed == db.(stock := changed.stock, dirty := db.dirty + Keys(warehouse, rows))
    && Rewritten(db.stock, changed.stock, rows, warehouse, reducing)
  }

  lemma ChangedOnce(db: Db, one: Db, two: Db, rows: seq<Item>, others: seq<Item>, warehouse: int, reducing: bool)
    requires forall row :: row in rows <==> row in others
    requires Changed(db, one, rows, warehouse, reducing) && Changed(db, two, others, warehouse, reducing)
    ensures one == two
  {
    assert Keys(warehouse, rows) == Keys(warehouse, others);
    forall key ensures Lookup(one.stock, key) == Lookup(two.stock, key) {
      if key in Keys(warehouse, rows) {
        var row :| row in rows && key == Key(warehouse, row.product);
      }
    }
    EqualByLookup(one.stock, two.stock);
  }

  // ---------- The batch form ----------

  lemma {:induction false} BatchMembers(stock: map<Key, int>, warehouse: int, reducing: bool, rows: seq<Item>)
    requires Distinct(rows)
    ensures Distinct(Batch(stock, warehouse, reducing, rows))
    ensures forall row :: row in Batch(stock, warehouse, reducing, rows)
                          <==> row in rows && Critical(stock, warehouse, reducing, row)
  {
    if rows != [] {
      var rest := rows[1..];
      BatchMembers(stock, warehouse, reducing, rest);
      HeadApart(rows, warehouse);
      var tail := Batch(stock, warehouse, reducing, rest);
      forall row | row in tail ensures row.product != rows[0].product {
        assert Key(warehouse, row.product) in Keys(warehouse, rest);
      }
      ConsDistinct(rows[0], tail);
    }
  }

  lemma ConsDistinct(row: Item, rows: seq<Item>)
    requires Distinct(rows) && forall other | other in rows :: other.product != row.product
    ensures Distinct([row] + rows)
  {
    forall i, j | 0 <= i < j < |[row] + rows| ensures ([row] + rows)[i].product != ([row] + rows)[j].product {
      assert ([row] + rows)[j] == rows[j - 1];
    }
  }

  /** The row a target comes from. */
  ghost predicate TargetFrom(stock: map<Key, int>, warehouse: int, reducing: bool, rows: seq<Item>, row: Item, target: Item) {
    row in rows && !Critical(stock, warehouse, reducing, row) && target == Target(stock, warehouse, reducing, row)
  }

  lemma {:induction false} TargetMembers(stock: map<Key, int>, warehouse: int, reducing: bool, rows: seq<Item>)
    requires Distinct(rows)
    ensures var targets := Targets(stock, warehouse, reducing, rows);
            && Distinct(targets)
            && (forall row, target | TargetFrom(stock, warehouse, reducing, rows, row, target) :: target in targets)
            && (forall target | target in targets :: exists row :: TargetFrom(stock, warehouse, reducing, rows, row, target))
  {
    hide Critical;
    if rows != [] {
      var rest := rows[1..];
      TargetMembers(stock, warehouse, reducing, rest);
      HeadApart(rows, warehouse);
      forall target | target in Targets(stock, warehouse, reducing, rest)
        ensures target.product != rows[0].product
        ensures exists row :: TargetFrom(stock, warehouse, reducing, rows, row, target)
      {
        var row :| TargetFrom(stock, warehouse, reducing, rest, row, target);
        assert Key(warehouse, row.product) in Keys(warehouse, rest);
        assert TargetFrom(stock, warehouse, reducing, rows, row, target);
      }
      forall row, target | TargetFrom(stock, warehouse, reducing, rows, row, target)
        ensures target in Targets(stock, warehouse, reducing, rows)
      {
        if row != rows[0] {
          assert TargetFrom(stock, warehouse, reducing, rest, row, target);
        }
      }
      if !Critical(stock, warehouse, reducing, rows[0]) {
        assert TargetFrom(stock, warehouse, reducing, rows, rows[0], Target(stock, warehouse, reducing, rows[0]));
      }
    }
  }

  lemma {:induction false} PutStockEffect(stock: map<Key, int>, warehouse: int, rows: seq<Item>)
    requires Distinct(rows)
    ensures var put := PutStock(stock, warehouse, rows);
            && (forall row | row in rows :: Lookup(put, Key(warehouse, row.product)) == Some(row.count))
            && (forall key | key !in Keys(warehouse, rows) :: Lookup(put, key) == Lookup(stock, key))
    decreases |rows|
  {
    if rows != [] {
      var next := stock[Key(warehouse, rows[0].product) := rows[0].count];
      PutStockEffect(next, warehouse, rows[1..]);
      HeadApart(rows, warehouse);
    }
  }

  lemma HeadApart(rows: seq<Item>, warehouse: int)
    requires rows != [] && Distinct(rows)
    ensures rows == [rows[0]] + rows[1..] && Distinct(rows[1..])
    ensures Key(warehouse, rows[0].product) !in Keys(warehouse, rows[1..])
    ensures Keys(warehouse, rows) == {Key(warehouse, rows[0].product)} + Keys(warehouse, rows[1..])
  {
    assert rows == [rows[0]] + rows[1..];
    assert forall i | 0 <= i < |rows[1..]| :: rows[1..][i] == rows[i + 1];
  }

  lemma {:induction false} UpdateAllEffect(db: Db, warehouse: int, targets: seq<Item>)
    requires Distinct(targets) && Keys(warehouse, targets) <= db.stock.Keys
    ensures var updated := UpdateAll(db, warehouse, targets);
            && (updated.Success? <==> AllInRange(targets))
            && (updated.Success? ==>
                  && updated.value == db.(stock := updated.value.stock, dirty := db.dirty + Keys(warehouse, targets))
                  && (forall target | target in targets ::
                        Lookup(updated.value.stock, Key(warehouse, target.product)) == Some(target.count))
                  && (forall key | key !in Keys(warehouse, targets) ::
                        Lookup(updated.value.stock, key) == Lookup(db.stock, key)))
    decreases |targets|
  {
    if targets != [] {
      HeadApart(targets, warehouse);
      var next := UpdateStock(db, warehouse, targets[0]);
      assert Key(warehouse, targets[0].product) in Keys(warehouse, targets);
      if next.Success? {
        UpdateAllEffect(next.value, warehouse, targets[1..]);
        assert next.value.dirty + Keys(warehouse, targets[1..]) == db.dirty + Keys(warehouse, targets);
      }
    } else {
      assert db.dirty + Keys(warehouse, targets) == db.dirty;
    }
  }

  lemma KeysSplit(stock: map<Key, int>, rows: seq<Item>, warehouse: int, reducing: bool)
    requires Distinct(rows)
    ensures var batch, targets := Batch(stock, warehouse, reducing, rows), Targets(stock, warehouse, reducing, rows);
            && Keys(warehouse, batch) !! Keys(warehouse, targets)
            && Keys(warehouse, rows) == Keys(warehouse, batch) + Keys(warehouse, targets)
  {
    var batch, targets := Batch(stock, warehouse, reducing, rows), Targets(stock, warehouse, reducing, rows);
    BatchMembers(stock, warehouse, reducing, rows);
    TargetMembers(stock, warehouse, reducing, rows);
    forall row | row in rows
      ensures Key(warehouse, row.product) in Keys(warehouse, batch) + Keys(warehouse, targets)
    {
      if !Critical(stock, warehouse, reducing, row) {
        assert TargetFrom(stock, warehouse, reducing, rows, row, Target(stock, warehouse, reducing, row));
      }
    }
    forall target | target in targets
      ensures Key(warehouse, target.product) in Keys(warehouse, rows) - Keys(warehouse, batch)
    {
      var row :| TargetFrom(stock, warehouse, reducing, rows, row, target);
    }
  }

  /** The batch statement, row by row. */
  lemma BatchEffect(db: Db, rows: seq<Item>, warehouse: int, reducing: bool)
    requires Distinct(rows) && !(reducing && Missing(db.stock, warehouse, rows))
    ensures var batch := Batch(db.stock, warehouse, reducing, rows);
            var middle := RunBatch(db, warehouse, reducing, batch);
            && (middle.Success? <==> forall row | row in batch :: Changeable(db, row, warehouse, reducing))
            && (middle.Success? ==> Changed(db, middle.value, batch, warehouse, reducing))
  {
    var batch := Batch(db.stock, warehouse, reducing, rows);
    BatchMembers(db.stock, warehouse, reducing, rows);
    PutStockEffect(db.stock, warehouse, batch);
    if batch == [] {
      assert db.dirty + Keys(warehouse, batch) == db.dirty;
    } else if reducing {
      assert Keys(warehouse, batch) * db.stock.Keys == Keys(warehouse, batch);
    }
  }

  /** The batch succeeds exactly when every product can be changed, and changes each row once. */
  lemma ChangeIsPointwise(db: Db, rows: seq<Item>, warehouse: int, reducing: bool)
    requires Distinct(rows)
    ensures var changed := Change(db, rows, warehouse, reducing);
            && (changed.Success? <==> forall row | row in rows :: Changeable(db, row, warehouse, reducing))
            && (changed.Success? ==> Changed(db, changed.value, rows, warehouse, reducing))
  {
    if reducing && Missing(db.stock, warehouse, rows) {
    } else {
      BatchEffect(db, rows, warehouse, reducing);
      BatchMembers(db.stock, warehouse, reducing, rows);
      var middle := RunBatch(db, warehouse, reducing, Batch(db.stock, warehouse, reducing, rows));
      if middle.Success? {
        UpdatesEffect(db, middle.value, rows, warehouse, reducing);
      }
    }
  }

  /** The updates after the batch, row by row. */
  lemma UpdatesEffect(db: Db, middle: Db, rows: seq<Item>, warehouse: int, reducing: bool)
    requires Distinct(rows) && !(reducing && Missing(db.stock, warehouse, rows))
    requires Changed(db, middle, Batch(db.stock, warehouse, reducing, rows), warehouse, reducing)
    ensures var updated := UpdateAll(middle, warehouse, Targets(db.stock, warehouse, reducing, rows));
            && (updated.Success? <==> forall row | row in rows && !Critical(db.stock, warehouse, reducing, row) ::
                                        Changeable(db, row, warehouse, reducing))
            && (updated.Success? ==> Changed(db, updated.value, rows, warehouse, reducing))
  {
    var batch, targets := Batch(db.stock, warehouse, reducing, rows), Targets(db.stock, warehouse, reducing, rows);
    TargetsThere(db, middle, rows, warehouse, reducing);
    UpdateAllEffect(middle, warehouse, targets);
    TargetsInRange(db, rows, warehouse, reducing);
    var updated := UpdateAll(middle, warehouse, targets);
    if updated.Success? {
      KeysSplit(db.stock, rows, warehouse, reducing);
      assert updated.value.dirty == db.dirty + Keys(warehouse, rows);
      forall row | row in rows
        ensures Lookup(updated.value.stock, Key(warehouse, row.product)) == NewRow(db.stock, row, warehouse, reducing)
      {
        UpdatedRow(db, middle, updated.value, rows, row, warehouse, reducing);
      }
    }
  }

  lemma TargetsThere(db: Db, middle: Db, rows: seq<Item>, warehouse: int, reducing: bool)
    requires Distinct(rows) && !(reducing && Missing(db.stock, warehouse, rows))
    requires Changed(db, middle, Batch(db.stock, warehouse, reducing, rows), warehouse, reducing)
    ensures Distinct(Targets(db.stock, warehouse, reducing, rows))
    ensures Keys(warehouse, Targets(db.stock, warehouse, reducing, rows)) <= middle.stock.Keys
  {
    var targets := Targets(db.stock, warehouse, reducing, rows);
    TargetMembers(db.stock, warehouse, reducing, rows);
    KeysSplit(db.stock, rows, warehouse, reducing);
    forall target | target in targets ensures Key(warehouse, target.product) in middle.stock {
      var row :| TargetFrom(db.stock, warehouse, reducing, rows, row, target);
      var key := Key(warehouse, target.product);
      assert key in Keys(warehouse, targets);
      assert Lookup(middle.stock, key) == Lookup(db.stock, key);
    }
  }

  lemma TargetsInRange(db: Db, rows: seq<Item>, warehouse: int, reducing: bool)
    requires Distinct(rows) && !(reducing && Missing(db.stock, warehouse, rows))
    ensures AllInRange(Targets(db.stock, warehouse, reducing, rows))
            <==> forall row | row in rows && !Critical(db.stock, warehouse, reducing, row) ::
                   Changeable(db, row, warehouse, reducing)
  {
    var targets := Targets(db.stock, warehouse, reducing, rows);
    TargetMembers(db.stock, warehouse, reducing, rows);
    forall row | row in rows && !Critical(db.stock, warehouse, reducing, row)
      ensures Target(db.stock, warehouse, reducing, row) in targets
    {
      assert TargetFrom(db.stock, warehouse, reducing, rows, row, Target(db.stock, warehouse, reducing, row));
    }
    if forall row | row in rows && !Critical(db.stock, warehouse, reducing, row) :: Changeable(db, row, warehouse, reducing) {
      forall target | target in targets ensures InRange(target.count) {
        var row :| TargetFrom(db.stock, warehouse, reducing, rows, row, target);
        assert Changeable(db, row, warehouse, reducing);
      }
    } else {
      var row :| row in rows && !Critical(db.stock, warehouse, reducing, row) && !Changeable(db, row, warehouse, reducing);
      assert !InRange(Target(db.stock, warehouse, reducing, row).count);
    }
  }

  lemma UpdatedRow(db: Db, middle: Db, updated: Db, rows: seq<Item>, row: Item, warehouse: int, reducing: bool)
    requires Distinct(rows) && row in rows && !(reducing && Missing(db.stock, warehouse, rows))
    requires Changed(db, middle, Batch(db.stock, warehouse, reducing, rows), warehouse, reducing)
    requires var targets := Targets(db.stock, warehouse, reducing, rows);
             && (forall target | target in targets ::
                   Lookup(updated.stock, Key(warehouse, target.product)) == Some(target.count))
             && (forall key | key !in Keys(warehouse, targets) :: Lookup(updated.stock, key) == Lookup(middle.stock, key))
    ensures Lookup(updated.stock, Key(warehouse, row.product)) == NewRow(db.stock, row, warehouse, reducing)
  {
    var key := Key(warehouse, row.product);
    if Critical(db.stock, warehouse, reducing, row) {
      BatchMembers(db.stock, warehouse, reducing, rows);
      KeysSplit(db.stock, rows, warehouse, reducing);
      assert key in Keys(warehouse, Batch(db.stock, warehouse, reducing, rows));
    } else {
      TargetMembers(db.stock, warehouse, reducing, rows);
      assert TargetFrom(db.stock, warehouse, reducing, rows, row, Target(db.stock, warehouse, reducing, row));
    }
  }

  // ---------- The simple form ----------

  lemma {:induction false} ChangeEachIsPointwise(db: Db, rows: seq<Item>, warehouse: int, reducing: bool)
    requires Distinct(rows)
    ensures var changed := ChangeEach(db, rows, warehouse, reducing);
            && (changed.Success? <==> forall row | row in rows :: Changeable(db, row, warehouse, reducing))
            && (changed.Success? ==> Changed(db, changed.value, rows, warehouse, reducing))
    decreases |rows|
  {
    if rows == [] {
      assert db.dirty + Keys(warehouse, rows) == db.dirty;
    } else {
      HeadApart(rows, warehouse);
      ChangeOneEffect(db, rows[0], warehouse, reducing);
      var next := ChangeOne(db, rows[0], warehouse, reducing);
      if next.Success? {
        var rest := rows[1..];
        ChangeEachIsPointwise(next.value, rest, warehouse, reducing);
        RestUnmoved(db, next.value, rest, warehouse, reducing);
        var last := ChangeEach(next.value, rest, warehouse, reducing);
        if last.Success? {
          HeadThenRest(db, next.value, last.value, rows, warehouse, reducing);
        }
      }
    }
  }

  /** Rows that one change leaves alone keep their conditions and their targets. */
  lemma RestUnmoved(db: Db, next: Db, rest: seq<Item>, warehouse: int, reducing: bool)
    requires next == db.(stock := next.stock, dirty := next.dirty)
    requires forall key | key in Keys(warehouse, rest) :: Lookup(next.stock, key) == Lookup(db.stock, key)
    ensures forall row | row in rest ::
              && NewRow(next.stock, row, warehouse, reducing) == NewRow(db.stock, row, warehouse, reducing)
              && (Changeable(next, row, warehouse, reducing) <==> Changeable(db, row, warehouse, reducing))
  {
    forall row | row in rest
      ensures Lookup(next.stock, Key(warehouse, row.product)) == Lookup(db.stock, Key(warehouse, row.product))
    {
      assert Key(warehouse, row.product) in Keys(warehouse, rest);
    }
  }

  lemma HeadThenRest(db: Db, next: Db, last: Db, rows: seq<Item>, warehouse: int, reducing: bool)
    requires rows != [] && Distinct(rows)
    requires next == db.(stock := next.stock, dirty := db.dirty + {Key(warehouse, rows[0].product)})
    requires forall key :: Lookup(next.stock, key) ==
                           if key == Key(warehouse, rows[0].product) then NewRow(db.stock, rows[0], warehouse, reducing)
                           else Lookup(db.stock, key)
    requires Changed(next, last, rows[1..], warehouse, reducing)
    ensures Changed(db, last, rows, warehouse, reducing)
  {
    var rest := rows[1..];
    HeadApart(rows, warehouse);
    RestUnmoved(db, next, rest, warehouse, reducing);
    assert next.dirty + Keys(warehouse, rest) == db.dirty + Keys(warehouse, rows);
    forall row | row in rows
      ensures Lookup(last.stock, Key(warehouse, row.product)) == NewRow(db.stock, row, warehouse, reducing)
    {
      if row !in rest {
        assert row == rows[0];
      }
    }
  }

  lemma ChangeOneEffect(db: Db, row: Item, warehouse: int, reducing: bool)
    ensures var changed := ChangeOne(db, row, warehouse, reducing);
            && (changed.Success? <==> Changeable(db, row, warehouse, reducing))
            && (changed.Success? ==>
                  && changed.value == db.(stock := changed.value.stock, dirty := db.dirty + {Key(warehouse, row.product)})
                  && (forall key :: Lookup(changed.value.stock, key) ==
                                    if key == Key(warehouse, row.product) then NewRow(db.stock, row, warehouse, reducing)
                                    else Lookup(db.stock, key)))
  {
    assert Keys(warehouse, [row]) == {Key(warehouse, row.product)};
    PutStockEffect(db.stock, warehouse, [row]);
  }

  /** On distinct products the batch and the one-by-one form agree, whatever order each takes them in. */
  lemma BatchIsOneByOneInAnyOrder(db: Db, rows: seq<Item>, others: seq<Item>, warehouse: int, reducing: bool)
    requires Distinct(rows) && multiset(rows) == multiset(others)
    ensures Change(db, rows, warehouse, reducing).ToOption() == ChangeEach(db, others, warehouse, reducing).ToOption()
  {
    SameRows(rows, others);
    ChangeIsPointwise(db, rows, warehouse, reducing);
    ChangeEachIsPointwise(db, others, warehouse, reducing);
    var batch, each := Change(db, rows, warehouse, reducing), ChangeEach(db, others, warehouse, reducing);
    if batch.Success? {
      ChangedOnce(db, batch.value, each.value, rows, others, warehouse, reducing);
    }
  }

  lemma SameRows(rows: seq<Item>, others: seq<Item>)
    requires Distinct(rows) && multiset(rows) == multiset(others)
    ensures Distinct(others) && forall row :: row in rows <==> row in others
  {
    forall row ensures row in rows <==> row in others {
      assert row in multiset(rows) <==> row in multiset(others);
    }
    forall i, j | 0 <= i < j < |others| ensures others[i].product != others[j].product {
      assert others[i] in rows && others[j] in rows;
      if others[i] == others[j] {
        OnceOnly(rows, others[i]);
        Twice(others, i, j);
        assert false;
      }
    }
  }

  lemma Twice(rows: seq<Item>, i: nat, j: nat)
    requires i < j < |rows| && rows[i] == rows[j]
    ensures multiset(rows)[rows[i]] >= 2
  {
    assert rows == rows[..i] + [rows[i]] + rows[i + 1..j] + [rows[j]] + rows[j + 1..];
  }

  lemma {:induction false} OnceOnly(rows: seq<Item>, row: Item)
    requires Distinct(rows)
    ensures multiset(rows)[row] <= 1
  {
    if rows != [] {
      HeadApart(rows, 0);
      OnceOnly(rows[1..], row);
      assert forall other | other in rows[1..] :: Key(0, other.product) in Keys(0, rows[1..]);
    }
  }
}
