/** The statements ChangeCount sends, as texts with parameters, select exactly the rows the stock model changes. */
module StockQueries {
  import opened Wrappers
  import opened Texts
  import opened Conditions
  import opened Meanings
  import opened Queries
  import opened QueryEquality
  import P = Parsing
  import T = Tables

  const PRODUCT_ID: Column := "product_id"
  const WAREHOUSE_ID: Column := "warehouse_id"
  const COUNT: Column := "count"
  const WAREHOUSE_ITEM: Table := "Warehouse_Item"

  /** Integers are sent as their decimal text. */
  function Number(n: int): string {
    PutNumber(n, "")
  }

  lemma NumberTells(a: int, b: int)
    ensures Number(a) == Number(b) <==> a == b
  {
    ReadOwnNumber(a, "");
    ReadOwnNumber(b, "");
  }

  lemma NumberIsNoNull(n: int)
    ensures Number(n) != "NULL"
  {
    ReadOwnNumber(n, "");
    assert ReadNumber("NULL").None?;
  }

  /** A stock row as the database compares it. */
  function StockRow(key: T.Key, count: int): Row {
    map["product_id" := Some(Number(key.product)), "warehouse_id" := Some(Number(key.warehouse)), "count" := Some(Number(count))]
  }

  /** Values are equal when they are the same number. */
  ghost predicate ComparesNumbers(order: Order) {
    forall a, b :: order(Equal, a, b) <==> a == b
  }

  function InWarehouse(warehouse: int): Condition {
    Real(WAREHOUSE_ID, Equal, Number(warehouse))
  }

  /** One product in one warehouse: what the reads and the updates ask for. */
  function OneRow(warehouse: int, product: int): (c: Condition)
    ensures Printable(c)
  {
    Group(AND, [Real(PRODUCT_ID, Equal, Number(product)), InWarehouse(warehouse)])
  }

  function Numbers(rows: seq<T.Item>): seq<string> {
    seq(|rows|, i requires 0 <= i < |rows| => Number(rows[i].product))
  }

  /** Some products in one warehouse: what the batch delete asks for. */
  function SomeRows(warehouse: int, rows: seq<T.Item>): (c: Condition)
    ensures Printable(c) <==> rows != []
  {
    assert rows != [] <==> Numbers(rows) != [];
    assert In(PRODUCT_ID, Numbers(rows)) in [In(PRODUCT_ID, Numbers(rows)), InWarehouse(warehouse)];
    Group(AND, [In(PRODUCT_ID, Numbers(rows)), InWarehouse(warehouse)])
  }

  function ReadQuery(warehouse: int, product: int): Options {
    Select(WAREHOUSE_ITEM, [COUNT], [], Some(OneRow(warehouse, product)), None, ASC, None, None)
  }

  function DeleteQuery(warehouse: int, rows: seq<T.Item>): Options {
    Delete(WAREHOUSE_ITEM, Some(SomeRows(warehouse, rows)))
  }

  function UpdateQuery(warehouse: int, product: int): Options {
    Update(WAREHOUSE_ITEM, [COUNT], Some(OneRow(warehouse, product)))
  }

  lemma InWarehouseSelects(warehouse: int, key: T.Key, count: int, order: Order)
    requires ComparesNumbers(order)
    ensures Meaning(InWarehouse(warehouse), StockRow(key, count), order) == True <==> key.warehouse == warehouse
  {
    NumberTells(key.warehouse, warehouse);
  }

  lemma OneRowSelects(warehouse: int, product: int, key: T.Key, count: int, order: Order)
    requires ComparesNumbers(order)
    ensures Meaning(OneRow(warehouse, product), StockRow(key, count), order) == True <==> key == T.Key(warehouse, product)
  {
    var parts := OneRow(warehouse, product).conditions;
    AndMeansAll(parts, StockRow(key, count), order);
    InWarehouseSelects(warehouse, key, count, order);
    NumberTells(key.product, product);
    assert forall part | part in parts :: part == parts[0] || part == parts[1];
    assert parts[0] in parts && parts[1] in parts;
  }

  lemma SomeRowsSelects(warehouse: int, rows: seq<T.Item>, key: T.Key, count: int, order: Order)
    requires ComparesNumbers(order) && rows != []
    ensures Meaning(SomeRows(warehouse, rows), StockRow(key, count), order) == True <==> key in T.Keys(warehouse, rows)
  {
    var parts := SomeRows(warehouse, rows).conditions;
    AndMeansAll(parts, StockRow(key, count), order);
    InWarehouseSelects(warehouse, key, count, order);
    AnyEqualFinds(order, Number(key.product), Numbers(rows));
    assert forall part | part in parts :: part == parts[0] || part == parts[1];
    assert parts[0] in parts && parts[1] in parts;
    if row :| row in rows && row.product == key.product {
      var i :| 0 <= i < |rows| && rows[i] == row;
      assert Numbers(rows)[i] in Numbers(rows);
    }
    if value :| value in Numbers(rows) && order(Equal, Number(key.product), value) {
      var i :| 0 <= i < |rows| && Numbers(rows)[i] == value;
      NumberTells(key.product, rows[i].product);
      assert rows[i] in rows;
    }
  }

  lemma NoNulls(warehouse: int, rows: seq<T.Item>, product: int)
    ensures "NULL" !in Params(OneRow(warehouse, product)) && "NULL" !in Params(SomeRows(warehouse, rows))
  {
    NumberIsNoNull(warehouse);
    NumberIsNoNull(product);
    forall i | 0 <= i < |rows| ensures Numbers(rows)[i] != "NULL" {
      NumberIsNoNull(rows[i].product);
    }
    OneRowParams(warehouse, product);
    SomeRowsParams(warehouse, rows);
  }

  lemma OneRowParams(warehouse: int, product: int)
    ensures Params(OneRow(warehouse, product)) == [Number(product), Number(warehouse)]
  {
    var parts := OneRow(warehouse, product).conditions;
    assert parts[1..] == [parts[1]];
    assert AllParams(parts[1..]) == Params(parts[1]) + AllParams(parts[1..][1..]);
    assert AllParams(parts) == Params(parts[0]) + AllParams(parts[1..]);
  }

  lemma SomeRowsParams(warehouse: int, rows: seq<T.Item>)
    ensures Params(SomeRows(warehouse, rows)) == Numbers(rows) + [Number(warehouse)]
  {
    var parts := SomeRows(warehouse, rows).conditions;
    assert parts[1..] == [parts[1]];
    assert AllParams(parts[1..]) == Params(parts[1]) + AllParams(parts[1..][1..]);
    assert AllParams(parts) == Params(parts[0]) + AllParams(parts[1..]);
  }

  /** What the text of a query with these parameters says about a stock row. */
  function Selects(o: Options, params: seq<string>, key: T.Key, count: int, order: Order): Truth
    requires Serializable(o)
  {
    match ReadStatement(Serialized(o, 1))
    case None => Unknown
    case Some(statement) =>
      if statement.InsertStatement? || statement.condition.None? then Unknown
      else Evaluate(statement.condition.value, StockRow(key, count), Bind(params), order)
  }

  /** The read asks for exactly the row of its product and warehouse. */
  lemma ReadSelects(warehouse: int, product: int, key: T.Key, count: int, order: Order)
    requires ComparesNumbers(order)
    ensures Selects(ReadQuery(warehouse, product), [Number(product), Number(warehouse)], key, count, order) == True
            <==> key == T.Key(warehouse, product)
    ensures var statement := ReadStatement(Serialized(ReadQuery(warehouse, product), 1));
            && statement.Some? && statement.value.SelectStatement? && statement.value.table == "Warehouse_Item"
            && statement.value.selected == [ParsedColumn(None, "count")] && statement.value.joins == []
            && statement.value.order == None && statement.value.limit == statement.value.offset == None
  {
    P.SelectSays(ReadQuery(warehouse, product), 1);
    NoNulls(warehouse, [], product);
    OneRowParams(warehouse, product);
    WhereAligns(ReadQuery(warehouse, product), StockRow(key, count), order);
    OneRowSelects(warehouse, product, key, count, order);
  }

  /** The batch delete removes exactly the rows that the model's delete removes. */
  lemma DeleteRemoves(db: T.Db, warehouse: int, rows: seq<T.Item>, order: Order)
    requires ComparesNumbers(order) && rows != []
    ensures var o, params := DeleteQuery(warehouse, rows), Numbers(rows) + [Number(warehouse)];
            T.DeleteStock(db, warehouse, rows).stock
            == map key | key in db.stock && Selects(o, params, key, db.stock[key], order) != True :: db.stock[key]
    ensures var statement := ReadStatement(Serialized(DeleteQuery(warehouse, rows), 1));
            statement.Some? && statement.value.DeleteStatement? && statement.value.table == "Warehouse_Item"
  {
    P.DeleteSays(DeleteQuery(warehouse, rows), 1);
    var o, params := DeleteQuery(warehouse, rows), Numbers(rows) + [Number(warehouse)];
    NoNulls(warehouse, rows, 0);
    SomeRowsParams(warehouse, rows);
    forall key | key in db.stock
      ensures Selects(o, params, key, db.stock[key], order) == True <==> key in T.Keys(warehouse, rows)
    {
      WhereAligns(o, StockRow(key, db.stock[key]), order);
      SomeRowsSelects(warehouse, rows, key, db.stock[key], order);
    }
  }

  /** The update sets the count, and of exactly the row the model's update sets. */
  lemma UpdateSets(warehouse: int, target: T.Item, key: T.Key, count: int, order: Order)
    requires ComparesNumbers(order)
    ensures var o := UpdateQuery(warehouse, target.product);
            var params := [Number(target.count), Number(target.product), Number(warehouse)];
            var statement := ReadStatement(Serialized(o, 1));
            && statement.Some? && statement.value.UpdateStatement? && statement.value.table == "Warehouse_Item"
            && statement.value.sets == [("count", 1)]
            && Param(Bind(params), 1) == Some(Number(target.count))
            && (Selects(o, params, key, count, order) == True <==> key == T.Key(warehouse, target.product))
  {
    var o := UpdateQuery(warehouse, target.product);
    P.UpdateSays(o, 1);
    NoNulls(warehouse, [], target.product);
    NumberIsNoNull(target.count);
    OneRowParams(warehouse, target.product);
    var values := [Number(target.count)];
    assert values + Params(o.condition.value) == [Number(target.count), Number(target.product), Number(warehouse)];
    UpdateAligns(o, values, StockRow(key, count), order);
    OneRowSelects(warehouse, target.product, key, count, order);
    assert MarkedSets(o.columns, 1) == [("count", 1)];
  }

  // ---------- The batch insert ----------

  function InsertQuery(n: nat): Options {
    Insert(WAREHOUSE_ITEM, [WAREHOUSE_ID, PRODUCT_ID, COUNT], [], n)
  }

  /** The values of each row, in the order of the columns. */
  function SentRows(warehouse: int, rows: seq<T.Item>): seq<seq<string>> {
    seq(|rows|, i requires 0 <= i < |rows| => [Number(warehouse), Number(rows[i].product), Number(rows[i].count)])
  }

  /** The value a row of an INSERT gives to a column. */
  function Field(columns: seq<string>, marks: seq<nat>, params: seq<Option<string>>, name: string): Option<string> {
    if columns == [] || marks == [] then None
    else if columns[0] == name then Param(params, marks[0])
    else Field(columns[1..], marks[1..], params, name)
  }

  function NumberIn(text: Option<string>): int {
    if text.Some? && ReadNumber(text.value).Some? then ReadNumber(text.value).value.0 else 0
  }

  /** What an INSERT puts into the stock table, row after row. */
  function Inserted(stock: map<T.Key, int>, columns: seq<string>, rows: seq<seq<nat>>, params: seq<Option<string>>): map<T.Key, int>
    decreases |rows|
  {
    if rows == [] then stock
    else
      var key := T.Key(NumberIn(Field(columns, rows[0], params, "warehouse_id")),
                       NumberIn(Field(columns, rows[0], params, "product_id")));
      var count := NumberIn(Field(columns, rows[0], params, "count"));
      Inserted(stock[key := count], columns, rows[1..], params)
  }

  lemma NumberReads(n: int)
    ensures NumberIn(Rendered(Number(n))) == n
  {
    NumberIsNoNull(n);
    ReadOwnNumber(n, "");
  }

  lemma FieldsOf(columns: seq<string>, marks: seq<nat>, params: seq<Option<string>>)
    requires columns == ["warehouse_id", "product_id", "count"] && |marks| == 3
    ensures Field(columns, marks, params, "warehouse_id") == Param(params, marks[0])
    ensures Field(columns, marks, params, "product_id") == Param(params, marks[1])
    ensures Field(columns, marks, params, "count") == Param(params, marks[2])
  {
    assert columns[1..][0] == "product_id" && columns[1..][1..][0] == "count";
    assert columns[0] != "product_id" && columns[0] != "count" && columns[1] != "count";
    assert Field(columns[1..][1..], marks[1..][1..], params, "count") == Param(params, marks[2]);
    assert Field(columns[1..], marks[1..], params, "count") == Param(params, marks[2]);
  }

  /** Row i of the statement carries the numbers of item i. */
  lemma RowCarries(warehouse: int, rows: seq<T.Item>, i: nat)
    requires i < |rows|
    ensures var marks := MarkRows(1, 3, |rows|)[i];
            var params := Bind(Concat(SentRows(warehouse, rows)));
            && |marks| == 3
            && NumberIn(Param(params, marks[0])) == warehouse
            && NumberIn(Param(params, marks[1])) == rows[i].product
            && NumberIn(Param(params, marks[2])) == rows[i].count
  {
    var sent := SentRows(warehouse, rows);
    RowsAlign(sent, 3, i, 0);
    RowsAlign(sent, 3, i, 1);
    RowsAlign(sent, 3, i, 2);
    NumberReads(warehouse);
    NumberReads(rows[i].product);
    NumberReads(rows[i].count);
  }

  lemma {:induction false} InsertsFrom(stock: map<T.Key, int>, warehouse: int, rows: seq<T.Item>, i: nat)
    requires i <= |rows|
    ensures Inserted(stock, ["warehouse_id", "product_id", "count"], MarkRows(1, 3, |rows|)[i..], Bind(Concat(SentRows(warehouse, rows))))
            == T.PutStock(stock, warehouse, rows[i..])
    decreases |rows| - i
  {
    if i < |rows| {
      var marks := MarkRows(1, 3, |rows|);
      var params := Bind(Concat(SentRows(warehouse, rows)));
      RowCarries(warehouse, rows, i);
      FieldsOf(["warehouse_id", "product_id", "count"], marks[i], params);
      assert marks[i..][0] == marks[i] && marks[i..][1..] == marks[i + 1..];
      assert rows[i..][0] == rows[i] && rows[i..][1..] == rows[i + 1..];
      InsertsFrom(stock[T.Key(warehouse, rows[i].product) := rows[i].count], warehouse, rows, i + 1);
    } else {
      assert MarkRows(1, 3, |rows|)[i..] == [];
    }
  }

  /** The batch insert puts exactly the rows the model's insert puts. */
  lemma InsertPuts(stock: map<T.Key, int>, warehouse: int, rows: seq<T.Item>)
    requires rows != []
    ensures var o := InsertQuery(|rows|);
            var statement := ReadStatement(Serialized(o, 1));
            && statement.Some? && statement.value.InsertStatement? && statement.value.table == "Warehouse_Item"
            && Inserted(stock, statement.value.columns, statement.value.rows, Bind(Concat(SentRows(warehouse, rows))))
               == T.PutStock(stock, warehouse, rows)
  {
    hide ReadStatement, Serialized;
    var o := InsertQuery(|rows|);
    P.ReadsStatement(o, 1);
    InsertsFrom(stock, warehouse, rows, 0);
    assert Names(o.columns) == ["warehouse_id", "product_id", "count"];
    assert MarkRows(1, 3, |rows|)[0..] == MarkRows(1, 3, |rows|) && rows[0..] == rows;
  }
}
