/** SerializeParametrized of the four kinds of queries, and the parameters each query is built with. */
module QuerySerializing {
  import opened Wrappers
  import opened Texts
  import opened Conditions
  import opened Queries
  import opened Serializing

  // ---------- Lists ----------

  function Separated(parts: seq<string>): string
    decreases |parts|
  {
    if parts == [] then "" else if |parts| == 1 then parts[0] else parts[0] + (", " + Separated(parts[1..]))
  }

  method Together(parts: seq<string>) returns (text: string)
    ensures text == Separated(parts)
  {
    if parts == [] {
      return "";
    }
    text := "";
    for i := 0 to |parts| - 1
      invariant text + Separated(parts[i..]) == Separated(parts)
    {
      var rest := Separated(parts[i + 1..]);
      assert parts[i..][1..] == parts[i + 1..];
      Assoc(text, parts[i], ", " + rest);
      Assoc(text + parts[i], ", ", rest);
      text := text + parts[i] + ", ";
    }
    text := text + parts[|parts| - 1];
  }

  lemma SeparatedAppends(first: string, others: string, rest: string)
    ensures first + (", " + (others + rest)) == (first + (", " + others)) + rest
  {
    Assoc(", ", others, rest);
    Assoc(first, ", " + others, rest);
  }

  lemma OneMoreSeparated(first: string, texts: seq<string>, others: string, rest: string)
    requires texts != [] && others == Separated(texts) + rest
    ensures first + (", " + others) == Separated([first] + texts) + rest
  {
    assert ([first] + texts)[1..] == texts;
    SeparatedAppends(first, Separated(texts), rest);
  }

  lemma {:induction false} NamesSeparated(names: seq<Column>, rest: string)
    ensures PutNames(names, rest) == Separated(Names(names)) + rest
    decreases |names|
  {
    if |names| == 1 {
      assert Names(names) == [names[0]];
    } else if names != [] {
      NamesSeparated(names[1..], rest);
      assert Names(names) == [names[0]] + Names(names[1..]);
      SeparatedAppends(names[0], Separated(Names(names[1..])), rest);
    }
  }

  // ---------- Tables, columns and joins ----------

  lemma TableAppends(table: string, rest: string)
    ensures PutTable(table, rest) == PutTable(table, "") + rest
  {
    assert "\"" + "" == "\"";
    Assoc(table, "\"", rest);
    Assoc("public.\"", table + "\"", rest);
  }

  lemma QualifiedAppends(table: string, column: string, rest: string)
    ensures PutQualified(table, column, rest) == PutQualified(table, column, "") + rest
  {
    TableAppends(table, "." + (column + rest));
    TableAppends(table, "." + (column + ""));
    assert column + "" == column;
    Assoc(".", column, rest);
    Assoc(PutTable(table, ""), "." + column, rest);
  }

  function ColumnTexts(columns: seq<Column>, joins: seq<Join>, table: Table): seq<string> {
    seq(|columns|, i requires 0 <= i < |columns| => PutColumn(columns[i], joins, table, ""))
  }

  lemma ColumnAppends(column: Column, joins: seq<Join>, table: Table, rest: string)
    ensures PutColumn(column, joins, table, rest) == PutColumn(column, joins, table, "") + rest
  {
    QualifiedAppends(table, column, rest);
    assert column + "" == column;
  }

  lemma FirstColumn(columns: seq<Column>, joins: seq<Join>, table: Table, rest: string)
    requires |columns| > 1
    ensures PutColumns(columns, joins, table, rest)
            == PutColumn(columns[0], joins, table, "") + (", " + PutColumns(columns[1..], joins, table, rest))
  {
    ColumnAppends(columns[0], joins, table, ", " + PutColumns(columns[1..], joins, table, rest));
  }

  lemma ColumnTextsSplit(columns: seq<Column>, joins: seq<Join>, table: Table)
    requires columns != []
    ensures ColumnTexts(columns, joins, table)
            == [PutColumn(columns[0], joins, table, "")] + ColumnTexts(columns[1..], joins, table)
  {}

  lemma {:induction false} ColumnsSeparated(columns: seq<Column>, joins: seq<Join>, table: Table, rest: string)
    ensures PutColumns(columns, joins, table, rest) == Separated(ColumnTexts(columns, joins, table)) + rest
    decreases |columns|
  {
    if columns == [] {
      assert ColumnTexts(columns, joins, table) == [];
    } else if |columns| == 1 {
      ColumnAppends(columns[0], joins, table, rest);
      assert ColumnTexts(columns, joins, table) == [PutColumn(columns[0], joins, table, "")];
    } else {
      ColumnsSeparated(columns[1..], joins, table, rest);
      FirstColumn(columns, joins, table, rest);
      ColumnTextsSplit(columns, joins, table);
      OneMoreSeparated(PutColumn(columns[0], joins, table, ""), ColumnTexts(columns[1..], joins, table),
                       PutColumns(columns[1..], joins, table, rest), rest);
    }
  }

  method IsLocalized(column: Column, joins: seq<Join>) returns (localize: bool)
    ensures localize == Localized(column, joins)
  {
    for j := 0 to |joins|
      invariant forall i | 0 <= i < j :: joins[i].leftColumn != column
    {
      if joins[j].leftColumn == column {
        assert joins[j] in joins;
        return true;
      }
    }
    localize := false;
  }

  method ColumnsToString(columns: seq<Column>, joins: seq<Join>, table: Table) returns (text: string)
    ensures text == Separated(ColumnTexts(columns, joins, table))
  {
    var parts: seq<string> := [];
    for i := 0 to |columns|
      invariant |parts| == i
      invariant forall j | 0 <= j < i :: parts[j] == PutColumn(columns[j], joins, table, "")
    {
      var localize := IsLocalized(columns[i], joins);
      assert columns[i] + "" == columns[i];
      var part := if localize then PutQualified(table, columns[i], "") else columns[i];
      assert part == PutColumn(columns[i], joins, table, "");
      parts := parts + [part];
    }
    assert parts == ColumnTexts(columns, joins, table);
    text := Together(parts);
  }

  lemma JoinAppends(join: Join, table: Table, rest: string)
    ensures PutJoin(join, table, rest) == PutJoin(join, table, "") + rest
  {
    var right := PutQualified(join.joiningTable, join.joiningColumn, "");
    var left := PutQualified(LeftTable(join, table), join.leftColumn, "");
    QualifiedAppends(join.joiningTable, join.joiningColumn, rest);
    QualifiedAppends(LeftTable(join, table), join.leftColumn, "=" + (right + rest));
    QualifiedAppends(LeftTable(join, table), join.leftColumn, "=" + right);
    Assoc("=", right, rest);
    Assoc(left, "=" + right, rest);
    var on := left + ("=" + right);
    Assoc(" ON ", on, rest);
    TableAppends(join.joiningTable, " ON " + (on + rest));
    TableAppends(join.joiningTable, " ON " + on);
    Assoc(PutTable(join.joiningTable, ""), " ON " + on, rest);
    Assoc(JoinText(join.kind), PutTable(join.joiningTable, " ON " + on), rest);
  }

  lemma NumberAppends(n: int, rest: string)
    ensures PutNumber(n, rest) == PutNumber(n, "") + rest
  {
    if n < 0 {
      assert Decimal(-n) + "" == Decimal(-n);
      Assoc("-", Decimal(-n), rest);
    } else {
      assert Decimal(n) + "" == Decimal(n);
    }
  }

  // ---------- SELECT ----------

  /** What is printed before the joins. */
  lemma SelectOpens(o: Options, k: nat, listed: string)
    requires o.Select? && Serializable(o)
    requires listed == if o.columns == [] then "*" else Separated(ColumnTexts(o.columns, o.joins, o.table))
    ensures Serialized(o, k) == "SELECT " + (listed + (" FROM " + PutTable(o.table, ""))) + PutTail(o, k)
  {
    var tail, table := PutTail(o, k), PutTable(o.table, "");
    TableAppends(o.table, tail);
    ColumnsSeparated(o.columns, o.joins, o.table, " FROM " + (table + tail));
    Assoc(" FROM ", table, tail);
    Assoc(listed, " FROM " + table, tail);
    Assoc("SELECT ", listed + (" FROM " + table), tail);
  }

  lemma {:induction false} JoinsAppend(joins: seq<Join>, table: Table, rest: string)
    ensures PutJoins(joins, table, rest) == PutJoins(joins, table, "") + rest
    decreases |joins|
  {
    if joins != [] {
      var others := PutJoins(joins[1..], table, "");
      JoinsAppend(joins[1..], table, rest);
      JoinAppends(joins[0], table, others + rest);
      JoinAppends(joins[0], table, others);
      Assoc(PutJoin(joins[0], table, ""), others, rest);
    }
  }

  lemma OneJoinMore(text: string, joins: seq<Join>, table: Table, whole: string)
    requires joins != [] && text + PutJoins(joins, table, "") == whole
    ensures text + PutJoin(joins[0], table, "") + PutJoins(joins[1..], table, "") == whole
  {
    var others := PutJoins(joins[1..], table, "");
    JoinAppends(joins[0], table, others);
    Assoc(text, PutJoin(joins[0], table, ""), others);
  }

  method JoinsToString(joins: seq<Join>, table: Table) returns (text: string)
    ensures text == PutJoins(joins, table, "")
  {
    text := "";
    for i := 0 to |joins|
      invariant text + PutJoins(joins[i..], table, "") == PutJoins(joins, table, "")
    {
      OneJoinMore(text, joins[i..], table, PutJoins(joins, table, ""));
      assert joins[i..][0] == joins[i] && joins[i..][1..] == joins[i + 1..];
      text := text + PutJoin(joins[i], table, "");
    }
    assert joins[|joins|..] == [];
  }

  method WhereToString(condition: Option<Condition>, placeholders: Placeholders) returns (text: Option<string>)
    modifies placeholders
    ensures text.Some? <==> PrintableIfAny(condition)
    ensures text.Some? ==> text.value == PutWhere(condition, old(placeholders.count), "")
    ensures text.Some? ==>
              placeholders.count == old(placeholders.count) + if condition.Some? then Arity(condition.value) else 0
  {
    if condition.None? {
      return Some("");
    }
    text := ToString(condition.value, placeholders);
    if text.Some? {
      text := Some(" WHERE " + text.value);
    }
  }

  lemma WhereAppends(condition: Option<Condition>, k: nat, rest: string)
    requires PrintableIfAny(condition)
    ensures PutWhere(condition, k, rest) == PutWhere(condition, k, "") + rest
  {
    if condition.Some? {
      PutAppends(condition.value, k, rest);
      Assoc(" WHERE ", Text(condition.value, k), rest);
    }
  }

  /** The pieces of a SELECT, one behind the other. */
  lemma SelectPrints(o: Options, k: nat, listed: string, joins: string, where: string, end: string)
    requires o.Select? && Serializable(o)
    requires listed == if o.columns == [] then "*" else Separated(ColumnTexts(o.columns, o.joins, o.table))
    requires joins == PutJoins(o.joins, o.table, "") && where == PutWhere(o.condition, k, "")
    requires end + ";" == PutOrder(o.orderBy, o.orderKind, PutLimit(" LIMIT ", o.limit, PutLimit(" OFFSET ", o.offset, ";")))
    ensures Serialized(o, k)
            == "SELECT " + (listed + (" FROM " + PutTable(o.table, ""))) + joins + where + end + ";"
  {
    SelectOpens(o, k, listed);
    WhereAppends(o.condition, k, end + ";");
    JoinsAppend(o.joins, o.table, where + (end + ";"));
    assert PutTail(o, k) == joins + (where + (end + ";"));
    Regroup("SELECT " + (listed + (" FROM " + PutTable(o.table, ""))), joins, where, end);
  }

  lemma Regroup(opening: string, joins: string, where: string, end: string)
    ensures opening + (joins + (where + (end + ";"))) == opening + joins + where + end + ";"
  {
    Assoc(opening, joins, where + (end + ";"));
    Assoc(opening + joins, where, end + ";");
    Assoc(opening + joins + where, end, ";");
  }

  method SelectToString(o: Options, placeholders: Placeholders) returns (text: Option<string>)
    requires o.Select?
    modifies placeholders
    ensures text.Some? <==> Serializable(o)
    ensures text.Some? ==> text.value == Serialized(o, old(placeholders.count))
    ensures text.Some? ==> placeholders.count == old(placeholders.count) + Width(o)
  {
    if o.table == NO_TABLE {
      return None;
    }
    var listed := "*";
    if o.columns != [] {
      listed := ColumnsToString(o.columns, o.joins, o.table);
    }
    var joins := JoinsToString(o.joins, o.table);
    var where := WhereToString(o.condition, placeholders);
    if where.None? {
      return None;
    }
    var end := OrderToString(o);
    SelectPrints(o, old(placeholders.count), listed, joins, where.value, end);
    text := Some("SELECT " + (listed + (" FROM " + PutTable(o.table, ""))) + joins + where.value + end + ";");
  }

  /** ORDER BY, LIMIT and OFFSET. */
  method OrderToString(o: Options) returns (text: string)
    requires o.Select?
    ensures text + ";" == PutOrder(o.orderBy, o.orderKind, PutLimit(" LIMIT ", o.limit, PutLimit(" OFFSET ", o.offset, ";")))
  {
    ghost var shifted := PutLimit(" OFFSET ", o.offset, ";");
    ghost var limited := PutLimit(" LIMIT ", o.limit, shifted);
    text := "";
    if o.orderBy.Some? {
      text := " ORDER BY " + (o.orderBy.value + OrderText(o.orderKind));
      Assoc(o.orderBy.value, OrderText(o.orderKind), limited);
      Assoc(" ORDER BY ", o.orderBy.value + OrderText(o.orderKind), limited);
    }
    ghost var all := text + limited;
    if o.limit.Some? {
      var limit := PutNumber(o.limit.value, "");
      NumberAppends(o.limit.value, shifted);
      Assoc(" LIMIT ", limit, shifted);
      Assoc(text, " LIMIT " + limit, shifted);
      text := text + (" LIMIT " + limit);
    }
    assert text + shifted == all;
    if o.offset.Some? {
      var offset := PutNumber(o.offset.value, "");
      NumberAppends(o.offset.value, ";");
      Assoc(" OFFSET ", offset, ";");
      Assoc(text, " OFFSET " + offset, ";");
      text := text + (" OFFSET " + offset);
    }
  }

  /** How many placeholders a query takes. */
  function Width(o: Options): nat {
    match o
    case Insert(_, columns, _, valuesCount) => valuesCount * |columns|
    case Update(_, columns, condition) => |columns| + if condition.Some? then Arity(condition.value) else 0
    case Select(_, _, _, condition, _, _, _, _) => if condition.Some? then Arity(condition.value) else 0
    case Delete(_, condition) => if condition.Some? then Arity(condition.value) else 0
  }

  // ---------- INSERT ----------

  function MarkTexts(k: nat, n: nat): seq<string> {
    seq(n, i requires 0 <= i => PutMark(k + i, ""))
  }

  lemma {:induction false} MarksSeparated(k: nat, n: nat, rest: string)
    ensures PutMarks(k, n, rest) == Separated(MarkTexts(k, n)) + rest
    decreases n
  {
    if n == 1 {
      MarkAppends(k, rest);
      assert MarkTexts(k, n) == [PutMark(k, "")];
    } else if n > 1 {
      MarksSeparated(k + 1, n - 1, rest);
      MarkAppends(k, ", " + PutMarks(k + 1, n - 1, rest));
      assert MarkTexts(k, n) == [PutMark(k, "")] + MarkTexts(k + 1, n - 1);
      SeparatedAppends(PutMark(k, ""), Separated(MarkTexts(k + 1, n - 1)), rest);
    }
  }

  function RowText(k: nat, width: nat): string {
    "(" + (Separated(MarkTexts(k, width)) + ")")
  }

  function RowTexts(k: nat, width: nat, n: nat): seq<string>
    decreases n
  {
    if n == 0 then [] else [RowText(k, width)] + RowTexts(k + width, width, n - 1)
  }

  lemma RowAppends(k: nat, width: nat, rest: string)
    ensures "(" + PutMarks(k, width, ")" + rest) == RowText(k, width) + rest
  {
    var marks := Separated(MarkTexts(k, width));
    MarksSeparated(k, width, ")" + rest);
    Assoc(marks, ")", rest);
    Assoc("(", marks + ")", rest);
  }

  lemma {:induction false} RowsSeparated(k: nat, width: nat, n: nat, rest: string)
    ensures PutRows(k, width, n, rest) == Separated(RowTexts(k, width, n)) + rest
    decreases n
  {
    if n == 1 {
      RowAppends(k, width, rest);
    } else if n > 1 {
      RowsSeparated(k + width, width, n - 1, rest);
      RowAppends(k, width, ", " + PutRows(k + width, width, n - 1, rest));
      SeparatedAppends(RowText(k, width), Separated(RowTexts(k + width, width, n - 1)), rest);
    }
  }

  method RowToString(width: nat, placeholders: Placeholders) returns (text: string)
    modifies placeholders
    ensures text == RowText(old(placeholders.count), width)
    ensures placeholders.count == old(placeholders.count) + width
  {
    var marks: seq<string> := [];
    for j := 0 to width
      invariant placeholders.count == old(placeholders.count) + j
      invariant marks == MarkTexts(old(placeholders.count), j)
    {
      var mark := placeholders.Get();
      marks := marks + [mark];
      placeholders.Next();
    }
    var listed := Together(marks);
    text := "(" + (listed + ")");
  }

  lemma OneRowMore(done: seq<string>, k: nat, width: nat, n: nat)
    requires n > 0
    ensures done + RowTexts(k, width, n) == (done + [RowText(k, width)]) + RowTexts(k + width, width, n - 1)
  {}

  method RowsToString(width: nat, n: nat, placeholders: Placeholders) returns (text: string)
    modifies placeholders
    ensures text == Separated(RowTexts(old(placeholders.count), width, n))
    ensures placeholders.count == old(placeholders.count) + n * width
  {
    var values: seq<string> := [];
    for i := 0 to n
      invariant placeholders.count == old(placeholders.count) + i * width
      invariant values + RowTexts(placeholders.count, width, n - i) == RowTexts(old(placeholders.count), width, n)
    {
      OneRowMore(values, placeholders.count, width, n - i);
      assert (i + 1) * width == i * width + width;
      var row := RowToString(width, placeholders);
      values := values + [row];
    }
    assert values + [] == values;
    text := Together(values);
  }

  lemma InsertPrints(o: Options, k: nat, named: string, rows: string, returned: string)
    requires o.Insert? && Serializable(o)
    requires named == if o.columns == [] then "" else "(" + (Separated(Names(o.columns)) + ") ")
    requires rows == Separated(RowTexts(k, |o.columns|, o.valuesCount))
    requires returned == if o.returning == [] then "" else " RETURNING " + Separated(Names(o.returning))
    ensures Serialized(o, k)
            == "INSERT INTO " + (PutTable(o.table, "") + (" " + (named + ("VALUES " + (rows + (returned + ";"))))))
  {
    var values := "VALUES " + (rows + (returned + ";"));
    NamesSeparated(o.returning, ";");
    Assoc(" RETURNING ", Separated(Names(o.returning)), ";");
    assert "" + ";" == ";";
    assert PutReturning(o.returning, ";") == returned + ";";
    RowsSeparated(k, |o.columns|, o.valuesCount, returned + ";");
    NamesSeparated(o.columns, ") " + values);
    Assoc(Separated(Names(o.columns)), ") ", values);
    Assoc("(", Separated(Names(o.columns)) + ") ", values);
    assert "" + values == values;
    TableAppends(o.table, " " + (named + values));
  }

  method InsertToString(o: Options, placeholders: Placeholders) returns (text: Option<string>)
    requires o.Insert?
    modifies placeholders
    ensures text.Some? <==> Serializable(o)
    ensures text.Some? ==> text.value == Serialized(o, old(placeholders.count))
    ensures text.Some? ==> placeholders.count == old(placeholders.count) + Width(o)
  {
    if o.table == NO_TABLE {
      return None;
    }
    var named := "";
    if o.columns != [] {
      var columns := Together(Names(o.columns));
      named := "(" + (columns + ") ");
    }
    var rows := RowsToString(|o.columns|, o.valuesCount, placeholders);
    var returned := "";
    if o.returning != [] {
      var columns := Together(Names(o.returning));
      returned := " RETURNING " + columns;
    }
    InsertPrints(o, old(placeholders.count), named, rows, returned);
    text := Some("INSERT INTO " + (PutTable(o.table, "") + (" " + (named + ("VALUES " + (rows + (returned + ";")))))));
  }

  // ---------- UPDATE ----------

  function SetText(column: Column, k: nat): string {
    column + (" = " + PutMark(k, ""))
  }

  function SetTexts(columns: seq<Column>, k: nat): seq<string>
    decreases |columns|
  {
    if columns == [] then [] else [SetText(columns[0], k)] + SetTexts(columns[1..], k + 1)
  }

  lemma SetAppends(column: Column, k: nat, rest: string)
    ensures column + (" = " + PutMark(k, rest)) == SetText(column, k) + rest
  {
    MarkAppends(k, rest);
    Assoc(" = ", PutMark(k, ""), rest);
    Assoc(column, " = " + PutMark(k, ""), rest);
  }

  lemma {:induction false} SetsSeparated(columns: seq<Column>, k: nat, rest: string)
    ensures PutSets(columns, k, rest) == Separated(SetTexts(columns, k)) + rest
    decreases |columns|
  {
    if |columns| == 1 {
      SetAppends(columns[0], k, rest);
      assert SetTexts(columns, k) == [SetText(columns[0], k)];
    } else if columns != [] {
      SetsSeparated(columns[1..], k + 1, rest);
      SetAppends(columns[0], k, ", " + PutSets(columns[1..], k + 1, rest));
      assert |SetTexts(columns, k)| > 1;
      SeparatedAppends(SetText(columns[0], k), Separated(SetTexts(columns[1..], k + 1)), rest);
    }
  }

  lemma UpdateOpens(o: Options, k: nat)
    requires o.Update? && Serializable(o)
    ensures Serialized(o, k)
            == "UPDATE " + PutTable(o.table, " SET " + PutSets(o.columns, k, PutWhere(o.condition, k + |o.columns|, ";")))
  {}

  lemma WherePrints(condition: Condition, k: nat)
    requires Printable(condition)
    ensures PutWhere(Some(condition), k, ";") == " WHERE " + (Text(condition, k) + ";")
  {
    PutAppends(condition, k, ";");
  }

  lemma UpdatePrints(o: Options, k: nat, where: string, sets: string)
    requires o.Update? && Serializable(o) && where == Text(o.condition.value, k + |o.columns|)
    requires sets == Separated(SetTexts(o.columns, k))
    ensures Serialized(o, k) == "UPDATE " + (PutTable(o.table, "") + (" SET " + (sets + (" WHERE " + (where + ";")))))
  {
    hide Text, PutTable, Separated, SetTexts;
    WherePrints(o.condition.value, k + |o.columns|);
    SetsSeparated(o.columns, k, " WHERE " + (where + ";"));
    UpdateOpens(o, k);
    TableAppends(o.table, " SET " + (sets + (" WHERE " + (where + ";"))));
  }

  lemma OneSetMore(done: seq<string>, columns: seq<Column>, i: nat, k: nat, whole: seq<string>)
    requires i < |columns| && done + SetTexts(columns[i..], k + i) == whole
    ensures (done + [SetText(columns[i], k + i)]) + SetTexts(columns[i + 1..], k + i + 1) == whole
  {
    assert columns[i..][1..] == columns[i + 1..];
    assert SetTexts(columns[i..], k + i) == [SetText(columns[i], k + i)] + SetTexts(columns[i + 1..], k + i + 1);
  }

  method SetsToString(columns: seq<Column>, placeholders: Placeholders) returns (text: string)
    modifies placeholders
    ensures text == Separated(SetTexts(columns, old(placeholders.count)))
    ensures placeholders.count == old(placeholders.count) + |columns|
  {
    ghost var k := placeholders.count;
    var modifications: seq<string> := [];
    for i := 0 to |columns|
      invariant placeholders.count == k + i
      invariant modifications + SetTexts(columns[i..], k + i) == SetTexts(columns, k)
    {
      OneSetMore(modifications, columns, i, k, SetTexts(columns, k));
      var mark := placeholders.Get();
      modifications := modifications + [columns[i] + (" = " + mark)];
      placeholders.Next();
    }
    assert modifications == SetTexts(columns, k);
    text := Together(modifications);
  }

  method UpdateToString(o: Options, placeholders: Placeholders) returns (text: Option<string>)
    requires o.Update?
    modifies placeholders
    ensures text.Some? <==> Serializable(o)
    ensures text.Some? ==> text.value == Serialized(o, old(placeholders.count))
    ensures text.Some? ==> placeholders.count == old(placeholders.count) + Width(o)
  {
    if o.table == NO_TABLE || o.columns == [] || o.condition.None? {
      return None;
    }
    var sets := SetsToString(o.columns, placeholders);
    var where := ToString(o.condition.value, placeholders);
    if where.None? {
      return None;
    }
    UpdatePrints(o, old(placeholders.count), where.value, sets);
    text := Some("UPDATE " + (PutTable(o.table, "") + (" SET " + (sets + (" WHERE " + (where.value + ";"))))));
  }

  // ---------- DELETE ----------

  method DeleteToString(o: Options, placeholders: Placeholders) returns (text: Option<string>)
    requires o.Delete?
    modifies placeholders
    ensures text.Some? <==> Serializable(o)
    ensures text.Some? ==> text.value == Serialized(o, old(placeholders.count))
    ensures text.Some? ==> placeholders.count == old(placeholders.count) + Width(o)
  {
    if o.table == NO_TABLE || o.condition.None? {
      return None;
    }
    var where := ToString(o.condition.value, placeholders);
    if where.None? {
      return None;
    }
    PutAppends(o.condition.value, old(placeholders.count), ";");
    TableAppends(o.table, " WHERE " + (where.value + ";"));
    text := Some("DELETE FROM " + (PutTable(o.table, "") + (" WHERE " + (where.value + ";"))));
  }

  /** The text of any query, with placeholders from where the counter stands. */
  method SerializeParametrized(o: Options, placeholders: Placeholders) returns (text: Option<string>)
    modifies placeholders
    ensures text.Some? <==> Serializable(o)
    ensures text.Some? ==> text.value == Serialized(o, old(placeholders.count))
    ensures text.Some? ==> placeholders.count == old(placeholders.count) + Width(o)
  {
    match o
    case Select(_, _, _, _, _, _, _, _) => text := SelectToString(o, placeholders);
    case Insert(_, _, _, _) => text := InsertToString(o, placeholders);
    case Update(_, _, _) => text := UpdateToString(o, placeholders);
    case Delete(_, _) => text := DeleteToString(o, placeholders);
  }

  // ---------- Building a query with its parameters ----------

  /** What a query is built from besides its options. */
  datatype Given = NoValues | RowValues(rows: seq<seq<string>>) | SetValues(values: seq<string>)

  predicate WellBuilt(o: Options, given: Given) {
    match o
    case Select(_, _, _, _, _, _, _, _) => given.NoValues?
    case Insert(_, columns, _, valuesCount) =>
      && given.RowValues? && given.rows != [] && valuesCount == |given.rows|
      && (forall row | row in given.rows :: |row| == |columns|)
    case Update(_, columns, condition) => given.SetValues? && |given.values| == |columns| && condition.Some?
    case Delete(_, condition) => given.NoValues? && condition.Some?
  }

  /** The parameters a built query sends, in placeholder order. */
  function Sent(o: Options, given: Given): seq<string> {
    (if given.RowValues? then Concat(given.rows) else if given.SetValues? then given.values else [])
    + (if !o.Insert? && o.condition.Some? then Params(o.condition.value) else [])
  }

  function RowsOf(collectors: seq<ValueCollector>): seq<seq<string>>
    reads collectors
  {
    seq(|collectors|, i requires 0 <= i < |collectors| reads collectors => collectors[i].values)
  }

  method SameSizes(values: seq<ValueCollector>, size: nat) returns (same: bool)
    ensures same <==> forall row | row in RowsOf(values) :: |row| == size
  {
    for i := 0 to |values|
      invariant forall j | 0 <= j < i :: |RowsOf(values)[j]| == size
    {
      if |values[i].values| != size {
        assert RowsOf(values)[i] in RowsOf(values);
        return false;
      }
    }
    same := true;
  }

  method SpliceAll(values: seq<ValueCollector>, params: ValueCollector)
    requires forall i, j | 0 <= i < j < |values| :: values[i] != values[j]
    requires params !in values && params.values == []
    modifies values, params
    ensures params.values == Concat(old(RowsOf(values)))
  {
    ghost var rows := RowsOf(values);
    assert rows[0..] == rows;
    for i := 0 to |values|
      invariant params.values + Concat(rows[i..]) == Concat(rows)
      invariant forall j | i <= j < |values| :: values[j].values == rows[j]
    {
      assert rows[i..][1..] == rows[i + 1..];
      values[i].ExtractTo(params);
    }
  }

  method InsertQuery(o: Options, values: seq<ValueCollector>) returns (query: Option<(Options, ValueCollector)>)
    requires o.Insert?
    requires forall i, j | 0 <= i < j < |values| :: values[i] != values[j]
    modifies values
    ensures var built := o.(valuesCount := |values|);
            var given := RowValues(old(RowsOf(values)));
            if WellBuilt(built, given)
            then query.Some? && query.value.0 == built && query.value.1.values == Sent(built, given)
            else query.None?
  {
    var built := o.(valuesCount := |values|);
    if values == [] {
      return None;
    }
    var same := SameSizes(values, |o.columns|);
    if !same {
      return None;
    }
    var params := new ValueCollector();
    SpliceAll(values, params);
    query := Some((built, params));
  }

  method UpdateQuery(o: Options, values: ValueCollector) returns (query: Option<(Options, ValueCollector)>)
    requires o.Update?
    modifies values
    ensures var given := SetValues(old(values.values));
            if WellBuilt(o, given)
            then query.Some? && query.value.0 == o && query.value.1.values == Sent(o, given)
            else query.None?
  {
    if |values.values| != |o.columns| || o.condition.None? {
      return None;
    }
    var params := new ValueCollector();
    values.ExtractTo(params);
    CollectParams(o.condition.value, params);
    query := Some((o, params));
  }

  method SelectQuery(o: Options) returns (query: (Options, ValueCollector))
    requires o.Select?
    ensures WellBuilt(o, NoValues) && query.0 == o && query.1.values == Sent(o, NoValues)
  {
    var params := new ValueCollector();
    if o.condition.Some? {
      CollectParams(o.condition.value, params);
    }
    query := (o, params);
  }

  method DeleteQuery(o: Options) returns (query: Option<(Options, ValueCollector)>)
    requires o.Delete?
    ensures if WellBuilt(o, NoValues)
            then query.Some? && query.value.0 == o && query.value.1.values == Sent(o, NoValues)
            else query.None?
  {
    if o.condition.None? {
      return None;
    }
    var params := new ValueCollector();
    CollectParams(o.condition.value, params);
    query := Some((o, params));
  }

  /** A built query sends exactly one parameter for each placeholder of its text. */
  lemma SendsOnePerPlaceholder(o: Options, given: Given)
    requires WellBuilt(o, given)
    ensures |Sent(o, given)| == Width(o)
  {
    if o.Insert? {
      ConcatLength(given.rows, |o.columns|);
    }
  }
}
