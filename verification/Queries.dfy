/** The four kinds of built queries: their parametrised text, and reading that text back. */
module Queries {
  import opened Wrappers
  import opened Texts
  import opened Conditions

  type Table = name: string | IsName(name) witness "Product"

  const NO_TABLE: Table := "Invalid"

  datatype JoinKind = LEFT | RIGHT | INNER

  datatype OrderKind = ASC | DESC

  datatype Join = Join(kind: JoinKind, leftTable: Option<Table>, leftColumn: Column, joiningTable: Table, joiningColumn: Column)

  datatype Options =
    | Select(table: Table, columns: seq<Column>, joins: seq<Join>, condition: Option<Condition>,
             orderBy: Option<Column>, orderKind: OrderKind, limit: Option<int>, offset: Option<int>)
    | Insert(table: Table, columns: seq<Column>, returning: seq<Column>, valuesCount: nat)
    | Update(table: Table, columns: seq<Column>, condition: Option<Condition>)
    | Delete(table: Table, condition: Option<Condition>)

  predicate PrintableIfAny(condition: Option<Condition>) {
    condition.Some? ==> Printable(condition.value)
  }

  /** Serialising throws on anything else. */
  predicate Serializable(o: Options) {
    && o.table != NO_TABLE
    && (o.Insert? || PrintableIfAny(o.condition))
    && (o.Update? ==> o.columns != [] && o.condition.Some?)
    && (o.Delete? ==> o.condition.Some?)
  }

  /** A query is refused exactly when its table is invalid, an UPDATE has no columns, an UPDATE or DELETE no condition, or
      some condition anywhere in it is refused. */
  lemma SerializableIff(o: Options)
    ensures Serializable(o) <==>
              && o.table != "Invalid"
              && (o.Update? ==> o.columns != []) && (o.Update? || o.Delete? ==> o.condition != None)
              && (!o.Insert? && o.condition != None ==>
                    forall part | part in Within(o.condition.value) ::
                      && (part.Group? ==> part.conditions != []) && (part.In? ==> part.values != [])
                      && (part.Not? ==> part.negated.Some?) && part != IsNull(INVALID))
  {
    if !o.Insert? && o.condition.Some? {
      PrintableIff(o.condition.value);
    }
  }

  // ---------- Printing ----------

  function PutTable(table: string, rest: string): string {
    "public.\"" + (table + ("\"" + rest))
  }

  /** A column qualified by its table. */
  function PutQualified(table: string, column: string, rest: string): string {
    PutTable(table, "." + (column + rest))
  }

  /** A column that some join uses on its left is printed with its table. */
  predicate Localized(column: Column, joins: seq<Join>) {
    exists join :: join in joins && join.leftColumn == column
  }

  function PutColumn(column: Column, joins: seq<Join>, table: Table, rest: string): string {
    if Localized(column, joins) then PutQualified(table, column, rest) else column + rest
  }

  function PutColumns(columns: seq<Column>, joins: seq<Join>, table: Table, rest: string): string
    decreases |columns|
  {
    if columns == [] then rest
    else PutColumn(columns[0], joins, table,
                   if |columns| == 1 then rest else ", " + PutColumns(columns[1..], joins, table, rest))
  }

  function PutNames(names: seq<Column>, rest: string): string
    decreases |names|
  {
    if names == [] then rest
    else names[0] + if |names| == 1 then rest else ", " + PutNames(names[1..], rest)
  }

  function JoinText(kind: JoinKind): string {
    match kind
    case LEFT => " LEFT JOIN "
    case RIGHT => " RIGHT JOIN "
    case INNER => " INNER JOIN "
  }

  function LeftTable(join: Join, table: Table): Table {
    if join.leftTable.Some? then join.leftTable.value else table
  }

  function PutJoin(join: Join, table: Table, rest: string): string {
    JoinText(join.kind)
    + PutTable(join.joiningTable, " ON " + PutQualified(LeftTable(join, table), join.leftColumn,
        "=" + PutQualified(join.joiningTable, join.joiningColumn, rest)))
  }

  function PutJoins(joins: seq<Join>, table: Table, rest: string): string
    decreases |joins|
  {
    if joins == [] then rest else PutJoin(joins[0], table, PutJoins(joins[1..], table, rest))
  }

  function PutWhere(condition: Option<Condition>, k: nat, rest: string): string
    requires PrintableIfAny(condition)
  {
    if condition.Some? then " WHERE " + Put(condition.value, k, rest) else rest
  }

  function OrderText(kind: OrderKind): string {
    match kind
    case ASC => " ASC"
    case DESC => " DESC"
  }

  function PutOrder(orderBy: Option<Column>, kind: OrderKind, rest: string): string {
    if orderBy.Some? then " ORDER BY " + (orderBy.value + (OrderText(kind) + rest)) else rest
  }

  function PutLimit(word: string, n: Option<int>, rest: string): string {
    if n.Some? then word + PutNumber(n.value, rest) else rest
  }

  /** What follows the table of a SELECT. */
  function PutTail(o: Options, k: nat): string
    requires o.Select? && Serializable(o)
  {
    PutJoins(o.joins, o.table,
      PutWhere(o.condition, k,
        PutOrder(o.orderBy, o.orderKind, PutLimit(" LIMIT ", o.limit, PutLimit(" OFFSET ", o.offset, ";")))))
  }

  /** Rows of placeholders, numbered row after row. */
  function PutRows(k: nat, width: nat, n: nat, rest: string): string
    decreases n
  {
    if n == 0 then rest
    else "(" + PutMarks(k, width, ")" + if n == 1 then rest else ", " + PutRows(k + width, width, n - 1, rest))
  }

  function PutSets(columns: seq<Column>, k: nat, rest: string): string
    decreases |columns|
  {
    if columns == [] then rest
    else columns[0] + (" = " + PutMark(k, if |columns| == 1 then rest else ", " + PutSets(columns[1..], k + 1, rest)))
  }

  function PutReturning(returning: seq<Column>, rest: string): string {
    if returning == [] then rest else " RETURNING " + PutNames(returning, rest)
  }

  /** The text of a query whose placeholders start at `k`. */
  function Serialized(o: Options, k: nat): string
    requires Serializable(o)
  {
    match o
    case Select(table, columns, _, _, _, _, _, _) =>
      "SELECT " + (if columns == [] then "*" + (" FROM " + PutTable(table, PutTail(o, k)))
                   else PutColumns(columns, o.joins, table, " FROM " + PutTable(table, PutTail(o, k))))
    case Insert(table, columns, returning, valuesCount) =>
      "INSERT INTO " + PutTable(table, " " +
        (var values := "VALUES " + PutRows(k, |columns|, valuesCount, PutReturning(returning, ";"));
         if columns == [] then values else "(" + PutNames(columns, ") " + values)))
    case Update(table, columns, condition) =>
      "UPDATE " + PutTable(table, " SET " + PutSets(columns, k, PutWhere(condition, k + |columns|, ";")))
    case Delete(table, condition) =>
      "DELETE FROM " + PutTable(table, PutWhere(condition, k, ";"))
  }

  // ---------- Reading back ----------

  /** A selected column, with its table when that is written out. */
  datatype ParsedColumn = ParsedColumn(table: Option<string>, name: string)

  /** JOIN joiningTable ON leftTable.leftColumn = rightTable.rightColumn. */
  datatype ParsedJoin =
    ParsedJoin(kind: JoinKind, joiningTable: string, leftTable: string, leftColumn: string, rightTable: string, rightColumn: string)

  /** A query as the database parses it. */
  datatype Statement =
    | SelectStatement(selected: seq<ParsedColumn>, table: string, joins: seq<ParsedJoin>, condition: Option<Sql>,
                      order: Option<(string, OrderKind)>, limit: Option<int>, offset: Option<int>)
    | InsertStatement(table: string, columns: seq<string>, rows: seq<seq<nat>>, returning: seq<string>)
    | UpdateStatement(table: string, sets: seq<(string, nat)>, condition: Option<Sql>)
    | DeleteStatement(table: string, condition: Option<Sql>)

  function ReadTable(s: string): (read: Option<(string, string)>)
    ensures read.Some? ==> |read.value.1| < |s|
  {
    var quoted :- Eat(s, "public.\"");
    var (name, closed) := ReadName(quoted);
    var rest :- Eat(closed, "\"");
    Some((name, rest))
  }

  function ReadQualified(s: string): (read: Option<(string, string, string)>)
    ensures read.Some? ==> |read.value.2| < |s|
  {
    var (table, dotted) :- ReadTable(s);
    var plain :- Eat(dotted, ".");
    var (column, rest) := ReadName(plain);
    Some((table, column, rest))
  }

  function ReadColumn(s: string): (read: Option<(ParsedColumn, string)>)
    ensures read.Some? ==> |read.value.1| <= |s|
  {
    if Eat(s, "public.\"").Some? then
      var (table, column, rest) :- ReadQualified(s);
      Some((ParsedColumn(Some(table), column), rest))
    else
      var (column, rest) := ReadName(s);
      Some((ParsedColumn(None, column), rest))
  }

  function ReadColumns(s: string): (read: Option<(seq<ParsedColumn>, string)>)
    ensures read.Some? ==> |read.value.1| <= |s|
    decreases |s|
  {
    var (column, rest) :- ReadColumn(s);
    var more := Eat(rest, ", ");
    if more.None? then Some(([column], rest))
    else
      var (columns, last) :- ReadColumns(more.value);
      Some(([column] + columns, last))
  }

  function ReadJoinKind(s: string): (read: Option<(JoinKind, string)>)
    ensures read.Some? ==> |read.value.1| < |s|
  {
    if |s| < 2 then None
    else if s[1] == 'L' then
      var rest :- Eat(s, " LEFT JOIN ");
      Some((LEFT, rest))
    else if s[1] == 'R' then
      var rest :- Eat(s, " RIGHT JOIN ");
      Some((RIGHT, rest))
    else
      var rest :- Eat(s, " INNER JOIN ");
      Some((INNER, rest))
  }

  function ReadJoin(s: string): (read: Option<(ParsedJoin, string)>)
    ensures read.Some? ==> |read.value.1| < |s|
  {
    var (kind, named) :- ReadJoinKind(s);
    var (joiningTable, after) :- ReadTable(named);
    var on :- Eat(after, " ON ");
    var (leftTable, leftColumn, equal) :- ReadQualified(on);
    var right :- Eat(equal, "=");
    var (rightTable, rightColumn, rest) :- ReadQualified(right);
    Some((ParsedJoin(kind, joiningTable, leftTable, leftColumn, rightTable, rightColumn), rest))
  }

  /** LEFT, RIGHT or INNER, not LIMIT. */
  predicate StartsJoin(s: string) {
    |s| >= 3 && ((s[1] == 'L' && s[2] == 'E') || s[1] == 'R' || s[1] == 'I')
  }

  function ReadJoins(s: string): Option<(seq<ParsedJoin>, string)>
    decreases |s|
  {
    if !StartsJoin(s) then Some(([], s))
    else
      var (join, rest) :- ReadJoin(s);
      var (joins, last) :- ReadJoins(rest);
      Some(([join] + joins, last))
  }

  function ReadWhere(s: string): Option<(Option<Sql>, string)> {
    var conditioned := Eat(s, " WHERE ");
    if conditioned.None? then Some((None, s))
    else
      var (sql, rest) :- ReadCondition(conditioned.value);
      Some((Some(sql), rest))
  }

  function ReadOrder(s: string): Option<(Option<(string, OrderKind)>, string)> {
    var named := Eat(s, " ORDER BY ");
    if named.None? then Some((None, s))
    else
      var (column, kinded) := ReadName(named.value);
      if Eat(kinded, " ASC").Some? then Some((Some((column, ASC)), kinded[4..]))
      else
        var rest :- Eat(kinded, " DESC");
        Some((Some((column, DESC)), rest))
  }

  function ReadLimit(word: string, s: string): Option<(Option<int>, string)> {
    var numbered := Eat(s, word);
    if numbered.None? then Some((None, s))
    else
      var (n, rest) :- ReadNumber(numbered.value);
      Some((Some(n), rest))
  }

  function ReadTail(columns: seq<ParsedColumn>, s: string): Option<Statement> {
    var (table, joined) :- ReadTable(s);
    var (joins, conditioned) :- ReadJoins(joined);
    var (condition, ordered) :- ReadWhere(conditioned);
    var (order, limited) :- ReadOrder(ordered);
    var (limit, shifted) :- ReadLimit(" LIMIT ", limited);
    var (offset, rest) :- ReadLimit(" OFFSET ", shifted);
    if rest == ";" then Some(SelectStatement(columns, table, joins, condition, order, limit, offset)) else None
  }

  function ReadSelect(s: string): Option<Statement> {
    var listed :- Eat(s, "SELECT ");
    if Eat(listed, "* FROM ").Some? then ReadTail([], listed[7..])
    else
      var (columns, after) :- ReadColumns(listed);
      var rest :- Eat(after, " FROM ");
      ReadTail(columns, rest)
  }

  function ReadRows(s: string): Option<(seq<seq<nat>>, string)>
    decreases |s|
  {
    if s == "" || s[0] != '(' then Some(([], s))
    else
      var (row, closed) := ReadMarks(s[1..]);
      var rest :- Eat(closed, ")");
      var more := Eat(rest, ", ");
      if more.None? then Some(([row], rest))
      else
        var (rows, last) :- ReadRows(more.value);
        Some(([row] + rows, last))
  }

  function ReadNames(s: string): (read: (seq<string>, string))
    decreases |s|
  {
    var (name, rest) := ReadName(s);
    var more := Eat(rest, ", ");
    if more.None? then ([name], rest)
    else
      var (names, last) := ReadNames(more.value);
      ([name] + names, last)
  }

  function ReadReturning(s: string): Option<seq<string>> {
    if s == ";" then Some([])
    else
      var listed :- Eat(s, " RETURNING ");
      var (names, rest) := ReadNames(listed);
      if rest == ";" then Some(names) else None
  }

  function ReadInsert(s: string): Option<Statement> {
    var named :- Eat(s, "INSERT INTO ");
    var (table, spaced) :- ReadTable(named);
    var listed :- Eat(spaced, " ");
    if listed != "" && listed[0] == '(' then
      var (columns, closed) := ReadNames(listed[1..]);
      var valued :- Eat(closed, ") VALUES ");
      var (rows, rest) :- ReadRows(valued);
      var returning :- ReadReturning(rest);
      Some(InsertStatement(table, columns, rows, returning))
    else
      var valued :- Eat(listed, "VALUES ");
      var (rows, rest) :- ReadRows(valued);
      var returning :- ReadReturning(rest);
      Some(InsertStatement(table, [], rows, returning))
  }

  function ReadSets(s: string): Option<(seq<(string, nat)>, string)>
    decreases |s|
  {
    var (column, equal) := ReadName(s);
    var marked :- Eat(equal, " = ");
    var (mark, rest) :- ReadMark(marked);
    var more := Eat(rest, ", ");
    if more.None? then Some(([(column, mark)], rest))
    else
      var (sets, last) :- ReadSets(more.value);
      Some(([(column, mark)] + sets, last))
  }

  function ReadUpdate(s: string): Option<Statement> {
    var named :- Eat(s, "UPDATE ");
    var (table, after) :- ReadTable(named);
    var listed :- Eat(after, " SET ");
    var (sets, conditioned) :- ReadSets(listed);
    var (condition, rest) :- ReadWhere(conditioned);
    if rest == ";" then Some(UpdateStatement(table, sets, condition)) else None
  }

  function ReadDelete(s: string): Option<Statement> {
    var named :- Eat(s, "DELETE FROM ");
    var (table, conditioned) :- ReadTable(named);
    var (condition, rest) :- ReadWhere(conditioned);
    if rest == ";" then Some(DeleteStatement(table, condition)) else None
  }

  /** The statement at the text, told by its first letter. */
  function ReadStatement(s: string): Option<Statement> {
    if s == "" then None
    else match s[0]
      case 'S' => ReadSelect(s)
      case 'I' => ReadInsert(s)
      case 'U' => ReadUpdate(s)
      case _ => ReadDelete(s)
  }

  // ---------- What the options stand for ----------

  function ParsedCondition(condition: Option<Condition>, k: nat): Option<Sql>
    requires PrintableIfAny(condition)
  {
    if condition.Some? then Some(Shape(condition.value, k)) else None
  }

  function ParsedJoinOf(join: Join, table: Table): ParsedJoin {
    ParsedJoin(join.kind, join.joiningTable, LeftTable(join, table), join.leftColumn, join.joiningTable, join.joiningColumn)
  }

  function ParsedJoins(joins: seq<Join>, table: Table): seq<ParsedJoin> {
    seq(|joins|, i requires 0 <= i < |joins| => ParsedJoinOf(joins[i], table))
  }

  function ParsedColumnOf(column: Column, joins: seq<Join>, table: Table): ParsedColumn {
    ParsedColumn(if Localized(column, joins) then Some(table) else None, column)
  }

  function ParsedColumns(columns: seq<Column>, joins: seq<Join>, table: Table): seq<ParsedColumn> {
    seq(|columns|, i requires 0 <= i < |columns| => ParsedColumnOf(columns[i], joins, table))
  }

  function MarkRows(k: nat, width: nat, n: nat): seq<seq<nat>> {
    seq(n, i requires 0 <= i < n => From(k + i * width, width))
  }

  function MarkedSets(columns: seq<Column>, k: nat): seq<(string, nat)> {
    seq(|columns|, i requires 0 <= i < |columns| => (columns[i], k + i))
  }

  function Names(columns: seq<Column>): seq<string> {
    seq(|columns|, i requires 0 <= i < |columns| => columns[i])
  }

  /** The statement the options describe, with placeholders from `k`. */
  function Intended(o: Options, k: nat): Statement
    requires Serializable(o)
  {
    match o
    case Select(table, columns, joins, condition, orderBy, orderKind, limit, offset) =>
      SelectStatement(ParsedColumns(columns, joins, table), table, ParsedJoins(joins, table), ParsedCondition(condition, k),
                      if orderBy.Some? then Some((orderBy.value, orderKind)) else None, limit, offset)
    case Insert(table, columns, returning, valuesCount) =>
      InsertStatement(table, Names(columns), MarkRows(k, |columns|, valuesCount), Names(returning))
    case Update(table, columns, condition) =>
      UpdateStatement(table, MarkedSets(columns, k), ParsedCondition(condition, k + |columns|))
    case Delete(table, condition) =>
      DeleteStatement(table, ParsedCondition(condition, k))
  }

  /** The values of an INSERT, row after row. */
  function Concat(rows: seq<seq<string>>): seq<string> {
    if rows == [] then [] else rows[0] + Concat(rows[1..])
  }

  lemma {:induction false} ConcatLength(rows: seq<seq<string>>, width: nat)
    requires forall row | row in rows :: |row| == width
    ensures |Concat(rows)| == |rows| * width
    decreases |rows|
  {
    if rows != [] {
      ConcatLength(rows[1..], width);
      Grow(|rows|, width);
    }
  }

  lemma Grow(n: nat, width: nat)
    requires n > 0
    ensures n * width == width + (n - 1) * width
  {}
}
